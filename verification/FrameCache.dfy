/**
 The row-diff frame cache (frameOutput.write in cmd/ducklord/frame_output.go): a frame is composed
 completely, but only the rows that differ from the last published ones are repainted.

 Lines are styled text: bytes with escape sequences and wide runes. How a frame is laid out is a parameter,
 `draw`, and so is what the terminal makes of a text, `cells`; writing the whole frame shows exactly its
 layout.
 */
module FrameCache {
  import opened Basics
  import opened CellText

  type Line = seq<byte>

  /** What a text looks like from the first column on, cell by cell. */
  type Row = seq<string>

  datatype Cursor = Hidden | At(row: nat, col: nat)

  /** A frame laid out: at most `width` cells in each of `height` lines. */
  datatype Picture = Picture(lines: seq<Line>, cursor: Cursor)

  datatype Screen = Screen(widths: Widths, cells: Line -> Row, draw: (string, nat, nat) -> Picture)

  /** Text takes as many cells as it is measured to take, and frames are laid out within their size. */
  ghost predicate Faithful(t: Screen) {
    && Plausible(t.widths)
    && (forall p :: |t.cells(p)| == Width(t.widths, p))
    && (forall frame, width, height :: Fits(t, t.draw(frame, width, height), width, height))
  }

  ghost predicate Fits(t: Screen, p: Picture, width: nat, height: nat) {
    |p.lines| == height && forall i :: 0 <= i < height ==> Width(t.widths, p.lines[i]) <= width
  }

  /** What the terminal shows: every row has all its cells. */
  datatype Display = Display(rows: seq<Row>, cursor: Cursor)

  function ShownRow(t: Screen, line: Line, width: nat): Row {
    t.cells(Pad(t.widths, line, width))
  }

  function ShownRows(t: Screen, lines: seq<Line>, width: nat): seq<Row> {
    seq(|lines|, i requires 0 <= i < |lines| => ShownRow(t, lines[i], width))
  }

  function Shown(t: Screen, p: Picture, width: nat): Display {
    Display(ShownRows(t, p.lines, width), p.cursor)
  }

  /** Moves to a row and writes a text; the cells after it stay. */
  datatype Paint = Paint(row: nat, text: Line)

  function Overlay(before: Row, text: Row): Row {
    if |text| < |before| then text + before[|text|..] else text
  }

  function PaintRow(t: Screen, rows: seq<Row>, p: Paint): seq<Row> {
    if p.row < |rows| then rows[p.row := Overlay(rows[p.row], t.cells(p.text))] else rows
  }

  function PaintAll(t: Screen, rows: seq<Row>, ps: seq<Paint>): seq<Row>
    decreases |ps|
  {
    if ps == [] then rows else PaintRow(t, PaintAll(t, rows, ps[..|ps| - 1]), ps[|ps| - 1])
  }

  /** Painting a short text leaves the cells behind it, which is why lines are padded. */
  lemma {:induction false} ShortTextLeavesTheRest(t: Screen, rows: seq<Row>, p: Paint, k: nat)
    requires p.row < |rows| && |t.cells(p.text)| <= k < |rows[p.row]|
    ensures |PaintRow(t, rows, p)[p.row]| == |rows[p.row]| && PaintRow(t, rows, p)[p.row][k] == rows[p.row][k]
  {
  }

  lemma {:induction false} PaintAppend(t: Screen, rows: seq<Row>, ps: seq<Paint>, p: Paint)
    ensures PaintAll(t, rows, ps + [p]) == PaintRow(t, PaintAll(t, rows, ps), p)
  {
    assert (ps + [p])[..|ps|] == ps;
  }

  lemma {:induction false} ShownRowIsFull(t: Screen, line: Line, width: nat)
    requires Faithful(t) && Width(t.widths, line) <= width
    ensures |ShownRow(t, line, width)| == width
  {
    PadWidth(t.widths, line, width);
  }

  // ---------------------------------------------------------------- painting the rows that differ

  /** The paints for the rows that differ among the first i; `texts` are the padded lines. */
  function Differing(cached: seq<Line>, lines: seq<Line>, texts: seq<Line>, i: nat): seq<Paint>
    requires |texts| == |lines| == |cached| && i <= |lines|
  {
    if i == 0 then []
    else
      Differing(cached, lines, texts, i - 1)
      + (if lines[i - 1] == cached[i - 1] then [] else [Paint(i - 1, texts[i - 1])])
  }

  lemma {:induction false} DifferingNothing(cached: seq<Line>, lines: seq<Line>, texts: seq<Line>, i: nat)
    requires |texts| == |lines| == |cached| && i <= |lines|
    ensures Differing(cached, lines, texts, i) == [] <==> forall k :: 0 <= k < i ==> lines[k] == cached[k]
  {
    if i != 0 {
      DifferingNothing(cached, lines, texts, i - 1);
    }
  }

  /** The texts cover rows of the width, `was` shows the cached lines and `want` the new ones. */
  ghost predicate Covering(t: Screen, cached: seq<Line>, lines: seq<Line>, texts: seq<Line>,
                           was: seq<Row>, want: seq<Row>, width: nat)
  {
    && |texts| == |lines| == |cached| == |was| == |want|
    && (forall k :: 0 <= k < |was| ==> |was[k]| == width && |want[k]| == width)
    && (forall k :: 0 <= k < |texts| ==> t.cells(texts[k]) == want[k])
    && (forall k :: 0 <= k < |lines| && lines[k] == cached[k] ==> was[k] == want[k])
  }

  lemma {:induction false} PaintCovers(t: Screen, rows: seq<Row>, p: Paint, row: Row)
    requires p.row < |rows| && t.cells(p.text) == row && |rows[p.row]| == |row|
    ensures PaintRow(t, rows, p) == rows[p.row := row]
  {
  }

  lemma {:induction false} NextRow(was: seq<Row>, want: seq<Row>, i: nat)
    requires |was| == |want| && i < |was|
    ensures want[..i + 1] + was[i + 1..] == (want[..i] + was[i..])[i := want[i]]
    ensures (want[..i] + was[i..])[i] == was[i]
  {
  }

  /** A padded line covers its row, so painting the rows that differ replaces the first i rows. */
  lemma {:induction false} DifferingPaints(t: Screen, cached: seq<Line>, lines: seq<Line>, texts: seq<Line>,
                                           was: seq<Row>, want: seq<Row>, width: nat, i: nat)
    requires Covering(t, cached, lines, texts, was, want, width) && i <= |lines|
    ensures PaintAll(t, was, Differing(cached, lines, texts, i)) == want[..i] + was[i..]
  {
    if i == 0 {
      assert want[..0] + was[0..] == was;
    } else {
      var body, k := Differing(cached, lines, texts, i - 1), i - 1;
      DifferingPaints(t, cached, lines, texts, was, want, width, k);
      if lines[k] == cached[k] {
        NextRow(was, want, k);
        assert body + [] == body;
      } else {
        PaintNext(t, was, want, body, Paint(k, texts[k]));
      }
    }
  }

  lemma {:induction false} PaintNext(t: Screen, was: seq<Row>, want: seq<Row>, body: seq<Paint>, p: Paint)
    requires |was| == |want| && p.row < |was| && t.cells(p.text) == want[p.row] && |was[p.row]| == |want[p.row]|
    requires PaintAll(t, was, body) == want[..p.row] + was[p.row..]
    ensures PaintAll(t, was, body + [p]) == want[..p.row + 1] + was[p.row + 1..]
  {
    NextRow(was, want, p.row);
    PaintAppend(t, was, body, p);
    PaintCovers(t, want[..p.row] + was[p.row..], p, want[p.row]);
  }

  function Texts(w: Widths, lines: seq<Line>, width: nat): seq<Line> {
    seq(|lines|, i requires 0 <= i < |lines| => Pad(w, lines[i], width))
  }

  lemma {:induction false} RowsAreFull(t: Screen, lines: seq<Line>, width: nat)
    requires Faithful(t) && forall i :: 0 <= i < |lines| ==> Width(t.widths, lines[i]) <= width
    ensures forall i :: 0 <= i < |lines| ==> |ShownRows(t, lines, width)[i]| == width
    ensures forall i :: 0 <= i < |lines| ==> t.cells(Texts(t.widths, lines, width)[i]) == ShownRows(t, lines, width)[i]
  {
    forall i | 0 <= i < |lines|
      ensures |ShownRows(t, lines, width)[i]| == width
    {
      ShownRowIsFull(t, lines[i], width);
    }
  }

  /** Both layouts fit the width. */
  ghost predicate BothFit(t: Screen, cached: seq<Line>, lines: seq<Line>, width: nat) {
    && |lines| == |cached|
    && (forall i :: 0 <= i < |lines| ==> Width(t.widths, lines[i]) <= width)
    && (forall i :: 0 <= i < |cached| ==> Width(t.widths, cached[i]) <= width)
  }

  lemma {:induction false} DifferingIsEnough(t: Screen, cached: seq<Line>, lines: seq<Line>, width: nat)
    requires Faithful(t) && BothFit(t, cached, lines, width)
    ensures PaintAll(t, ShownRows(t, cached, width), Differing(cached, lines, Texts(t.widths, lines, width), |lines|))
         == ShownRows(t, lines, width)
  {
    var was, want := ShownRows(t, cached, width), ShownRows(t, lines, width);
    RowsAreFull(t, cached, width);
    RowsAreFull(t, lines, width);
    DifferingPaints(t, cached, lines, Texts(t.widths, lines, width), was, want, width, |lines|);
    assert want[..|lines|] + was[|lines|..] == want;
  }

  method FindChanges(cached: seq<Line>, lines: seq<Line>, texts: seq<Line>) returns (body: seq<Paint>)
    requires |texts| == |lines| == |cached|
    ensures body == Differing(cached, lines, texts, |lines|)
  {
    body := [];
    for i := 0 to |lines|
      invariant body == Differing(cached, lines, texts, i)
    {
      if lines[i] != cached[i] {
        body := body + [Paint(i, texts[i])];
      }
    }
  }

  /** The loop of write over the rows: only those that differ are painted, and that is enough. */
  method Changes(t: Screen, cached: seq<Line>, lines: seq<Line>, width: nat) returns (body: seq<Paint>)
    requires Faithful(t) && BothFit(t, cached, lines, width)
    ensures PaintAll(t, ShownRows(t, cached, width), body) == ShownRows(t, lines, width)
    ensures body == [] <==> lines == cached
  {
    body := FindChanges(cached, lines, Texts(t.widths, lines, width));
    DifferingIsEnough(t, cached, lines, width);
    DifferingNothing(cached, lines, Texts(t.widths, lines, width), |lines|);
  }

  class FrameOutput {
    var rows: seq<Line>
    var width: nat
    var height: nat
    var cursor: Cursor
    var frame: string

    ghost predicate Empty()
      reads this
    {
      rows == [] && width == 0 && height == 0 && frame == ""
    }

    /** A non-empty cache holds a layout that the terminal shows. */
    ghost predicate Agrees(t: Screen, d: Display)
      reads this
    {
      Empty() ||
      (&& 1 <= width && 1 <= height
       && t.draw(frame, width, height) == Picture(rows, cursor)
       && d == Shown(t, Picture(rows, cursor), width))
    }

    constructor ()
      ensures Empty()
    {
      rows, width, height, cursor, frame := [], 0, 0, Hidden, "";
    }

    method Reset()
      modifies this
      ensures Empty()
    {
      rows, width, height, cursor, frame := [], 0, 0, Hidden, "";
    }

    /** write. `failure` is what the terminal shows if the write fails or is cut short. */
    method Write(t: Screen, d: Display, newFrame: string, newWidth: int, newHeight: int, failure: Option<Display>)
      returns (d': Display, written: bool)
      requires Faithful(t) && Agrees(t, d)
      modifies this
      ensures Agrees(t, d')
      ensures newWidth < 1 || newHeight < 1 ==> d' == d && !written
      ensures 1 <= newWidth && 1 <= newHeight && (failure.None? || !written) ==>
                d' == Shown(t, t.draw(newFrame, newWidth, newHeight), newWidth) && frame == newFrame
      ensures written && failure.Some? ==> d' == failure.value && Empty()
    {
      if newWidth < 1 || newHeight < 1 || (width == newWidth && height == newHeight && frame == newFrame) {
        return d, false;
      }
      var picture := t.draw(newFrame, newWidth, newHeight);
      assert Fits(t, picture, newWidth, newHeight);
      var reset := width != newWidth || height != newHeight || |rows| != |picture.lines|;
      var body := [];
      if !reset {
        assert Fits(t, t.draw(frame, width, height), width, height);
        body := Changes(t, rows, picture.lines, newWidth);
        if body == [] && picture.cursor == cursor {
          frame := newFrame;
          return d, false;
        }
      }
      written := true;
      if failure.Some? {
        Reset();
        return failure.value, written;
      }
      d' := if reset then Shown(t, picture, newWidth) else Display(PaintAll(t, d.rows, body), picture.cursor);
      rows, width, height, cursor, frame := picture.lines, newWidth, newHeight, picture.cursor, newFrame;
    }
  }

  // ---------------------------------------------------------------- any sequence of writes

  datatype Request = Request(frame: string, width: int, height: int, failure: Option<Display>)

  /** Every sequence of writes, failed ones included, keeps the cache in agreement with the terminal, and
      whenever the last one did not fail the terminal shows a full repaint of its frame. */
  method WriteAll(t: Screen, start: Display, requests: seq<Request>) returns (d: Display, f: FrameOutput)
    requires Faithful(t)
    ensures f.Agrees(t, d)
    ensures requests != [] ==>
              var last := requests[|requests| - 1];
              last.failure.None? && 1 <= last.width && 1 <= last.height ==>
                d == Shown(t, t.draw(last.frame, last.width, last.height), last.width)
  {
    f := new FrameOutput();
    d := start;
    for i := 0 to |requests|
      invariant fresh(f) && f.Agrees(t, d)
      invariant 0 < i ==>
                  var last := requests[i - 1];
                  last.failure.None? && 1 <= last.width && 1 <= last.height ==>
                    d == Shown(t, t.draw(last.frame, last.width, last.height), last.width)
    {
      var r, written := requests[i], false;
      d, written := f.Write(t, d, r.frame, r.width, r.height, r.failure);
    }
  }
}
