/**
 The transfer history of the project file browser (projectFilesHistoryLines, projectFilesHistoryItemLines and
 projectFilesHistoryPathLines in cmd/ducklord/project_files.go): a window of items around the selected one,
 its source and destination paths, and an endpoint summary when there is room.
 */
module HistoryView {
  import opened Basics

  // ---------------------------------------------------------------- the window

  /** What decides how many lines an item takes: whether it fits on one line, and whether it has an error. */
  datatype Item = Item(fits: bool, failed: bool)

  datatype Line =
    | Header
    | Endpoint
    | ItemLine(item: nat, part: nat)
    | Detail
    | BatchError
    | Empty                     // no batches, or no items in the batch

  function ItemSize(item: Item): (n: nat)
    ensures 1 <= n <= 3
  {
    if item.fits then 1 else if item.failed then 3 else 2
  }

  function Span(items: seq<Item>, from: nat, until: nat): nat
    requires from <= until <= |items|
    decreases until
  {
    if from == until then 0 else Span(items, from, until - 1) + ItemSize(items[until - 1])
  }

  lemma {:induction false} SpanSplit(items: seq<Item>, a: nat, b: nat, c: nat)
    requires a <= b <= c <= |items|
    ensures Span(items, a, c) == Span(items, a, b) + Span(items, b, c)
    decreases c
  {
    if b < c {
      SpanSplit(items, a, b, c - 1);
    }
  }

  function ItemLines(items: seq<Item>, i: nat): (lines: seq<Line>)
    requires i < |items|
    ensures |lines| == ItemSize(items[i])
    ensures forall k :: 0 <= k < |lines| ==> lines[k] == ItemLine(i, k)
  {
    seq(ItemSize(items[i]), (k: nat) => ItemLine(i, k))
  }

  /** An item that does not fit on one line has its name and its destination on two, and its error on a third. */
  lemma {:induction false} ItemShows(items: seq<Item>, i: nat)
    requires i < |items|
    ensures ItemLine(i, 1) in ItemLines(items, i) <==> !items[i].fits
    ensures ItemLine(i, 2) in ItemLines(items, i) <==> !items[i].fits && items[i].failed
  {
    var lines := ItemLines(items, i);
    assert 1 < |lines| ==> lines[1] == ItemLine(i, 1);
    assert 2 < |lines| ==> lines[2] == ItemLine(i, 2);
  }

  /** The lines of the items from..until, each item whole. */
  function Window(items: seq<Item>, from: nat, until: nat): (lines: seq<Line>)
    requires from <= until <= |items|
    ensures |lines| == Span(items, from, until)
    decreases until
  {
    if from == until then [] else Window(items, from, until - 1) + ItemLines(items, until - 1)
  }

  lemma {:induction false} WindowMembers(items: seq<Item>, from: nat, until: nat, i: nat, part: nat)
    requires from <= until <= |items| && i < |items| && part < ItemSize(items[i])
    ensures ItemLine(i, part) in Window(items, from, until) <==> from <= i < until
    decreases until
  {
    if from < until {
      WindowMembers(items, from, until - 1, i, part);
      var last := ItemLines(items, until - 1);
      assert i == until - 1 ==> last[part] == ItemLine(i, part);
    }
  }

  function Copies(line: Line, n: nat): (lines: seq<Line>)
    ensures |lines| == n && forall k :: 0 <= k < n ==> lines[k] == line
  {
    seq(n, _ => line)
  }

  /** The window around the selected item is as wide as the lines allow: first backwards, then forwards. */
  ghost predicate Widest(items: seq<Item>, selected: nat, available: nat, start: nat, end: nat)
    requires selected < |items|
  {
    && start <= selected && start <= end <= |items|
    && Span(items, start, end) <= available
    && (selected < end <==> ItemSize(items[selected]) <= available)
    && (end < |items| ==> available < Span(items, start, end + 1))
    && (0 < start ==> available < Span(items, start - 1, selected + 1))
  }

  /** How far the window reaches: back from the selected item, then forward, within `available` lines. */
  method Reach(items: seq<Item>, selected: nat, available: nat) returns (start: nat, end: nat)
    requires selected < |items|
    ensures Widest(items, selected, available, start, end)
  {
    start := selected;
    var used := ItemSize(items[selected]);
    while 0 < start
      invariant start <= selected && used == Span(items, start, selected + 1)
      invariant start == selected || used <= available
    {
      var previous := ItemSize(items[start - 1]);
      SpanSplit(items, start - 1, start, selected + 1);
      if used + previous > available {
        break;
      }
      start := start - 1;
      used := used + previous;
    }
    end := start;
    var emitted := 0;
    while end < |items|
      invariant start <= end <= |items| && emitted == Span(items, start, end) <= available
      invariant end <= selected || ItemSize(items[selected]) <= available
      decreases |items| - end
    {
      var n := ItemSize(items[end]);
      if emitted + n > available {
        if end <= selected {
          SpanSplit(items, start, end + 1, selected + 1);
        }
        break;
      }
      if end == selected {
        SpanSplit(items, start, end, end + 1);
      }
      emitted := emitted + n;
      end := end + 1;
    }
  }

  /** The lines above the items: the header and, with two lines to spare for the paths, the endpoints. */
  function Head(rows: int, size: nat): seq<Line> {
    Copies(Header, 4) + (if rows - 8 - size >= 2 then Copies(Endpoint, 2) else [])
  }

  /** The lines below them: the full paths if they fit, and otherwise up to two clipped ones. */
  function PathRoom(rows: int, size: nat, wrapped: nat): nat {
    var budget := Max(0, rows - 2 - |Head(rows, size)| - size);
    if wrapped <= budget then wrapped else Min(2, budget)
  }

  function ItemRoom(rows: int, size: nat, wrapped: nat): nat {
    Max(0, rows - 2 - |Head(rows, size)| - PathRoom(rows, size, wrapped))
  }

  /** The page around a window, with the error of the batch if a line is left for it. */
  function Page(items: seq<Item>, start: nat, end: nat, rows: int, size: nat, wrapped: nat, failed: bool): seq<Line>
    requires start <= end <= |items|
  {
    var lines := Head(rows, size) + Window(items, start, end) + Copies(Detail, PathRoom(rows, size, wrapped));
    if failed && |lines| < rows - 2 then lines + [BatchError] else lines
  }

  /** The rest of projectFilesHistoryLines, for a batch with items. */
  method BatchLines(items: seq<Item>, historyItem: int, rows: int, wrapped: nat, batchFailed: bool)
    returns (lines: seq<Line>)
    requires items != []
    ensures var selected := Min(Max(0, historyItem), |items| - 1);
            var size := ItemSize(items[selected]);
            && (4 + size <= rows - 2 ==> |lines| <= rows - 2)
            && (forall part :: 0 <= part < size ==> (ItemLine(selected, part) in lines <==> 4 + size <= rows - 2))
            && exists start, end ::
                 && Widest(items, selected, ItemRoom(rows, size, wrapped), start, end)
                 && lines == Page(items, start, end, rows, size, wrapped, batchFailed)
    ensures forall i, part :: 0 <= i < |items| && 0 < part < ItemSize(items[i]) && ItemLine(i, 0) in lines
              ==> ItemLine(i, part) in lines
  {
    lines := Copies(Header, 4);
    var selected := Min(Max(0, historyItem), |items| - 1);
    var size := ItemSize(items[selected]);
    if rows - 2 - |lines| - 2 - size >= 2 {
      lines := lines + Copies(Endpoint, 2);
    }
    assert lines == Head(rows, size);
    var detail := wrapped;
    var budget := Max(0, rows - 2 - |lines| - size);
    if detail > budget {
      detail := Min(2, budget);
    }
    var available := Max(0, rows - 2 - |lines| - detail);
    var start, end := Reach(items, selected, available);
    var head := lines;
    var window := Window(items, start, end);
    lines := head + window + Copies(Detail, detail);
    if batchFailed && |lines| < rows - 2 {
      lines := lines + [BatchError];
    }
    assert lines == Page(items, start, end, rows, size, wrapped, batchFailed);
    forall i, part | 0 <= i < |items| && 0 <= part < ItemSize(items[i])
      ensures ItemLine(i, part) in lines <==> start <= i < end
    {
      WindowMembers(items, start, end, i, part);
      InLines(head, window, detail, lines, ItemLine(i, part));
    }
  }

  /** The error of the batch is shown exactly when there is one and a line is left. */
  lemma {:induction false} ErrorIsShownIff(items: seq<Item>, start: nat, end: nat, rows: int, size: nat, wrapped: nat,
                                           failed: bool)
    requires start <= end <= |items|
    ensures BatchError in Page(items, start, end, rows, size, wrapped, failed) <==>
              failed && |Head(rows, size)| + Span(items, start, end) + PathRoom(rows, size, wrapped) < rows - 2
  {
    WindowHoldsItems(items, start, end);
    var page := Page(items, start, end, rows, size, wrapped, failed);
    assert |page| > 0 && page[|page| - 1] == BatchError ==> BatchError in page;
  }

  lemma {:induction false} WindowHoldsItems(items: seq<Item>, from: nat, until: nat)
    requires from <= until <= |items|
    ensures forall k :: 0 <= k < |Window(items, from, until)| ==> Window(items, from, until)[k].ItemLine?
    decreases until
  {
    if from < until {
      WindowHoldsItems(items, from, until - 1);
    }
  }

  /** In a page with room for it, all the wrapped lines of the paths are shown; there are never more. */
  lemma {:induction false} PathsAreShown(rows: int, size: nat, wrapped: nat)
    ensures PathRoom(rows, size, wrapped) <= wrapped || PathRoom(rows, size, wrapped) <= 2
    ensures 6 + size + wrapped <= rows - 2 ==> PathRoom(rows, size, wrapped) == wrapped
    ensures 4 + size + 2 <= rows - 2 && 2 <= wrapped ==> 2 <= PathRoom(rows, size, wrapped)
    ensures Endpoint in Head(rows, size) <==> 6 + size + 2 <= rows - 2
  {
    var head := Head(rows, size);
    assert rows - 8 - size >= 2 ==> head[4] == Endpoint;
  }

  /** projectFilesHistoryLines. `batch` is None without a history, and holds the items of the selected batch
      otherwise; `wrapped` is the number of lines the full paths take. */
  method HistoryLines(batch: Option<seq<Item>>, historyItem: int, rows: int, wrapped: nat, batchFailed: bool)
    returns (lines: seq<Line>)
    ensures batch == None ==> lines == Copies(Header, 3) + [Empty]
    ensures batch == Some([]) ==> lines == Copies(Header, 4) + Copies(Endpoint, 2) + [Empty]
    ensures batch.Some? && batch.value != [] ==>
              var items := batch.value;
              var selected := Min(Max(0, historyItem), |items| - 1);
              var size := ItemSize(items[selected]);
              && (4 + size <= rows - 2 ==> |lines| <= rows - 2)
              && (forall part :: 0 <= part < size ==> (ItemLine(selected, part) in lines <==> 4 + size <= rows - 2))
              && exists start, end ::
                   && Widest(items, selected, ItemRoom(rows, size, wrapped), start, end)
                   && lines == Page(items, start, end, rows, size, wrapped, batchFailed)
    ensures batch.Some? ==>
              forall i, part :: 0 <= i < |batch.value| && 0 < part < ItemSize(batch.value[i]) && ItemLine(i, 0) in lines
                ==> ItemLine(i, part) in lines
  {
    lines := Copies(Header, 3);
    if batch.None? {
      return lines + [Empty];
    }
    lines := lines + [Header];
    if batch.value == [] {
      return lines + Copies(Endpoint, 2) + [Empty];
    }
    lines := BatchLines(batch.value, historyItem, rows, wrapped, batchFailed);
  }

  lemma {:induction false} InLines(head: seq<Line>, window: seq<Line>, detail: nat, lines: seq<Line>, x: Line)
    requires x.ItemLine?
    requires forall k :: 0 <= k < |head| ==> head[k] == Header || head[k] == Endpoint
    requires lines == head + window + Copies(Detail, detail)
               || lines == head + window + Copies(Detail, detail) + [BatchError]
    ensures x in lines <==> x in window
  {
  }

  // ---------------------------------------------------------------- wrapping a path

  /** The cells of a run of runes; `cells` gives the width of each. */
  function Cells<T>(cells: T -> nat, runes: seq<T>): nat {
    if runes == [] then 0 else Cells(cells, runes[..|runes| - 1]) + cells(runes[|runes| - 1])
  }

  /** The inner loop of projectFilesHistoryPathLines: at least one rune, then as many as fit. */
  method TakeLine<T>(cells: T -> nat, value: seq<T>, limit: nat) returns (end: nat)
    requires value != [] && 1 <= limit
    ensures 1 <= end <= |value|
    ensures Cells(cells, value[..end]) <= limit || end == 1
    ensures end == |value| || limit <= Cells(cells, value[..end]) || limit < Cells(cells, value[..end + 1])
  {
    end := 0;
    var used := 0;
    while end < |value|
      invariant 0 <= end <= |value| && used == Cells(cells, value[..end])
      invariant used < limit
    {
      var n := cells(value[end]);
      assert value[..end + 1][..end] == value[..end];
      if 0 < end && limit < used + n {
        return;
      }
      used := used + n;
      end := end + 1;
      if limit <= used {
        return;
      }
    }
    assert value[..|value|] == value;
  }

  /** Every piece fits its line or is a single rune. */
  ghost predicate AllFit<T>(cells: T -> nat, pieces: seq<seq<T>>, available: nat, first: nat, rest: nat) {
    forall i :: 0 <= i < |pieces| ==>
      || |pieces[i]| == 1
      || (pieces[i] != [] && Cells(cells, pieces[i]) <= Max(1, available - (if i == 0 then first else rest)))
  }

  lemma {:induction false} PieceAdded<T>(pieces: seq<seq<T>>, value: seq<T>, end: nat)
    requires end <= |value|
    ensures Concat(pieces + [value[..end]]) + value[end..] == Concat(pieces) + value
  {
    var piece := value[..end];
    ConcatAppend(pieces, [piece]);
    assert [piece][1..] == [] && Concat([piece]) == piece + [] == piece;
    Assoc(Concat(pieces), piece, value[end..]);
    assert piece + value[end..] == value;
  }

  /** projectFilesHistoryPathLines: `first` and `rest` are the cells of the label and of the continuation
      indent. The pieces put together are the path, and every piece fits its line or is a single rune. */
  method PathLines<T>(cells: T -> nat, path: seq<T>, width: int, first: nat, rest: nat) returns (pieces: seq<seq<T>>)
    ensures Concat(pieces) == path
    ensures path == [] ==> pieces == [[]]
    ensures path != [] ==> pieces != [] && AllFit(cells, pieces, Max(1, width - 4), first, rest)
  {
    var available := Max(1, width - 4);
    if path == [] {
      pieces := [[]];
      return;
    }
    var value, prefix := path, first;
    pieces := [];
    while value != []
      invariant Concat(pieces) + value == path
      invariant prefix == (if pieces == [] then first else rest)
      invariant AllFit(cells, pieces, available, first, rest)
      decreases |value|
    {
      var limit := Max(1, available - prefix);
      var end := TakeLine(cells, value, limit);
      PieceAdded(pieces, value, end);
      pieces := pieces + [value[..end]];
      value := value[end..];
      prefix := rest;
    }
  }
}
