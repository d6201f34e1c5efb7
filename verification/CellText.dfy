/**
 Cell arithmetic over text with embedded SGR colour sequences (modalANSISequence, modalCellWidth,
 modalCellTruncate and modalCellPad in cmd/ducklord/main.go).

 Text is bytes, as in Go; it may hold broken escapes and broken UTF-8. The width of a rune is a
 parameter, since it comes from the Unicode tables.
 */
module CellText {
  import opened Basics
  import opened Utf8
  import opened Tokens

  /** The cells a correctly encoded rune takes, by its encoding. */
  type Widths = seq<byte> -> nat

  const SPACE: seq<byte> := [0x20]
  const ELLIPSIS: seq<byte> := [0xe2, 0x80, 0xa6]
  const RESET: seq<byte> := [0x1b, 0x5b, 0x30, 0x6d]     // ESC [ 0 m

  /** What the models need of the tables: a space and an ellipsis take one cell. */
  ghost predicate Plausible(w: Widths) {
    w(SPACE) == 1 && w(ELLIPSIS) == 1
  }

  predicate IsParameter(b: byte) {
    0x30 <= b <= 0x39 || b == 0x3b || b == 0x3a           // digits ; :
  }

  function ParameterEnd(p: seq<byte>, i: nat): (j: nat)
    requires i <= |p|
    ensures i <= j <= |p|
    decreases |p| - i
  {
    if i == |p| || !IsParameter(p[i]) then i else ParameterEnd(p, i + 1)
  }

  lemma {:induction false} ParameterEndIs(p: seq<byte>, i: nat)
    requires i <= |p|
    ensures forall k :: i <= k < ParameterEnd(p, i) ==> IsParameter(p[k])
    ensures ParameterEnd(p, i) < |p| ==> !IsParameter(p[ParameterEnd(p, i)])
    decreases |p| - i
  {
    if i < |p| && IsParameter(p[i]) {
      ParameterEndIs(p, i + 1);
    }
  }

  /** The length of the SGR sequence the text starts with, 0 if it starts with none. */
  function Sgr(p: seq<byte>): (n: nat)
    ensures n <= |p|
  {
    if |p| < 2 || p[0] != 0x1b || p[1] != 0x5b then 0
    else
      var j := ParameterEnd(p, 2);
      if j < |p| && p[j] == 0x6d then j + 1 else 0
  }

  /** The text is a sequence of tokens: SGR sequences without width, and runes. */
  function TokenSize(p: seq<byte>): (n: nat)
    requires p != []
    ensures 1 <= n <= |p|
  {
    if Sgr(p) != 0 then Sgr(p) else RuneSize(p)
  }

  function TokenWidth(w: Widths, p: seq<byte>): nat
    requires p != []
  {
    if Sgr(p) != 0 then 0 else if ValidRune(p) then w(p[..RuneSize(p)]) else 1
  }

  function Cells(w: Widths): Tokenizer {
    p => if p == [] then Token(0, 0) else Token(TokenSize(p), TokenWidth(w, p))
  }

  /** The tokenizer, without its definition. */
  ghost predicate Tokenizes(t: Tokenizer, w: Widths) {
    && Advances(t)
    && forall p {:trigger TokenSize(p)} :: p != [] ==> t(p) == Token(TokenSize(p), TokenWidth(w, p))
  }

  lemma {:induction false} CellsTokenize(w: Widths)
    ensures Tokenizes(Cells(w), w) && SurvivesCut(Cells(w))
  {
    forall p: seq<byte>, k | p != [] && Cells(w)(p).size <= k <= |p|
      ensures Cells(w)(p[..k]) == Cells(w)(p)
    {
      TokenSurvivesCut(w, p, k);
    }
  }

  function Width(w: Widths, p: seq<byte>): nat {
    CellsTokenize(w);
    WidthOf(Cells(w), p)
  }

  /** One turn of the loops: an escape sequence without width, or a rune. */
  method NextToken(w: Widths, rest: seq<byte>, ghost t: Tokenizer) returns (size: nat, width: nat)
    requires Tokenizes(t, w) && rest != []
    ensures t(rest) == Token(size, width)
  {
    assert t(rest) == Token(TokenSize(rest), TokenWidth(w, rest));
    if Sgr(rest) != 0 {
      size, width := Sgr(rest), 0;
    } else {
      size := RuneSize(rest);
      width := if ValidRune(rest) then w(rest[..size]) else 1;
    }
  }

  method MeasureTokens(w: Widths, value: seq<byte>, ghost t: Tokenizer) returns (width: nat)
    requires Tokenizes(t, w)
    ensures width == WidthOf(t, value)
  {
    width := 0;
    var rest := value;
    while rest != []
      invariant WidthOf(t, value) == width + WidthOf(t, rest)
      decreases |rest|
    {
      var n, cells := NextToken(w, rest, t);
      width := width + cells;
      rest := rest[n..];
    }
  }

  /** modalCellWidth. */
  method CellWidth(w: Widths, value: seq<byte>) returns (width: nat)
    ensures width == Width(w, value)
  {
    CellsTokenize(w);
    width := MeasureTokens(w, value, Cells(w));
  }

  // ---------------------------------------------------------------- cutting and joining

  /** Cutting text after its first token neither creates nor destroys an escape or a rune. */
  lemma {:induction false} TokenSurvivesCut(w: Widths, p: seq<byte>, k: nat)
    requires p != [] && TokenSize(p) <= k <= |p|
    ensures TokenSize(p[..k]) == TokenSize(p) && TokenWidth(w, p[..k]) == TokenWidth(w, p)
  {
    var q := p[..k];
    assert forall i :: 0 <= i < k ==> q[i] == p[i];
    SgrSurvivesCut(p, k);
    if Sgr(p) == 0 && ValidRune(p) {
      assert q[..RuneSize(p)] == p[..RuneSize(p)];
    }
  }

  lemma {:induction false} SgrSurvivesCut(p: seq<byte>, k: nat)
    requires Sgr(p) <= k <= |p|
    ensures Sgr(p[..k]) == Sgr(p)
  {
    var q := p[..k];
    assert forall i :: 0 <= i < k ==> q[i] == p[i];
    if 2 <= k && p[0] == 0x1b && p[1] == 0x5b {
      ParameterEndIs(p, 2);
      ParameterEndIs(q, 2);
      var a, b := ParameterEnd(p, 2), ParameterEnd(q, 2);
      assert b < k ==> !IsParameter(p[b]);
      assert a < k ==> !IsParameter(q[a]);
    }
  }

  /** A byte that continues neither a rune nor an escape sequence. */
  predicate Separates(b: byte) {
    !Continuation(b) && !IsParameter(b) && b != 0x6d && b != 0x5b
  }

  lemma {:induction false} TokenSurvivesAppend(w: Widths, p: seq<byte>, s: seq<byte>)
    requires p != [] && (s == [] || Separates(s[0]))
    ensures TokenSize(p + s) == TokenSize(p) && TokenWidth(w, p + s) == TokenWidth(w, p)
  {
    var q := p + s;
    assert forall i :: 0 <= i < |p| ==> q[i] == p[i];
    if 2 <= |q| && q[0] == 0x1b && q[1] == 0x5b && 2 <= |p| {
      ParameterEndIs(p, 2);
      ParameterEndIs(q, 2);
      var a, b := ParameterEnd(p, 2), ParameterEnd(q, 2);
      assert b < |p| ==> !IsParameter(p[b]);
      assert a < |p| ==> !IsParameter(q[a]);
    }
    if Sgr(p) == 0 {
      if ValidRune(p) {
        assert q[..RuneSize(p)] == p[..RuneSize(p)];
      } else if s != [] {
        assert q[|p|] == s[0];
        assert !ValidRune(q);
      } else {
        assert q == p;
      }
    }
  }

  lemma {:induction false} CellsSurviveAppend(w: Widths, s: seq<byte>)
    requires s == [] || Separates(s[0])
    ensures SurvivesAppend(Cells(w), s)
  {
    forall p: seq<byte> | p != []
      ensures Cells(w)(p + s) == Cells(w)(p)
    {
      TokenSurvivesAppend(w, p, s);
    }
  }

  /** Width is additive across a separating byte. */
  lemma {:induction false} WidthOfText(w: Widths, p: seq<byte>, s: seq<byte>)
    requires s == [] || Separates(s[0])
    ensures Width(w, p + s) == Width(w, p) + Width(w, s)
  {
    CellsTokenize(w);
    CellsSurviveAppend(w, s);
    WidthOfJoin(Cells(w), p, s);
  }

  // ---------------------------------------------------------------- truncating and padding

  /** How much of the text is kept in front of the ellipsis. */
  ghost function Keep(w: Widths, p: seq<byte>, limit: nat): (k: nat)
    ensures k <= |p|
  {
    CellsTokenize(w);
    Fitting(Cells(w), p, limit)
  }

  predicate HasEscape(p: seq<byte>) {
    exists i :: 0 <= i < |p| - 1 && p[i] == 0x1b && p[i + 1] == 0x5b
  }

  ghost function Truncate(w: Widths, value: seq<byte>, cells: int): seq<byte> {
    if cells <= 0 then []
    else if Width(w, value) <= cells then value
    else
      var limit := Max(0, cells - Width(w, ELLIPSIS));
      value[..Keep(w, value, limit)] + ELLIPSIS + (if HasEscape(value) then RESET else [])
  }

  function Spaces(n: nat): (s: seq<byte>)
    ensures |s| == n
  {
    if n == 0 then [] else SPACE + Spaces(n - 1)
  }

  function Pad(w: Widths, value: seq<byte>, cells: int): seq<byte> {
    value + Spaces(Max(0, cells - Width(w, value)))
  }

  /** The loop of modalCellTruncate. */
  method KeepPrefix(w: Widths, value: seq<byte>, limit: nat, ghost t: Tokenizer) returns (kept: seq<byte>)
    requires Tokenizes(t, w)
    ensures kept == value[..Fitting(t, value, limit)]
  {
    var used := 0;
    kept := [];
    var rest := value;
    while rest != []
      invariant value == kept + rest && used <= limit
      invariant Fitting(t, value, limit) == |kept| + Fitting(t, rest, limit - used)
      decreases |rest|
    {
      var n, width := NextToken(w, rest, t);
      if limit < used + width {
        return;
      }
      JoinCut(kept, rest, n);
      used := used + width;
      kept := kept + rest[..n];
      rest := rest[n..];
    }
  }

  lemma {:induction false} JoinCut(a: seq<byte>, b: seq<byte>, n: nat)
    requires n <= |b|
    ensures a + b == (a + b[..n]) + b[n..]
  {
  }

  /** modalCellTruncate. */
  method CellTruncate(w: Widths, value: seq<byte>, cells: int) returns (r: seq<byte>)
    ensures r == Truncate(w, value, cells)
  {
    if cells <= 0 {
      return [];
    }
    var width := CellWidth(w, value);
    if width <= cells {
      return value;
    }
    var dots := CellWidth(w, ELLIPSIS);
    CellsTokenize(w);
    r := KeepPrefix(w, value, Max(0, cells - dots), Cells(w));
    r := r + ELLIPSIS + (if HasEscape(value) then RESET else []);
  }

  lemma {:induction false} KeepFits(w: Widths, p: seq<byte>, limit: nat)
    ensures Width(w, p[..Keep(w, p, limit)]) <= limit
  {
    CellsTokenize(w);
    FittingFits(Cells(w), p, limit);
  }

  lemma {:induction false} OneToken(w: Widths, p: seq<byte>)
    requires p != [] && TokenSize(p) == |p|
    ensures Width(w, p) == TokenWidth(w, p)
  {
    CellsTokenize(w);
    assert Cells(w)(p) == Token(TokenSize(p), TokenWidth(w, p));
    assert p[|p|..] == [] && WidthOf(Cells(w), []) == 0;
  }

  lemma {:induction false} EllipsisWidth(w: Widths)
    requires Plausible(w)
    ensures Width(w, ELLIPSIS) == 1
  {
    assert RuneSize(ELLIPSIS) == 3 && ELLIPSIS[..3] == ELLIPSIS;
    OneToken(w, ELLIPSIS);
  }

  lemma {:induction false} ResetWidth(w: Widths)
    ensures Width(w, RESET) == 0
  {
    assert ParameterEnd(RESET, 2) == 3;
    assert Sgr(RESET) == 4;
    OneToken(w, RESET);
  }

  /** The kept text, the ellipsis and the reset do not merge into one another. */
  lemma {:induction false} TruncatedWidth(w: Widths, value: seq<byte>, cells: int)
    requires Plausible(w) && 0 < cells < Width(w, value)
    ensures Width(w, Truncate(w, value, cells))
         == Width(w, value[..Keep(w, value, cells - 1)]) + 1
  {
    EllipsisWidth(w);
    ResetWidth(w);
    var kept, reset := value[..Keep(w, value, cells - 1)], if HasEscape(value) then RESET else [];
    assert Truncate(w, value, cells) == kept + ELLIPSIS + reset;
    WidthOfText(w, kept, ELLIPSIS);
    WidthOfText(w, kept + ELLIPSIS, reset);
  }

  /** Truncated text never exceeds the cells it was given. */
  lemma {:induction false} TruncateFits(w: Widths, value: seq<byte>, cells: int)
    requires Plausible(w) && 0 <= cells
    ensures Width(w, Truncate(w, value, cells)) <= cells
  {
    if 0 < cells < Width(w, value) {
      TruncatedWidth(w, value, cells);
      KeepFits(w, value, cells - 1);
    }
  }

  lemma {:induction false} TruncateIdempotent(w: Widths, value: seq<byte>, cells: int)
    requires Plausible(w)
    ensures Truncate(w, Truncate(w, value, cells), cells) == Truncate(w, value, cells)
  {
    if 0 < cells {
      TruncateFits(w, value, cells);
    }
  }

  lemma {:induction false} SpacesWidth(w: Widths, n: nat)
    requires Plausible(w)
    ensures Width(w, Spaces(n)) == n
  {
    if n != 0 {
      CellsTokenize(w);
      SpacesWidth(w, n - 1);
      var s := Spaces(n);
      assert RuneSize(s) == 1 && s[..1] == SPACE && s[1..] == Spaces(n - 1);
    }
  }

  /** Text that fits is padded to exactly the cells it is given. */
  lemma {:induction false} PadWidth(w: Widths, value: seq<byte>, cells: nat)
    requires Plausible(w) && Width(w, value) <= cells
    ensures Width(w, Pad(w, value, cells)) == cells
  {
    var fill := Spaces(cells - Width(w, value));
    assert fill != [] ==> fill[0] == 0x20;
    SpacesWidth(w, |fill|);
    WidthOfText(w, value, fill);
  }

  /** Truncating and then padding to n cells gives exactly n cells, for every text and every n. */
  lemma {:induction false} TruncateThenPad(w: Widths, value: seq<byte>, cells: nat)
    requires Plausible(w)
    ensures Width(w, Pad(w, Truncate(w, value, cells), cells)) == cells
  {
    TruncateFits(w, value, cells);
    PadWidth(w, Truncate(w, value, cells), cells);
  }

  // ---------------------------------------------------------------- what is kept and what counts as an escape

  /** Text that fits is left alone; other text keeps whole tokens, then the ellipsis, and ends its colours. */
  lemma {:induction false} TruncateShape(w: Widths, value: seq<byte>, cells: int)
    requires Plausible(w)
    ensures 0 < cells && Width(w, value) <= cells ==> Truncate(w, value, cells) == value
    ensures cells <= 0 ==> Truncate(w, value, cells) == []
    ensures 0 < cells < Width(w, value) ==>
              exists k ::
                0 <= k <= |value| && Truncate(w, value, cells)
                                     == value[..k] + ELLIPSIS + (if HasEscape(value) then RESET else [])
  {
    if 0 < cells < Width(w, value) {
      EllipsisWidth(w);
      var k := Keep(w, value, cells - 1);
      assert Truncate(w, value, cells) == value[..k] + ELLIPSIS + (if HasEscape(value) then RESET else []);
    }
  }

  predicate IsParameterText(s: string) {
    forall i :: 0 <= i < |s| ==> s[i] in "0123456789;:"
  }

  function Ascii(s: string): seq<byte>
    requires IsParameterText(s)
  {
    seq(|s|, i requires 0 <= i < |s| => AsciiOf(s[i]))
  }

  function AsciiOf(c: char): byte
    requires c in "0123456789;:"
  {
    if c == ';' then 0x3b else if c == ':' then 0x3a else 0x30 + (c as int - '0' as int)
  }

  lemma {:induction false} ParameterEndAt(p: seq<byte>, i: nat, end: nat)
    requires i <= end < |p| && !IsParameter(p[end]) && forall k :: i <= k < end ==> IsParameter(p[k])
    ensures ParameterEnd(p, i) == end
    decreases end - i
  {
    if i < end {
      ParameterEndAt(p, i + 1, end);
    }
  }

  /** ESC [, any digits, semicolons and colons, and m make an escape sequence without width, whatever follows. */
  lemma {:induction false} EscapeSequenceIs(w: Widths, parameters: string, rest: seq<byte>)
    requires IsParameterText(parameters)
    ensures var p := [0x1b, 0x5b] + Ascii(parameters) + [0x6d] + rest;
            TokenSize(p) == |parameters| + 3 && TokenWidth(w, p) == 0
  {
    var p := [0x1b, 0x5b] + Ascii(parameters) + [0x6d] + rest;
    var end := 2 + |parameters|;
    assert p[0] == 0x1b && p[1] == 0x5b && p[end] == 0x6d;
    forall k | 2 <= k < end
      ensures IsParameter(p[k])
    {
      assert p[k] == AsciiOf(parameters[k - 2]);
    }
    ParameterEndAt(p, 2, end);
  }

  /** A character of the text takes the cells the tables give it; a broken byte takes one. */
  lemma {:induction false} RuneTakes(w: Widths, c: nat, rest: seq<byte>)
    requires IsScalar(c) && c != 0x1b
    ensures TokenSize(Encode(c) + rest) == |Encode(c)| && TokenWidth(w, Encode(c) + rest) == w(Encode(c))
  {
    EncodedIsValid(c);
    ValidRuneStays(Encode(c), rest);
    assert (Encode(c) + rest)[..|Encode(c)|] == Encode(c);
    assert (Encode(c) + rest)[0] == Encode(c)[0];
  }

  /** A byte that starts neither an escape sequence nor a rune takes one cell. */
  lemma {:induction false} BrokenByteTakesOne(w: Widths, p: seq<byte>)
    requires p != [] && p[0] != 0x1b && !ValidRune(p)
    ensures TokenSize(p) == 1 && TokenWidth(w, p) == 1
  {
  }

  /** Colours are ended exactly in text with ESC [ in it. */
  lemma {:induction false} EscapesAreSeen(a: seq<byte>, b: seq<byte>, p: seq<byte>)
    ensures HasEscape(a + [0x1b, 0x5b] + b)
    ensures 0x1b !in p || 0x5b !in p ==> !HasEscape(p)
  {
    var q := a + [0x1b, 0x5b] + b;
    assert q[|a|] == 0x1b && q[|a| + 1] == 0x5b;
  }
}
