/**
 The keys a terminal sends, and that the tokenizer gives each of them back as one event: a key is never taken
 apart and never merged with the next one.
 */
module Keys {
  import opened Basics
  import opened Utf8
  import opened KeyboardInput

  datatype Key =
    | Typed(c: nat)                            // a character or control, but not Escape
    | Alt(c: nat)                              // a character with Alt held
    | Arrow(letter: byte)                      // ESC [ A to D
    | Page(digit: byte)                        // ESC [ 5 ~ and ESC [ 6 ~
    | Mouse(report: seq<byte>, end: byte)      // ESC [ < ... M or m
    | Escape

  /** A printable ASCII character, or one beyond ASCII. */
  predicate Printable(c: nat) {
    IsScalar(c) && 0x20 <= c && c != 0x7f
  }

  predicate ValidKey(k: Key) {
    match k
    case Typed(c) => IsScalar(c) && c != 0x1b
    case Alt(c) => Printable(c) && c != 0x5b
    case Arrow(letter) => 0x41 <= letter <= 0x44
    case Page(digit) => digit == 0x35 || digit == 0x36
    case Mouse(report, end) => (end == 0x4d || end == 0x6d) && 0x4d !in report && 0x6d !in report
    case Escape => true
  }

  /** What the terminal sends for a key. */
  function Sent(k: Key): seq<byte>
    requires ValidKey(k)
  {
    match k
    case Typed(c) => Encode(c)
    case Alt(c) => [0x1b] + Encode(c)
    case Arrow(letter) => [0x1b, 0x5b, letter]
    case Page(digit) => [0x1b, 0x5b, digit, 0x7e]
    case Mouse(report, end) => [0x1b, 0x5b, 0x3c] + report + [end]
    case Escape => [0x1b]
  }

  /** A lone Escape is told from the start of another key only by a control byte, such as another Escape, behind it. */
  predicate Clear(k: Key, rest: seq<byte>) {
    k.Escape? ==> rest != [] && (rest[0] < 0x20 || rest[0] == 0x7f)
  }

  lemma {:induction false} AsciiIsOne(c: nat)
    requires IsScalar(c)
    ensures c < 0x80 ==> Encode(c) == [c]
    ensures 0x80 <= c ==> 0x80 <= Encode(c)[0]
  {
  }

  lemma {:induction false} TypedIsOne(c: nat, rest: seq<byte>)
    requires IsScalar(c) && c != 0x1b
    ensures NextEvent(Encode(c) + rest) == Emit(|Encode(c)|)
  {
    EncodedIsValid(c);
    ValidRuneStays(Encode(c), rest);
    AsciiIsOne(c);
    assert (Encode(c) + rest)[0] == Encode(c)[0];
  }

  lemma {:induction false} AltIsOne(c: nat, rest: seq<byte>)
    requires Printable(c) && c != 0x5b
    ensures NextEvent([0x1b] + Encode(c) + rest) == Emit(1 + |Encode(c)|)
  {
    var p := [0x1b] + Encode(c) + rest;
    EncodedIsValid(c);
    ValidRuneStays(Encode(c), rest);
    AsciiIsOne(c);
    assert p[1..] == Encode(c) + rest && p[1] == Encode(c)[0];
  }

  lemma {:induction false} MouseEndIs(p: seq<byte>, i: nat, end: nat)
    requires i <= end < |p| && IsMouseEnd(p[end]) && forall k :: i <= k < end ==> !IsMouseEnd(p[k])
    ensures MouseEnd(p, i) == end
  {
  }

  lemma {:induction false} MouseIsOne(report: seq<byte>, end: byte, rest: seq<byte>)
    requires ValidKey(Mouse(report, end))
    ensures NextEvent(Sent(Mouse(report, end)) + rest) == Emit(|report| + 4)
  {
    var p := Sent(Mouse(report, end)) + rest;
    assert p[0] == ESC && p[1] == BRACKET && p[2] == LESS;
    assert p[3 + |report|] == end;
    assert forall k :: 3 <= k < 3 + |report| ==> p[k] == report[k - 3];
    MouseEndIs(p, 3, 3 + |report|);
  }

  lemma {:induction false} SpecialIsOne(k: Key, rest: seq<byte>)
    requires ValidKey(k) && (k.Arrow? || k.Page?)
    ensures NextEvent(Sent(k) + rest) == Emit(|Sent(k)|)
  {
    var p := Sent(k) + rest;
    assert forall i :: 0 <= i < |Sent(k)| ==> p[i] == Sent(k)[i];
  }

  /** Whatever follows, a key is the next event, whole. */
  lemma {:induction false} KeyIsNext(k: Key, rest: seq<byte>)
    requires ValidKey(k) && Clear(k, rest)
    ensures NextEvent(Sent(k) + rest) == Emit(|Sent(k)|)
  {
    match k
    case Typed(c) => TypedIsOne(c, rest);
    case Alt(c) => AltIsOne(c, rest);
    case Mouse(report, end) => MouseIsOne(report, end, rest);
    case Escape =>
      assert ([0x1b] + rest)[1] == rest[0];
    case _ => SpecialIsOne(k, rest);
  }

  predicate AllValid(ks: seq<Key>) {
    forall i :: 0 <= i < |ks| ==> ValidKey(ks[i])
  }

  /** One event per key. */
  function Events(ks: seq<Key>): seq<seq<byte>>
    requires AllValid(ks)
  {
    if ks == [] then [] else [Sent(ks[0])] + Events(ks[1..])
  }

  /** Every lone Escape is followed by a key that starts with a control byte. */
  predicate AllClear(ks: seq<Key>)
    requires AllValid(ks)
  {
    ks == [] || (Clear(ks[0], Concat(Events(ks[1..]))) && AllClear(ks[1..]))
  }

  /** What a terminal sends for any keys is taken apart into exactly these keys. */
  lemma {:induction false} KeysComeBack(ks: seq<Key>)
    requires AllValid(ks) && AllClear(ks)
    ensures Drain(Concat(Events(ks))).0 == Events(ks) && Drain(Concat(Events(ks))).1 == []
    decreases |ks|
  {
    if ks != [] {
      var first, rest := Sent(ks[0]), Concat(Events(ks[1..]));
      var p := first + rest;
      assert Events(ks)[0] == first && Events(ks)[1..] == Events(ks[1..]);
      KeyIsNext(ks[0], rest);
      NextProgress(p);
      DrainStep(p, |first|);
      assert p[..|first|] == first && p[|first|..] == rest;
      KeysComeBack(ks[1..]);
    }
  }

  lemma {:induction false} NotHasty(k: Key, rest: seq<byte>)
    requires ValidKey(k) && Clear(k, rest)
    ensures !Hasty(Sent(k) + rest)
  {
    KeyIsNext(k, rest);
    var p := Sent(k) + rest;
    if k.Mouse? {
      assert p[3 + |k.report|] == k.end;
      MouseIsOne(k.report, k.end, rest);
    }
  }

  lemma {:induction false} KeysAreCalm(ks: seq<Key>)
    requires AllValid(ks) && AllClear(ks)
    ensures Calm(Concat(Events(ks)))
    decreases |ks|
  {
    if ks != [] {
      var first, rest := Sent(ks[0]), Concat(Events(ks[1..]));
      assert Events(ks)[0] == first && Events(ks)[1..] == Events(ks[1..]);
      KeyIsNext(ks[0], rest);
      NotHasty(ks[0], rest);
      assert (first + rest)[|first|..] == rest;
      KeysAreCalm(ks[1..]);
    }
  }

  /** So they are after any further read: more input changes nothing about the keys already sent. */
  lemma {:induction false} KeysStay(ks: seq<Key>, more: seq<byte>)
    requires AllValid(ks) && AllClear(ks)
    ensures Drain(Concat(Events(ks)) + more) == (Events(ks) + Drain(more).0, Drain(more).1)
  {
    KeysComeBack(ks);
    KeysAreCalm(ks);
    DrainSplits(Concat(Events(ks)), more);
    assert [] + more == more;
  }

  // ---------------------------------------------------------------- keys that have arrived in part

  lemma {:induction false} PartOfRune(r: seq<byte>, n: nat)
    requires ValidRune(r) && RuneSize(r) == |r| && n < |r|
    ensures !FullRune(r[..n])
  {
    assert forall i :: 0 <= i < n ==> r[..n][i] == r[i];
  }

  lemma {:induction false} PartOfAlt(c: nat, n: nat)
    requires Printable(c) && c != 0x5b && 0 < n < 1 + |Encode(c)|
    ensures NextEvent(([0x1b] + Encode(c))[..n]).Wait?
  {
    var p := ([0x1b] + Encode(c))[..n];
    EncodedIsValid(c);
    AsciiIsOne(c);
    if 1 < n {
      assert p[1..] == Encode(c)[..n - 1] && p[1] == Encode(c)[0];
      PartOfRune(Encode(c), n - 1);
    }
  }

  lemma {:induction false} PartOfMouse(report: seq<byte>, end: byte, n: nat)
    requires ValidKey(Mouse(report, end)) && 0 < n < |report| + 4
    ensures NextEvent(Sent(Mouse(report, end))[..n]).Wait? <==> !Hasty(Sent(Mouse(report, end))[..n])
  {
    var whole := Sent(Mouse(report, end));
    var p := whole[..n];
    assert forall i :: 0 <= i < n ==> p[i] == whole[i];
    if 4 <= n {
      assert forall i :: 3 <= i < n ==> whole[i] == report[i - 3];
      assert MouseEnd(p, 3) == n;
    }
  }

  /** A key that has arrived in part waits for the rest; the only exceptions are the two hasty decisions. */
  lemma {:induction false} PartOfKeyWaits(k: Key, n: nat)
    requires ValidKey(k) && 0 < n < |Sent(k)|
    ensures NextEvent(Sent(k)[..n]).Wait? <==> !Hasty(Sent(k)[..n])
  {
    var p := Sent(k)[..n];
    assert p[0] == Sent(k)[0];
    match k
    case Typed(c) =>
      EncodedIsValid(c);
      AsciiIsOne(c);
      PartOfRune(Encode(c), n);
    case Alt(c) =>
      PartOfAlt(c, n);
    case Mouse(report, end) =>
      PartOfMouse(report, end, n);
    case Arrow(_) =>
      assert forall i :: 0 <= i < n ==> p[i] == Sent(k)[i];
    case Page(_) =>
      assert forall i :: 0 <= i < n ==> p[i] == Sent(k)[i];
    case Escape =>
  }
}
