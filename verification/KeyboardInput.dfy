/**
 The incremental keyboard tokenizer (cmd/ducklord/main.go): bytes read from the terminal are
 appended to `pending`, and complete input events are split off its front.

 Control sequences start with CSI, ESC [ (section 5.4 of ECMA-48).
 */
module KeyboardInput {
  import opened Basics
  import opened Utf8

  const ESC: byte := 0x1b
  const BRACKET: byte := 0x5b    // [
  const LESS: byte := 0x3c       // <

  /** Either more bytes are needed, or the first `size` bytes are the next event. */
  datatype Next = Wait | Emit(size: nat)

  predicate IsMouse(p: seq<byte>) {
    4 <= |p| && p[0] == ESC && p[1] == BRACKET && p[2] == LESS
  }

  predicate IsMouseEnd(b: byte) {
    b == 0x4d || b == 0x6d       // M or m
  }

  /** The first end of a mouse report at or after i, or |p|. */
  function MouseEnd(p: seq<byte>, i: nat): (j: nat)
    requires i <= |p|
    ensures i <= j <= |p|
    ensures forall k :: i <= k < j ==> !IsMouseEnd(p[k])
    ensures j < |p| ==> IsMouseEnd(p[j])
    decreases |p| - i
  {
    if i == |p| || IsMouseEnd(p[i]) then i else MouseEnd(p, i + 1)
  }

  function NextEscape(p: seq<byte>): Next
    requires p != [] && p[0] == ESC
  {
    if |p| == 1 || (|p| == 2 && p[1] == BRACKET) then Wait
    else if 3 <= |p| && p[1] == BRACKET && 0x41 <= p[2] <= 0x44 then Emit(3)                      // A..D
    else if 3 == |p| && p[1] == BRACKET && (p[2] == 0x35 || p[2] == 0x36) then Wait               // 5, 6
    else if 3 < |p| && p[1] == BRACKET && (p[2] == 0x35 || p[2] == 0x36) && p[3] == 0x7e then Emit(4)
    else if IsMouse(p) then
      var end := MouseEnd(p, 3);
      if end < |p| then Emit(end + 1) else if 64 < |p| then Emit(|p|) else Wait
    else if p[1] != BRACKET then
      if p[1] < 0x80 then (if p[1] < 0x20 || p[1] == 0x7f then Emit(1) else Emit(2))
      else if !FullRune(p[1..]) then Wait
      else Emit(1 + RuneSize(p[1..]))
    else Emit(1)
  }

  /** What nextInputEvent decides about the pending bytes. */
  function NextEvent(p: seq<byte>): Next {
    if p == [] then Wait
    else if p[0] == ESC then NextEscape(p)
    else if p[0] < 0x80 then Emit(1)
    else if !FullRune(p) then Wait
    else Emit(RuneSize(p))
  }

  /** The scan of nextInputEvent: the event and the rest conserve the bytes. */
  method TakeEvent(pending: seq<byte>) returns (event: seq<byte>, rest: seq<byte>, ok: bool)
    ensures ok <==> NextEvent(pending).Emit?
    ensures event + rest == pending
    ensures ok ==> |event| == NextEvent(pending).size
    ensures !ok ==> rest == pending
  {
    if IsMouse(pending) {
      var i := 3;
      while i < |pending|
        invariant 3 <= i <= |pending|
        invariant MouseEnd(pending, 3) == MouseEnd(pending, i)
      {
        if IsMouseEnd(pending[i]) {
          return pending[..i + 1], pending[i + 1..], true;
        }
        i := i + 1;
      }
      if 64 < |pending| {
        return pending, [], true;
      }
      return [], pending, false;
    }
    var next := NextEvent(pending);
    NextProgress(pending);
    match next
    case Wait => return [], pending, false;
    case Emit(n) => return pending[..n], pending[n..], true;
  }

  /** Every event takes at least one byte that is there, and little is withheld: one or two bytes of
      an escape, three of an encoding, or at most 64 of a mouse report. */
  lemma {:induction false} NextProgress(p: seq<byte>)
    ensures NextEvent(p).Emit? ==> 1 <= NextEvent(p).size <= |p|
    ensures NextEvent(p).Wait? ==> |p| <= 64
  {
  }

  /** The decisions that later input can overturn: the bare mouse prefix and an overlong report. */
  predicate Hasty(p: seq<byte>) {
    || p == [ESC, BRACKET, LESS]
    || (IsMouse(p) && 64 < |p| && MouseEnd(p, 3) == |p|)
  }

  lemma {:induction false} MouseEndStable(p: seq<byte>, q: seq<byte>, i: nat)
    requires i <= |p| && MouseEnd(p, i) < |p|
    ensures MouseEnd(p + q, i) == MouseEnd(p, i)
    decreases |p| - i
  {
    if !IsMouseEnd(p[i]) {
      MouseEndStable(p, q, i + 1);
    }
  }

  /** An event that is not hasty is the same event however much input follows. */
  lemma {:induction false} NextStable(p: seq<byte>, q: seq<byte>)
    requires NextEvent(p).Emit? && !Hasty(p)
    ensures NextEvent(p + q) == NextEvent(p)
  {
    var r := p + q;
    assert forall i :: 0 <= i < |p| ==> r[i] == p[i];
    if p[0] != ESC {
      if 0x80 <= p[0] {
        FullRuneStable(p, q);
      }
    } else if IsMouse(p) {
      MouseEndStable(p, q, 3);
    } else if 1 < |p| && p[1] != BRACKET && 0x80 <= p[1] {
      assert r[1..] == p[1..] + q;
      FullRuneStable(p[1..], q);
    }
    assert |p| == 3 && p[1] == BRACKET && p[2] == LESS && p[0] == ESC ==> p == [ESC, BRACKET, LESS];
  }

  /** The two exceptions are real: for a hasty decision there is a continuation that changes it. */
  lemma {:induction false} HastyIsUnstable(p: seq<byte>)
    requires Hasty(p)
    ensures NextEvent(p).Emit? && NextEvent(p + [0x4d]) != NextEvent(p)
  {
  }

  /** Exactly the hasty decisions depend on input that has not arrived. */
  lemma {:induction false} StableIffNotHasty(p: seq<byte>)
    requires NextEvent(p).Emit?
    ensures (forall q: seq<byte> :: NextEvent(p + q) == NextEvent(p)) <==> !Hasty(p)
  {
    if Hasty(p) {
      HastyIsUnstable(p);
    } else {
      forall q: seq<byte>
        ensures NextEvent(p + q) == NextEvent(p)
      {
        NextStable(p, q);
      }
    }
  }

  // ---------------------------------------------------------------- feeding chunks

  /** The reader's inner loop: all the events at the front of the pending bytes, and what stays pending. */
  function Drain(p: seq<byte>): (seq<seq<byte>>, seq<byte>)
    decreases |p|
  {
    NextProgress(p);
    match NextEvent(p)
    case Wait => ([], p)
    case Emit(n) =>
      var (events, rest) := Drain(p[n..]);
      ([p[..n]] + events, rest)
  }

  lemma {:induction false} DrainConserves(p: seq<byte>)
    ensures Concat(Drain(p).0) + Drain(p).1 == p
    ensures |Drain(p).1| <= 64
    decreases |p|
  {
    NextProgress(p);
    match NextEvent(p)
    case Wait =>
    case Emit(n) =>
      DrainConserves(p[n..]);
      DrainStep(p, n);
      ConserveStep(p, n, Drain(p[n..]).0, Drain(p[n..]).1);
  }

  lemma {:induction false} ConserveStep(p: seq<byte>, n: nat, events: seq<seq<byte>>, rest: seq<byte>)
    requires n <= |p| && Concat(events) + rest == p[n..]
    ensures Concat([p[..n]] + events) + rest == p
  {
  }

  /** No decision of the inner loop is hasty. */
  predicate Calm(p: seq<byte>)
    decreases |p|
  {
    NextProgress(p);
    match NextEvent(p)
    case Wait => true
    case Emit(n) => !Hasty(p) && Calm(p[n..])
  }

  /** Feeds the reads one after the other. */
  function Feed(pending: seq<byte>, parts: seq<seq<byte>>): (seq<seq<byte>>, seq<byte>)
    decreases |parts|
  {
    if parts == [] then ([], pending)
    else
      var (events, rest) := Drain(pending + parts[0]);
      var (more, last) := Feed(rest, parts[1..]);
      (events + more, last)
  }

  predicate CalmFeed(pending: seq<byte>, parts: seq<seq<byte>>)
    decreases |parts|
  {
    parts == [] || (Calm(pending + parts[0]) && CalmFeed(Drain(pending + parts[0]).1, parts[1..]))
  }

  lemma {:induction false} DrainStep(p: seq<byte>, n: nat)
    requires NextEvent(p) == Emit(n) && 1 <= n <= |p|
    ensures Drain(p) == ([p[..n]] + Drain(p[n..]).0, Drain(p[n..]).1)
  {
  }

  lemma {:induction false} DrainWait(p: seq<byte>, q: seq<byte>)
    requires Drain(p) == ([], p)
    ensures Drain(p + q) == (Drain(p).0 + Drain(Drain(p).1 + q).0, Drain(Drain(p).1 + q).1)
  {
    var e := Drain(p + q).0;
    assert [] + e == e;
  }

  lemma {:induction false} SplitStep(p: seq<byte>, q: seq<byte>, n: nat)
    requires 1 <= n <= |p|
    requires Drain(p) == ([p[..n]] + Drain(p[n..]).0, Drain(p[n..]).1)
    requires Drain(p + q) == ([p[..n]] + Drain(p[n..] + q).0, Drain(p[n..] + q).1)
    requires Drain(p[n..] + q) == (Drain(p[n..]).0 + Drain(Drain(p[n..]).1 + q).0, Drain(Drain(p[n..]).1 + q).1)
    ensures Drain(p + q) == (Drain(p).0 + Drain(Drain(p).1 + q).0, Drain(Drain(p).1 + q).1)
  {
    Assoc([p[..n]], Drain(p[n..]).0, Drain(Drain(p).1 + q).0);
  }

  lemma {:induction false} StepAgain(p: seq<byte>, q: seq<byte>, n: nat)
    requires NextEvent(p) == Emit(n) && !Hasty(p) && 1 <= n <= |p|
    ensures Drain(p + q) == ([p[..n]] + Drain(p[n..] + q).0, Drain(p[n..] + q).1)
  {
    NextStable(p, q);
    assert (p + q)[..n] == p[..n] && (p + q)[n..] == p[n..] + q;
    DrainStep(p + q, n);
  }

  /** Reading on after a calm drain is the same as having read everything at once. */
  lemma {:induction false} DrainSplits(p: seq<byte>, q: seq<byte>)
    requires Calm(p)
    ensures Drain(p + q) == (Drain(p).0 + Drain(Drain(p).1 + q).0, Drain(Drain(p).1 + q).1)
    decreases |p|
  {
    NextProgress(p);
    match NextEvent(p)
    case Wait =>
      DrainWait(p, q);
    case Emit(n) =>
      DrainStep(p, n);
      StepAgain(p, q, n);
      DrainSplits(p[n..], q);
      SplitStep(p, q, n);
  }

  lemma {:induction false} DrainIdle(p: seq<byte>)
    ensures NextEvent(Drain(p).1).Wait?
    decreases |p|
  {
    NextProgress(p);
    if NextEvent(p).Emit? {
      DrainIdle(p[NextEvent(p).size..]);
    }
  }

  /** Absent hasty decisions, the events do not depend on how the input was read. */
  lemma {:induction false} FeedIsDrain(pending: seq<byte>, parts: seq<seq<byte>>)
    requires NextEvent(pending).Wait? && CalmFeed(pending, parts)
    ensures Feed(pending, parts) == Drain(pending + Concat(parts))
    decreases |parts|
  {
    if parts == [] {
      assert pending + Concat(parts) == pending;
    } else {
      var p := pending + parts[0];
      var (events, rest) := Drain(p);
      DrainIdle(p);
      FeedIsDrain(rest, parts[1..]);
      DrainSplits(p, Concat(parts[1..]));
      Assoc(pending, parts[0], Concat(parts[1..]));
    }
  }

  lemma {:induction false} RechunkingIsInvisible(parts1: seq<seq<byte>>, parts2: seq<seq<byte>>)
    requires Concat(parts1) == Concat(parts2) && CalmFeed([], parts1) && CalmFeed([], parts2)
    ensures Feed([], parts1) == Feed([], parts2)
  {
    FeedIsDrain([], parts1);
    FeedIsDrain([], parts2);
  }

  /** Nothing is lost or reordered, whatever the reads and decisions were. */
  lemma {:induction false} FeedConserves(pending: seq<byte>, parts: seq<seq<byte>>)
    ensures var (events, rest) := Feed(pending, parts);
            Concat(events) + rest == pending + Concat(parts)
    decreases |parts|
  {
    if parts != [] {
      var (events, rest) := Drain(pending + parts[0]);
      var (more, last) := Feed(rest, parts[1..]);
      FeedConserves(rest, parts[1..]);
      DrainConserves(pending + parts[0]);
      ConcatAppend(events, more);
      Assoc(pending, parts[0], Concat(parts[1..]));
      Assoc(Concat(events), Concat(more), last);
      Assoc(Concat(events), rest, Concat(parts[1..]));
    }
  }

  // ---------------------------------------------------------------- a condition on the input alone

  /** The input holds no mouse report prefix. */
  ghost predicate NoMouse(p: seq<byte>) {
    forall i :: 0 <= i && i + 2 < |p| ==> !(p[i] == ESC && p[i + 1] == BRACKET && p[i + 2] == LESS)
  }

  lemma {:induction false} NoMouseIsCalm(p: seq<byte>)
    requires NoMouse(p)
    ensures Calm(p)
    decreases |p|
  {
    NextProgress(p);
    match NextEvent(p)
    case Wait =>
    case Emit(n) =>
      if 3 <= |p| {
        assert !(p[0] == ESC && p[0 + 1] == BRACKET && p[0 + 2] == LESS);
      }
      NoMouseIsCalm(p[n..]);
  }

  /** No mouse report prefix is followed by another byte. */
  ghost predicate NoMouseInside(p: seq<byte>) {
    forall i :: 0 <= i && i + 3 < |p| ==> !(p[i] == ESC && p[i + 1] == BRACKET && p[i + 2] == LESS)
  }

  lemma {:induction false} NoMouseInFront(a: seq<byte>, b: seq<byte>)
    requires NoMouseInside(a + b) && b != []
    ensures NoMouse(a)
  {
    var r := a + b;
    forall i | 0 <= i && i + 2 < |a|
      ensures !(a[i] == ESC && a[i + 1] == BRACKET && a[i + 2] == LESS)
    {
      assert r[i] == a[i] && r[i + 1] == a[i + 1] && r[i + 2] == a[i + 2];
    }
  }

  lemma {:induction false} NoMouseInsideSuffix(a: seq<byte>, b: seq<byte>)
    requires NoMouseInside(a + b)
    ensures NoMouseInside(b)
  {
    var r := a + b;
    forall i | 0 <= i && i + 3 < |b|
      ensures !(b[i] == ESC && b[i + 1] == BRACKET && b[i + 2] == LESS)
    {
      var k := |a| + i;
      assert r[k] == b[i] && r[k + 1] == b[i + 1] && r[k + 2] == b[i + 2];
    }
  }

  lemma {:induction false} FeedNothing(pending: seq<byte>, parts: seq<seq<byte>>)
    requires NextEvent(pending).Wait? && Concat(parts) == []
    ensures Feed(pending, parts) == ([], pending)
    decreases |parts|
  {
    if parts != [] {
      assert pending + parts[0] == pending;
      FeedNothing(pending, parts[1..]);
    }
  }

  lemma {:induction false} FeedOne(pending: seq<byte>, parts: seq<seq<byte>>)
    requires parts != []
    ensures var (events, rest) := Drain(pending + parts[0]);
            Feed(pending, parts) == (events + Feed(rest, parts[1..]).0, Feed(rest, parts[1..]).1)
  {
  }

  /** What remains of a calm read, followed by the rest, still holds no mouse prefix inside. */
  lemma {:induction false} InsideAfterDrain(p: seq<byte>, q: seq<byte>)
    requires NoMouseInside(p + q)
    ensures NoMouseInside(Drain(p).1 + q)
  {
    var (events, rest) := Drain(p);
    DrainConserves(p);
    Assoc(Concat(events), rest, q);
    NoMouseInsideSuffix(Concat(events), rest + q);
  }

  lemma {:induction false} FeedWithoutMouse(pending: seq<byte>, parts: seq<seq<byte>>)
    requires NextEvent(pending).Wait? && NoMouseInside(pending + Concat(parts))
    ensures Feed(pending, parts) == Drain(pending + Concat(parts))
    decreases |parts|
  {
    if parts == [] {
      assert pending + Concat(parts) == pending;
    } else {
      var p, q := pending + parts[0], Concat(parts[1..]);
      Assoc(pending, parts[0], q);
      DrainIdle(p);
      FeedOne(pending, parts);
      if q == [] {
        FeedNothing(Drain(p).1, parts[1..]);
        assert p + q == p && Drain(p).0 + [] == Drain(p).0;
      } else {
        NoMouseInFront(p, q);
        NoMouseIsCalm(p);
        InsideAfterDrain(p, q);
        FeedWithoutMouse(Drain(p).1, parts[1..]);
        DrainSplits(p, q);
      }
    }
  }

  /** For every input in which no mouse prefix is followed by another byte, the events are a function of the
      bytes alone. */
  lemma {:induction false} PlainInputIgnoresChunking(parts: seq<seq<byte>>)
    requires NoMouseInside(Concat(parts))
    ensures Feed([], parts) == Drain(Concat(parts))
  {
    assert [] + Concat(parts) == Concat(parts);
    FeedWithoutMouse([], parts);
  }

  // ---------------------------------------------------------------- and only then

  const PREFIX: seq<byte> := [ESC, BRACKET, LESS]

  /** `a` is followed by a mouse prefix, and no mouse prefix starts earlier. */
  ghost predicate FirstMouse(a: seq<byte>) {
    forall i :: 0 <= i < |a| ==> !(PREFIX <= (a + PREFIX)[i..])
  }

  /** In front of the first mouse prefix every decision takes bytes in front of it and is not hasty. */
  lemma {:induction false} FrontStep(a: seq<byte>)
    requires a != [] && FirstMouse(a)
    ensures var p := a + PREFIX; NextEvent(p).Emit? && 1 <= NextEvent(p).size <= |a| && !Hasty(p)
  {
    var p := a + PREFIX;
    assert p[|a|] == ESC && p[|a| + 1] == BRACKET && p[|a| + 2] == LESS;
    assert p[0..] == p;
    assert !(PREFIX <= p);
    if 1 < |a| {
      var q := p[1..];
      assert q[|a| - 1] == ESC;
    }
  }

  lemma {:induction false} FirstMouseLater(a: seq<byte>, n: nat)
    requires FirstMouse(a) && n <= |a|
    ensures FirstMouse(a[n..])
  {
    forall i | 0 <= i < |a[n..]|
      ensures !(PREFIX <= (a[n..] + PREFIX)[i..])
    {
      assert (a[n..] + PREFIX)[i..] == (a + PREFIX)[n + i..];
    }
  }

  /** The events in front of the first mouse prefix. */
  ghost function Front(a: seq<byte>): seq<seq<byte>>
    requires FirstMouse(a)
    decreases |a|
  {
    if a == [] then []
    else
      FrontStep(a);
      var n := NextEvent(a + PREFIX).size;
      FirstMouseLater(a, n);
      [a[..n]] + Front(a[n..])
  }

  lemma {:induction false} FrontDrains(a: seq<byte>, rest: seq<byte>)
    requires FirstMouse(a)
    ensures Drain(a + PREFIX + rest) == (Front(a) + Drain(PREFIX + rest).0, Drain(PREFIX + rest).1)
    decreases |a|
  {
    var t := PREFIX + rest;
    Assoc(a, PREFIX, rest);
    if a == [] {
      assert a + t == t;
      assert Front(a) + Drain(t).0 == Drain(t).0;
    } else {
      FrontStep(a);
      var n := NextEvent(a + PREFIX).size;
      FirstMouseLater(a, n);
      DrainInFront(a, rest, n);
      FrontDrains(a[n..], rest);
      Assoc(a[n..], PREFIX, rest);
      Assoc([a[..n]], Front(a[n..]), Drain(t).0);
    }
  }

  lemma {:induction false} DrainInFront(a: seq<byte>, rest: seq<byte>, n: nat)
    requires NextEvent(a + PREFIX) == Emit(n) && !Hasty(a + PREFIX) && 1 <= n <= |a|
    ensures var t := PREFIX + rest; Drain(a + t) == ([a[..n]] + Drain(a[n..] + t).0, Drain(a[n..] + t).1)
  {
    var t := PREFIX + rest;
    Assoc(a, PREFIX, rest);
    NextStable(a + PREFIX, rest);
    DrainStep(a + t, n);
    assert (a + t)[..n] == a[..n] && (a + t)[n..] == a[n..] + t;
  }

  /** Read up to its end, the prefix is taken apart byte by byte. */
  lemma {:induction false} PrefixAlone()
    ensures Drain(PREFIX).0 == [[ESC], [BRACKET], [LESS]] && Drain(PREFIX).1 == []
  {
    var p: seq<byte>, q: seq<byte> := [BRACKET, LESS], [LESS];
    assert q[..1] == q && q[1..] == [];
    DrainStep(q, 1);
    assert Drain(q).0 == [q] && Drain(q).1 == [];
    assert p[..1] == [BRACKET] && p[1..] == q;
    DrainStep(p, 1);
    assert Drain(p).0 == [[BRACKET], q] && Drain(p).1 == [];
    assert PREFIX[..1] == [ESC] && PREFIX[1..] == p;
    DrainStep(PREFIX, 1);
  }

  /** Read together with the byte behind it, the prefix never gives a single escape. */
  lemma {:induction false} PrefixFollowed(rest: seq<byte>)
    requires rest != []
    ensures var events := Drain(PREFIX + rest).0; events == [] || events[0] != [ESC]
  {
    var t := PREFIX + rest;
    assert t[0] == ESC && t[1] == BRACKET && t[2] == LESS;
    NextProgress(t);
    if NextEvent(t).Emit? {
      DrainStep(t, NextEvent(t).size);
      assert 3 < NextEvent(t).size;
    }
  }

  /** Cutting the input right behind its first mouse prefix changes the events. */
  lemma {:induction false} SplitBehindPrefix(a: seq<byte>, rest: seq<byte>)
    requires FirstMouse(a) && rest != []
    ensures Feed([], [a + PREFIX, rest]) != Drain(a + PREFIX + rest)
  {
    var parts := [a + PREFIX, rest];
    assert parts[1..] == [rest];
    assert [] + parts[0] == a + PREFIX;
    FeedOne([], parts);
    FrontDrains(a, []);
    assert a + PREFIX + [] == a + PREFIX && PREFIX + [] == PREFIX;
    PrefixAlone();
    FrontDrains(a, rest);
    PrefixFollowed(rest);
    var cut, whole := Feed([], parts).0, Drain(a + PREFIX + rest).0;
    assert cut[|Front(a)|] == [ESC];
    assert |Front(a)| < |whole| ==> whole[|Front(a)|] == Drain(PREFIX + rest).0[0];
  }

  /** The first mouse prefix of an input that has one. */
  lemma {:induction false} FindFirstMouse(p: seq<byte>, i: nat) returns (a: seq<byte>, rest: seq<byte>)
    requires i + 2 < |p| && p[i] == ESC && p[i + 1] == BRACKET && p[i + 2] == LESS
    ensures FirstMouse(a) && p == a + PREFIX + rest && |a| <= i
    decreases i
  {
    a, rest := p[..i], p[i + 3..];
    assert p == a + PREFIX + rest;
    if !FirstMouse(a) {
      var j :| 0 <= j < |a| && PREFIX <= (a + PREFIX)[j..];
      assert (a + PREFIX)[j..][..3] == PREFIX;
      assert p[j] == PREFIX[0] && p[j + 1] == PREFIX[1] && p[j + 2] == PREFIX[2];
      a, rest := FindFirstMouse(p, j);
    }
  }

  lemma {:induction false} ConcatTwo(a: seq<byte>, b: seq<byte>)
    ensures Concat([a, b]) == a + b
  {
    var parts := [a, b];
    assert parts[1..] == [b] && Concat([b]) == b;
  }

  /** The events are the same for every way to read the input exactly when no mouse prefix in it is followed by
      another byte. */
  lemma {:induction false} ChunkingIsInvisibleIff(p: seq<byte>)
    ensures (forall parts: seq<seq<byte>> :: Concat(parts) == p ==> Feed([], parts) == Drain(p)) <==> NoMouseInside(p)
  {
    if NoMouseInside(p) {
      forall parts: seq<seq<byte>> | Concat(parts) == p
        ensures Feed([], parts) == Drain(p)
      {
        PlainInputIgnoresChunking(parts);
      }
    } else {
      var i :| 0 <= i && i + 3 < |p| && p[i] == ESC && p[i + 1] == BRACKET && p[i + 2] == LESS;
      var a, rest := FindFirstMouse(p, i);
      SplitBehindPrefix(a, rest);
      var parts := [a + PREFIX, rest];
      ConcatTwo(a + PREFIX, rest);
      assert Concat(parts) == p;
    }
  }
}
