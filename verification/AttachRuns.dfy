/**
 What every run of the attach event loop keeps: the framebuffer log is a function of the
 received bytes and of the barriers alone, never of how the stream was cut into reads.
 */
module AttachRuns {
  import opened Basics
  import opened AttachOutput

  // ---------------------------------------------------------------- the reference log

  /** The log a viewer should see: `bytes`, which start at offset `base`, with every resize
      of `marks` performed as soon as the offset reaches its barrier. */
  function Weave(base: nat, bytes: seq<byte>, marks: seq<Mark>): seq<Op>
    decreases |marks| + |bytes|
  {
    if marks != [] && marks[0].barrier <= base then [ResizeOp(marks[0])] + Weave(base, bytes, marks[1..])
    else if bytes == [] then []
    else [Put(bytes[0])] + Weave(base + 1, bytes[1..], marks)
  }

  function Due(marks: seq<Mark>, offset: nat): seq<Mark> {
    if marks == [] then []
    else if marks[0].barrier <= offset then [marks[0]] + Due(marks[1..], offset)
    else Due(marks[1..], offset)
  }

  /** The bytes of the chunks that pass the continuity test, in order, up to the end of the attach. */
  function Accepted(generation: nat, offset: nat, cs: seq<Chunk>): seq<byte>
    decreases |cs|
  {
    if cs == [] || cs[0].done then []
    else if Continuous(generation, offset, cs[0])
    then cs[0].text + Accepted(generation, offset + |cs[0].text|, cs[1..])
    else Accepted(generation, offset, cs[1..])
  }

  /** What the reader guarantees: non-empty reads of one generation whose offsets never go back. */
  ghost predicate Stream(id: nat, generation: nat, from: nat, cs: seq<Chunk>)
    decreases |cs|
  {
    cs == [] ||
    (cs[0].id == id &&
     (cs[0].done ||
      (&& cs[0].generation == generation
       && 0 < |cs[0].text|
       && cs[0].end == cs[0].start + |cs[0].text|
       && from <= cs[0].start
       && Stream(id, generation, cs[0].end, cs[1..]))))
  }

  /** The offset after the last chunk, whether or not it was applied. */
  ghost function Frontier(from: nat, cs: seq<Chunk>): nat {
    if cs == [] then from else cs[|cs| - 1].end
  }

  ghost predicate Unfinished(cs: seq<Chunk>) {
    forall i :: 0 <= i < |cs| ==> !cs[i].done
  }

  // ---------------------------------------------------------------- facts about the reference log

  lemma {:induction false} WeavePlain(base: nat, bytes: seq<byte>)
    ensures Weave(base, bytes, []) == Puts(bytes)
    decreases |bytes|
  {
    if bytes != [] {
      WeavePlain(base + 1, bytes[1..]);
      assert Puts(bytes) == [Put(bytes[0])] + Puts(bytes[1..]);
    }
  }

  lemma {:induction false} WeaveMoreBytes(base: nat, bytes: seq<byte>, more: seq<byte>, marks: seq<Mark>)
    requires forall i :: 0 <= i < |marks| ==> marks[i].barrier <= base + |bytes|
    ensures Weave(base, bytes + more, marks) == Weave(base, bytes, marks) + Puts(more)
    decreases |marks| + |bytes|
  {
    if marks != [] && marks[0].barrier <= base {
      WeaveMoreBytes(base, bytes, more, marks[1..]);
      Assoc([ResizeOp(marks[0])], Weave(base, bytes, marks[1..]), Puts(more));
    } else if bytes == [] {
      assert bytes + more == more;
      WeavePlain(base, more);
    } else {
      WeaveMoreBytes(base + 1, bytes[1..], more, marks);
      assert (bytes + more)[1..] == bytes[1..] + more;
      Assoc([Put(bytes[0])], Weave(base + 1, bytes[1..], marks), Puts(more));
    }
  }

  lemma {:induction false} WeaveMoreMarks(base: nat, bytes: seq<byte>, marks: seq<Mark>, m: Mark)
    requires forall i :: 0 <= i < |marks| ==> marks[i].barrier <= base + |bytes|
    requires base + |bytes| == m.barrier
    ensures Weave(base, bytes, marks + [m]) == Weave(base, bytes, marks) + [ResizeOp(m)]
    decreases |marks| + |bytes|
  {
    var more := marks + [m];
    if marks != [] && marks[0].barrier <= base {
      assert more[1..] == marks[1..] + [m];
      WeaveMoreMarks(base, bytes, marks[1..], m);
      Assoc([ResizeOp(marks[0])], Weave(base, bytes, marks[1..]), [ResizeOp(m)]);
    } else if bytes == [] {
      assert marks == [];
      assert more[1..] == [];
      assert Weave(base, bytes, []) == [];
      assert Weave(base, bytes, more) == [ResizeOp(m)] + [];
    } else {
      WeaveMoreMarks(base + 1, bytes[1..], marks, m);
      Assoc([Put(bytes[0])], Weave(base + 1, bytes[1..], marks), [ResizeOp(m)]);
    }
  }

  ghost predicate Ordered(base: nat, marks: seq<Mark>, limit: nat) {
    && (forall i :: 0 <= i < |marks| ==> base <= marks[i].barrier <= limit)
    && (forall i, j :: 0 <= i < j < |marks| ==> marks[i].barrier <= marks[j].barrier)
  }

  ghost function Bytes(ops: seq<Op>): seq<byte> {
    if ops == [] then [] else (if ops[0].Put? then [ops[0].b] else []) + Bytes(ops[1..])
  }

  lemma {:induction false} BytesConcat(a: seq<Op>, b: seq<Op>)
    ensures Bytes(a + b) == Bytes(a) + Bytes(b)
  {
    if a == [] {
      assert a + b == b;
    } else {
      BytesConcat(a[1..], b);
      assert (a + b)[0] == a[0] && (a + b)[1..] == a[1..] + b;
      Assoc(if a[0].Put? then [a[0].b] else [], Bytes(a[1..]), Bytes(b));
    }
  }

  /** The reference log holds every byte once and in order. */
  lemma {:induction false} WeaveBytes(base: nat, bytes: seq<byte>, marks: seq<Mark>)
    ensures Bytes(Weave(base, bytes, marks)) == bytes
    decreases |marks| + |bytes|
  {
    if marks != [] && marks[0].barrier <= base {
      WeaveBytes(base, bytes, marks[1..]);
      BytesConcat([ResizeOp(marks[0])], Weave(base, bytes, marks[1..]));
    } else if bytes != [] {
      WeaveBytes(base + 1, bytes[1..], marks);
      BytesConcat([Put(bytes[0])], Weave(base + 1, bytes[1..], marks));
    }
  }

  /** A resize parts the reference log at its barrier. */
  lemma {:induction false} WeaveParts(base: nat, left: seq<byte>, right: seq<byte>, marks: seq<Mark>, m: Mark,
                                      rest: seq<Mark>)
    requires forall i :: 0 <= i < |marks| ==> marks[i].barrier <= base + |left|
    requires m.barrier == base + |left|
    ensures Weave(base, left + right, marks + ([m] + rest))
         == Weave(base, left, marks) + ([ResizeOp(m)] + Weave(base + |left|, right, rest))
    decreases |marks| + |left|
  {
    var more, log := [m] + rest, [ResizeOp(m)] + Weave(base + |left|, right, rest);
    if marks != [] && marks[0].barrier <= base {
      assert (marks + more)[0] == marks[0] && (marks + more)[1..] == marks[1..] + more;
      WeaveParts(base, left, right, marks[1..], m, rest);
      Assoc([ResizeOp(marks[0])], Weave(base, left, marks[1..]), log);
    } else if left == [] {
      assert marks == [] && marks + more == more && more[1..] == rest && left + right == right;
      assert [] + log == log;
    } else {
      assert (marks + more)[0] == (if marks == [] then m else marks[0]);
      assert (left + right)[0] == left[0] && (left + right)[1..] == left[1..] + right;
      WeaveParts(base + 1, left[1..], right, marks, m, rest);
      Assoc([Put(left[0])], Weave(base + 1, left[1..], marks), log);
    }
  }

  lemma {:induction false} DueAppend(marks: seq<Mark>, m: Mark, offset: nat)
    ensures Due(marks + [m], offset) == Due(marks, offset) + (if m.barrier <= offset then [m] else [])
  {
    if marks == [] {
      assert marks + [m] == [m] && [m][1..] == [];
    } else {
      DueAppend(marks[1..], m, offset);
      assert (marks + [m])[1..] == marks[1..] + [m];
    }
  }

  lemma {:induction false} DueAll(marks: seq<Mark>, offset: nat)
    requires forall i :: 0 <= i < |marks| ==> marks[i].barrier <= offset
    ensures Due(marks, offset) == marks
  {
    if marks != [] {
      DueAll(marks[1..], offset);
    }
  }

  lemma {:induction false} DueBounded(marks: seq<Mark>, offset: nat)
    ensures forall i :: 0 <= i < |Due(marks, offset)| ==> Due(marks, offset)[i].barrier <= offset
    ensures forall m :: m in Due(marks, offset) ==> m in marks
  {
    if marks != [] {
      DueBounded(marks[1..], offset);
    }
  }

  // ---------------------------------------------------------------- facts about the stream

  lemma {:induction false} AcceptedConcat(generation: nat, offset: nat, a: seq<Chunk>, b: seq<Chunk>)
    requires Unfinished(a)
    ensures Accepted(generation, offset, a + b)
         == Accepted(generation, offset, a)
            + Accepted(generation, offset + |Accepted(generation, offset, a)|, b)
    decreases |a|
  {
    if a == [] {
      assert a + b == b;
    } else {
      assert (a + b)[0] == a[0] && (a + b)[1..] == a[1..] + b;
      if Continuous(generation, offset, a[0]) {
        AcceptedConcat(generation, offset + |a[0].text|, a[1..], b);
      } else {
        AcceptedConcat(generation, offset, a[1..], b);
      }
    }
  }

  lemma {:induction false} AcceptedDone(generation: nat, offset: nat, a: seq<Chunk>, b: seq<Chunk>)
    requires Unfinished(a) && b != [] && b[0].done
    ensures Accepted(generation, offset, a + b) == Accepted(generation, offset, a)
  {
    AcceptedConcat(generation, offset, a, b);
  }

  lemma {:induction false} StreamPrefix(id: nat, generation: nat, from: nat, a: seq<Chunk>, c: Chunk, rest: seq<Chunk>)
    requires Unfinished(a) && Stream(id, generation, from, a + [c] + rest)
    ensures c.id == id
    ensures !c.done ==> && c.generation == generation && 0 < |c.text| && c.end == c.start + |c.text|
                        && Frontier(from, a) <= c.start
    decreases |a|
  {
    var all := a + [c] + rest;
    if a != [] {
      assert all[0] == a[0] && all[1..] == a[1..] + [c] + rest;
      StreamPrefix(id, generation, a[0].end, a[1..], c, rest);
    }
  }

  /** How many leading chunks follow one another without a gap. */
  ghost function Gapless(offset: nat, cs: seq<Chunk>): nat
    decreases |cs|
  {
    if cs == [] || cs[0].done || cs[0].start != offset then 0 else 1 + Gapless(cs[0].end, cs[1..])
  }

  ghost function Texts(cs: seq<Chunk>): seq<byte> {
    if cs == [] then [] else cs[0].text + Texts(cs[1..])
  }

  lemma {:induction false} NothingAfterGap(id: nat, generation: nat, offset: nat, from: nat, cs: seq<Chunk>)
    requires generation != 0 && Stream(id, generation, from, cs) && offset < from
    ensures Accepted(generation, offset, cs) == []
    decreases |cs|
  {
    if cs != [] && !cs[0].done {
      NothingAfterGap(id, generation, offset, cs[0].end, cs[1..]);
    }
  }

  /** Once continuity breaks, nothing later is applied: what is accepted is exactly the
      leading gapless part of the stream. */
  lemma {:induction false} AcceptedIsGaplessPrefix(id: nat, generation: nat, offset: nat, cs: seq<Chunk>)
    requires generation != 0 && Stream(id, generation, offset, cs)
    ensures Gapless(offset, cs) <= |cs|
    ensures Accepted(generation, offset, cs) == Texts(cs[..Gapless(offset, cs)])
    decreases |cs|
  {
    if cs != [] && !cs[0].done {
      if cs[0].start == offset {
        AcceptedIsGaplessPrefix(id, generation, cs[0].end, cs[1..]);
        var k := Gapless(offset, cs);
        assert cs[..k][1..] == cs[1..][..k - 1];
      } else {
        NothingAfterGap(id, generation, offset, cs[0].end, cs[1..]);
      }
    }
  }

  // ---------------------------------------------------------------- one chunk

  lemma {:induction false} WeaveOne(base: nat, bytes: seq<byte>, m: Mark)
    requires base < m.barrier <= base + |bytes|
    ensures var k := m.barrier - base;
            Weave(base, bytes, [m]) == Puts(bytes[..k]) + [ResizeOp(m)] + Puts(bytes[k..])
  {
    var k := m.barrier - base;
    WeavePlain(base, bytes[..k]);
    WeaveMoreMarks(base, bytes[..k], [], m);
    assert [] + [m] == [m];
    WeaveMoreBytes(base, bytes[..k], bytes[k..], [m]);
    assert bytes[..k] + bytes[k..] == bytes;
  }

  /** A continuous chunk extends the log by the reference log of its own bytes: the pending
      resize lands at its barrier whether that is inside the chunk or at its end. */
  lemma {:induction false} ChunkWeaves(v: View, p: Option<Mark>, c: Chunk)
    requires c.generation != 0 && v.generation == c.generation && Continuous(v.generation, v.offset, c)
    requires p.Some? ==> p.value.id == c.id && v.offset < p.value.barrier
    ensures var due := if p.Some? && p.value.barrier <= c.end then [p.value] else [];
            ApplyChunk(v, p, c) == (View(Some(Log(v) + Weave(v.offset, c.text, due)), c.generation, c.end, v.broken),
                                    if due == [] then p else None)
  {
    if p.Some? && p.value.barrier <= c.end {
      var k := p.value.barrier - c.start;
      var left, mid, right := Puts(c.text[..k]), [ResizeOp(p.value)], Puts(c.text[k..]);
      WeaveOne(v.offset, c.text, p.value);
      if k == |c.text| {
        assert c.text[..k] == c.text && right == [];
        assert Log(v) + Weave(v.offset, c.text, [p.value]) == (Log(v) + left) + mid;
      } else {
        assert Log(v) + Weave(v.offset, c.text, [p.value]) == ((Log(v) + left) + mid) + right;
      }
    } else {
      WeavePlain(v.offset, c.text);
    }
  }

  lemma {:induction false} WeaveJoinOne(base: nat, bytes: seq<byte>, marks: seq<Mark>, left: seq<byte>,
                                        right: seq<byte>, m: Mark)
    requires forall i :: 0 <= i < |marks| ==> marks[i].barrier <= base + |bytes|
    requires m.barrier == base + |bytes| + |left|
    ensures Weave(base, bytes, marks) + ((Puts(left) + [ResizeOp(m)]) + Puts(right))
         == Weave(base, (bytes + left) + right, marks + [m])
  {
    WeaveMoreBytes(base, bytes, left, marks);
    WeaveMoreMarks(base, bytes + left, marks, m);
    WeaveMoreBytes(base, bytes + left, right, marks + [m]);
    Assoc(Weave(base, bytes, marks), Puts(left) + [ResizeOp(m)], Puts(right));
    Assoc(Weave(base, bytes, marks), Puts(left), [ResizeOp(m)]);
  }

  /** Two adjacent stretches of the reference log join into one. */
  lemma {:induction false} WeaveJoin(base: nat, bytes: seq<byte>, marks: seq<Mark>, text: seq<byte>, due: seq<Mark>)
    requires forall i :: 0 <= i < |marks| ==> marks[i].barrier <= base + |bytes|
    requires |due| <= 1
    requires due != [] ==> base + |bytes| < due[0].barrier <= base + |bytes| + |text|
    ensures Weave(base, bytes, marks) + Weave(base + |bytes|, text, due) == Weave(base, bytes + text, marks + due)
  {
    var o := base + |bytes|;
    if due == [] {
      WeaveMoreBytes(base, bytes, text, marks);
      WeavePlain(o, text);
      assert marks + due == marks;
    } else {
      var m := due[0];
      var k := m.barrier - o;
      WeaveOne(o, text, m);
      WeaveJoinOne(base, bytes, marks, text[..k], text[k..], m);
      Assoc(bytes, text[..k], text[k..]);
      assert due == [m] && text[..k] + text[k..] == text;
    }
  }

  // ---------------------------------------------------------------- many chunks

  /** Where an attach starts: its id, first offset, generation and the terminal it resumes, if any. */
  datatype Start = Start(id: nat, base: nat, generation: nat, terminal: Option<seq<Op>>)

  function FirstView(s: Start): View {
    View(s.terminal, s.generation, s.base, false)
  }

  /** The view shows exactly the accepted bytes, with the accepted resizes at their barriers. */
  ghost predicate Shows(s: Start, v: View, marks: seq<Mark>, settled: seq<Chunk>) {
    var bytes := Accepted(s.generation, s.base, settled);
    && v.generation == s.generation
    && v.offset == s.base + |bytes|
    && (v.terminal.None? ==> s.terminal.None? && bytes == [] && marks == [])
    && Log(v) == Log(FirstView(s)) + Weave(s.base, bytes, Due(marks, v.offset))
    && Ordered(s.base, Due(marks, v.offset), v.offset)
  }

  /** What is known of the accepted resizes while nothing has been lost. */
  ghost predicate Waiting(v: View, p: Option<Mark>, marks: seq<Mark>) {
    match p
    case None => forall i :: 0 <= i < |marks| ==> marks[i].barrier <= v.offset
    case Some(m) =>
      && marks != [] && marks[|marks| - 1] == m
      && forall i :: 0 <= i < |marks| - 1 ==> marks[i].barrier <= v.offset
  }

  ghost predicate Tracks(s: Start, v: View, p: Option<Mark>, marks: seq<Mark>, settled: seq<Chunk>) {
    && s.generation != 0
    && Unfinished(settled)
    && Shows(s, v, marks, settled)
    && (p.Some? ==> p.value.id == s.id && v.offset < p.value.barrier)
    && (if v.broken then v.offset < Frontier(s.base, settled)
        else v.offset == Frontier(s.base, settled) && Waiting(v, p, marks))
  }

  lemma {:induction false} DueAfterChunk(v: View, p: Option<Mark>, marks: seq<Mark>, end: nat)
    requires Waiting(v, p, marks) && v.offset <= end
    requires p.Some? ==> v.offset < p.value.barrier
    ensures Due(marks, end) == Due(marks, v.offset) + (if p.Some? && p.value.barrier <= end then [p.value] else [])
  {
    if p.None? {
      DueAll(marks, v.offset);
      DueAll(marks, end);
    } else {
      var rest := marks[..|marks| - 1];
      assert marks == rest + [p.value];
      DueAppend(rest, p.value, v.offset);
      DueAppend(rest, p.value, end);
      DueAll(rest, v.offset);
      DueAll(rest, end);
    }
  }

  lemma {:induction false} OrderedMore(base: nat, marks: seq<Mark>, limit: nat, due: seq<Mark>, end: nat)
    requires Ordered(base, marks, limit) && base <= limit <= end
    requires |due| <= 1 && (due != [] ==> limit <= due[0].barrier <= end)
    ensures Ordered(base, marks + due, end)
  {
  }

  lemma {:induction false} AcceptedMore(generation: nat, base: nat, settled: seq<Chunk>, c: Chunk)
    requires Unfinished(settled) && !c.done
    ensures var bytes := Accepted(generation, base, settled);
            Accepted(generation, base, settled + [c])
            == bytes + (if Continuous(generation, base + |bytes|, c) then c.text else [])
  {
    AcceptedConcat(generation, base, settled, [c]);
    assert [c][1..] == [];
  }

  lemma {:induction false} GrowShows(s: Start, v: View, marks: seq<Mark>, settled: seq<Chunk>, c: Chunk, due: seq<Mark>)
    requires Unfinished(settled) && Shows(s, v, marks, settled) && !c.done && Continuous(v.generation, v.offset, c)
    requires |due| <= 1 && (due != [] ==> v.offset < due[0].barrier <= c.end)
    requires Due(marks, c.end) == Due(marks, v.offset) + due
    ensures Shows(s, View(Some(Log(v) + Weave(v.offset, c.text, due)), v.generation, c.end, v.broken),
                  marks, settled + [c])
  {
    var bytes, earlier := Accepted(s.generation, s.base, settled), Due(marks, v.offset);
    AcceptedMore(s.generation, s.base, settled, c);
    WeaveJoin(s.base, bytes, earlier, c.text, due);
    Assoc(Log(FirstView(s)), Weave(s.base, bytes, earlier), Weave(v.offset, c.text, due));
    OrderedMore(s.base, earlier, v.offset, due, c.end);
  }

  lemma {:induction false} UnfinishedMore(settled: seq<Chunk>, c: Chunk, base: nat)
    requires Unfinished(settled) && !c.done
    ensures Unfinished(settled + [c]) && Frontier(base, settled + [c]) == c.end
  {
  }

  lemma {:induction false} AppliedChunkKeeps(s: Start, v: View, p: Option<Mark>, marks: seq<Mark>,
                                             settled: seq<Chunk>, c: Chunk)
    requires Tracks(s, v, p, marks, settled) && !v.broken
    requires c.id == s.id && !c.done && c.generation == s.generation && Continuous(v.generation, v.offset, c)
    ensures Tracks(s, ApplyChunk(v, p, c).0, ApplyChunk(v, p, c).1, marks, settled + [c])
  {
    var due := if p.Some? && p.value.barrier <= c.end then [p.value] else [];
    ChunkWeaves(v, p, c);
    DueAfterChunk(v, p, marks, c.end);
    GrowShows(s, v, marks, settled, c, due);
    UnfinishedMore(settled, c, s.base);
    var (v', p') := ApplyChunk(v, p, c);
    WaitingAfterChunk(v, p, marks, v', p');
  }

  lemma {:induction false} WaitingAfterChunk(v: View, p: Option<Mark>, marks: seq<Mark>, v': View, p': Option<Mark>)
    requires Waiting(v, p, marks) && v.offset <= v'.offset
    requires p' == if p.Some? && p.value.barrier <= v'.offset then None else p
    ensures Waiting(v', p', marks)
  {
  }

  lemma {:induction false} SkippedChunkKeeps(s: Start, v: View, p: Option<Mark>, marks: seq<Mark>,
                                             settled: seq<Chunk>, c: Chunk)
    requires Tracks(s, v, p, marks, settled) && !c.done && !Continuous(v.generation, v.offset, c)
    requires Frontier(s.base, settled) <= c.start < c.end
    ensures Tracks(s, v.(broken := true), None, marks, settled + [c])
  {
    var bytes := Accepted(s.generation, s.base, settled);
    AcceptedMore(s.generation, s.base, settled, c);
    assert bytes + [] == bytes;
  }

  lemma {:induction false} ChunkKeeps(s: Start, v: View, p: Option<Mark>, marks: seq<Mark>, settled: seq<Chunk>,
                                      c: Chunk, rest: seq<Chunk>)
    requires Tracks(s, v, p, marks, settled) && !c.done
    requires Stream(s.id, s.generation, s.base, settled + [c] + rest)
    ensures Tracks(s, ApplyChunk(v, p, c).0, ApplyChunk(v, p, c).1, marks, settled + [c])
  {
    StreamPrefix(s.id, s.generation, s.base, settled, c, rest);
    if Continuous(v.generation, v.offset, c) {
      AppliedChunkKeeps(s, v, p, marks, settled, c);
    } else {
      SkippedChunkKeeps(s, v, p, marks, settled, c);
    }
  }

  lemma {:induction false} DrainKeeps(s: Start, v: View, p: Option<Mark>, marks: seq<Mark>, settled: seq<Chunk>,
                                      cs: seq<Chunk>)
    requires Tracks(s, v, p, marks, settled)
    requires Stream(s.id, s.generation, s.base, settled + cs)
    ensures var (v', p', completed) := Drain(v, p, cs);
            if completed then Shows(s, v', marks, settled + cs) else Tracks(s, v', p', marks, settled + cs)
    decreases |cs|
  {
    if cs == [] {
      assert settled + cs == settled;
    } else if cs[0].done {
      AcceptedConcat(s.generation, s.base, settled, cs);
      AcceptedDone(s.generation, s.base, settled, cs);
    } else {
      assert settled + cs == settled + [cs[0]] + cs[1..];
      ChunkKeeps(s, v, p, marks, settled, cs[0], cs[1..]);
      var (v1, p1) := ApplyChunk(v, p, cs[0]);
      DrainKeeps(s, v1, p1, marks, settled + [cs[0]], cs[1..]);
    }
  }

  lemma {:induction false} DrainTracks(s: Start, pending: Mark, cs: seq<Chunk>)
    requires s.generation != 0 && s.terminal.Some? && pending.id == s.id && s.base < pending.barrier
    requires Unfinished(cs) && Stream(s.id, s.generation, s.base, cs)
    ensures var (v, p, completed) := Drain(FirstView(s), Some(pending), cs);
            !completed && Tracks(s, v, p, [pending], cs)
  {
    FirstTracks(s, pending);
    assert [] + cs == cs;
    DrainKeeps(s, FirstView(s), Some(pending), [pending], [], cs);
    DrainCompletes(FirstView(s), Some(pending), cs);
  }

  /** However a gapless stream is cut into chunks, a pending resize is performed at its barrier
      and nowhere else; it stays pending exactly when the stream stops before the barrier. */
  lemma {:induction false} ChunkingIsInvisible(s: Start, pending: Mark, cs: seq<Chunk>)
    requires s.generation != 0 && s.terminal.Some?
    requires pending.id == s.id && s.base < pending.barrier
    requires Unfinished(cs) && Stream(s.id, s.generation, s.base, cs) && Gapless(s.base, cs) == |cs|
    ensures var (v, p, completed) := Drain(FirstView(s), Some(pending), cs);
            && !completed && !v.broken && v.offset == s.base + |Texts(cs)|
            && p == (if pending.barrier <= v.offset then None else Some(pending))
            && Log(v) == s.terminal.value + Resized(Texts(cs), pending.barrier - s.base, pending)
  {
    DrainTracks(s, pending, cs);
    var (v, p, _) := Drain(FirstView(s), Some(pending), cs);
    TracksGapless(s, v, p, pending, cs);
  }

  lemma {:induction false} TracksGapless(s: Start, v: View, p: Option<Mark>, pending: Mark, cs: seq<Chunk>)
    requires Tracks(s, v, p, [pending], cs) && s.terminal.Some? && s.base < pending.barrier
    requires Stream(s.id, s.generation, s.base, cs) && Gapless(s.base, cs) == |cs|
    ensures !v.broken && v.offset == s.base + |Texts(cs)|
    ensures p == if pending.barrier <= v.offset then None else Some(pending)
    ensures Log(v) == s.terminal.value + Resized(Texts(cs), pending.barrier - s.base, pending)
  {
    AcceptedIsGaplessPrefix(s.id, s.generation, s.base, cs);
    assert cs[..|cs|] == cs;
    GaplessEnd(s.id, s.generation, s.base, cs);
    WeaveDue(s.base, Texts(cs), pending);
    WaitingOne(v, p, pending);
  }

  lemma {:induction false} WaitingOne(v: View, p: Option<Mark>, m: Mark)
    requires Waiting(v, p, [m]) && (p.Some? ==> v.offset < p.value.barrier)
    ensures p == if m.barrier <= v.offset then None else Some(m)
  {
    assert [m][0] == m;
  }

  lemma {:induction false} FirstTracks(s: Start, pending: Mark)
    requires s.generation != 0 && s.terminal.Some? && pending.id == s.id && s.base < pending.barrier
    ensures Tracks(s, FirstView(s), Some(pending), [pending], [])
  {
  }

  /** The log of `bytes` with one resize at offset k of them, if they reach that far. */
  function Resized(bytes: seq<byte>, k: nat, m: Mark): seq<Op> {
    if k <= |bytes| then Puts(bytes[..k]) + [ResizeOp(m)] + Puts(bytes[k..]) else Puts(bytes)
  }

  lemma {:induction false} WeaveDue(base: nat, bytes: seq<byte>, m: Mark)
    requires base < m.barrier
    ensures Weave(base, bytes, Due([m], base + |bytes|)) == Resized(bytes, m.barrier - base, m)
  {
    assert [m][1..] == [];
    if m.barrier <= base + |bytes| {
      assert Due([m], base + |bytes|) == [m];
      WeaveOne(base, bytes, m);
    } else {
      WeavePlain(base, bytes);
    }
  }

  lemma {:induction false} DrainCompletes(v: View, p: Option<Mark>, cs: seq<Chunk>)
    ensures Drain(v, p, cs).2 <==> !Unfinished(cs)
    decreases |cs|
  {
    if cs != [] && !cs[0].done {
      var (v1, p1) := ApplyChunk(v, p, cs[0]);
      DrainCompletes(v1, p1, cs[1..]);
      assert Unfinished(cs) <==> Unfinished(cs[1..]) by {
        assert forall i :: 0 < i < |cs| ==> cs[i] == cs[1..][i - 1];
      }
    }
  }

  lemma {:induction false} GaplessEnd(id: nat, generation: nat, offset: nat, cs: seq<Chunk>)
    requires Stream(id, generation, offset, cs) && Gapless(offset, cs) == |cs|
    ensures Frontier(offset, cs) == offset + |Texts(cs)|
    decreases |cs|
  {
    if cs != [] {
      GaplessEnd(id, generation, cs[0].end, cs[1..]);
    }
  }

  // ---------------------------------------------------------------- whole runs

  /** What the event loop reacts to; `capable` says whether a resize call is available. */
  datatype Event =
    | Arrived(chunk: Chunk, rows: nat, cols: nat, capable: bool)
    | Answered(id: nat, answer: Option<Mark>, capable: bool)
    | Signalled(rows: nat, cols: nat, capable: bool)

  /** What happened so far: the chunks received, those of them already taken out of the buffer,
      and the resizes accepted from the remote side. */
  datatype History = History(arrived: seq<Chunk>, settled: seq<Chunk>, marks: seq<Mark>)

  function Step(l: Loop, e: Event): Loop {
    match e
    case Arrived(c, rows, cols, capable) => OnChunk(l, c, rows, cols, capable)
    case Answered(id, answer, capable) => OnResult(l, id, answer, capable)
    case Signalled(rows, cols, capable) => QueueResize(l, rows, cols, capable)
  }

  function Record(s: Start, h: History, l: Loop, e: Event): History {
    if l.id != s.id then h
    else match e
      case Arrived(c, _, _, _) =>
        if c.id != l.id then h
        else History(h.arrived + [c], if l.inFlight.Some? then h.settled else h.settled + [c], h.marks)
      case Answered(id, answer, _) =>
        if id != l.id then h
        else AfterAnswer(h, l, answer)
      case Signalled(_, _, _) => h
  }

  /** The environment: the reader delivers a stream, an answer belongs to a request in flight, and
      a barrier is not below the offset the client had when it asked (which stays put until the answer). */
  ghost predicate Enabled(s: Start, h: History, l: Loop, e: Event) {
    match e
    case Arrived(c, _, _, _) =>
      && l.sourceOpen && |c.text| <= READ_SIZE
      && (c.id == l.id ==> l.id == s.id && Stream(s.id, s.generation, s.base, h.arrived + [c]))
    case Answered(id, answer, _) =>
      && (id == l.id ==> l.inFlight.Some?)
      && (id == l.id && answer.Some? ==> answer.value.id == id && l.view.offset <= answer.value.barrier)
    case Signalled(_, _, _) => true
  }

  ghost predicate Legal(s: Start, h: History, l: Loop, es: seq<Event>)
    decreases |es|
  {
    es == [] || (Enabled(s, h, l, es[0]) && Legal(s, Record(s, h, l, es[0]), Step(l, es[0]), es[1..]))
  }

  function Run(s: Start, h: History, l: Loop, es: seq<Event>): (History, Loop)
    decreases |es|
  {
    if es == [] then (h, l) else Run(s, Record(s, h, l, es[0]), Step(l, es[0]), es[1..])
  }

  function Size(cs: seq<Chunk>): nat {
    if cs == [] then 0 else Size(cs[..|cs| - 1]) + |cs[|cs| - 1].text|
  }

  /** While the attach is live. */
  ghost predicate Live(s: Start, h: History, l: Loop) {
    && h.arrived == h.settled + l.buffered
    && Tracks(s, l.view, l.pending, h.marks, h.settled)
    && Stream(s.id, s.generation, s.base, h.arrived)
    && (l.inFlight.Some? ==> l.pending.None?)
    && (l.inFlight.None? ==> l.buffered == [])
    && Buffered(l)
  }

  ghost predicate Buffered(l: Loop) {
    && l.bufferedBytes == Size(l.buffered) < MAX_BUFFERED + READ_SIZE
    && (l.sourceOpen <==> l.bufferedBytes < MAX_BUFFERED)
  }

  /** After its end: the loop has moved on and leaves the view alone. */
  ghost predicate Ended(s: Start, h: History, l: Loop) {
    && h.settled == h.arrived
    && Shows(s, l.view, h.marks, h.settled)
    && l.inFlight.None? && l.pending.None? && !l.canResize && l.buffered == [] && l.bufferedBytes == 0
  }

  ghost predicate Inv(s: Start, h: History, l: Loop) {
    if l.id == s.id then Live(s, h, l) else Ended(s, h, l)
  }

  /** The invariant does not look at the queued request or the initial-resize flags. */
  ghost predicate SameStream(l: Loop, l': Loop) {
    && l'.id == l.id && l'.view == l.view && l'.pending == l.pending
    && l'.buffered == l.buffered && l'.bufferedBytes == l.bufferedBytes && l'.sourceOpen == l.sourceOpen
    && (if l'.inFlight.Some? then l.inFlight.Some? || l.pending.None? else l.inFlight.None?)
  }

  lemma {:induction false} LiveFrame(s: Start, h: History, l: Loop, l': Loop)
    requires Live(s, h, l) && SameStream(l, l')
    ensures Live(s, h, l')
  {
  }

  lemma {:induction false} AfterChunkFrame(l: Loop, rows: nat, cols: nat, capable: bool)
    ensures SameStream(l, AfterChunk(l, rows, cols, capable))
  {
  }

  /** Ending the attach freezes the view. */
  lemma {:induction false} FinishKeeps(s: Start, h: History, l: Loop)
    requires l.id == s.id && h.settled == h.arrived && Shows(s, l.view, h.marks, h.settled)
    ensures Inv(s, h, FinishAttach(l))
  {
  }

  lemma {:induction false} EndArrives(s: Start, h: History, l: Loop, e: Event)
    requires l.id == s.id && Live(s, h, l) && e.Arrived? && e.chunk.id == l.id && l.inFlight.None? && e.chunk.done
    ensures Inv(s, Record(s, h, l, e), Step(l, e))
  {
    AcceptedDone(s.generation, s.base, h.settled, [e.chunk]);
    FinishKeeps(s, Record(s, h, l, e), l);
  }

  lemma {:induction false} TextArrives(s: Start, h: History, l: Loop, e: Event)
    requires l.id == s.id && Live(s, h, l) && e.Arrived? && Enabled(s, h, l, e) && e.chunk.id == l.id
    requires l.inFlight.None? && !e.chunk.done
    ensures Inv(s, Record(s, h, l, e), Step(l, e))
  {
    ProcessedKeeps(s, h, l, e.chunk);
    var (v, p) := ApplyChunk(l.view, l.pending, e.chunk);
    var l1 := l.(view := v, pending := p);
    AfterChunkFrame(l1, e.rows, e.cols, e.capable);
    LiveFrame(s, Record(s, h, l, e), l1, AfterChunk(l1, e.rows, e.cols, e.capable));
  }

  lemma {:induction false} ArrivalKeeps(s: Start, h: History, l: Loop, e: Event)
    requires l.id == s.id && Live(s, h, l) && e.Arrived? && Enabled(s, h, l, e) && e.chunk.id == l.id
    ensures Inv(s, Record(s, h, l, e), Step(l, e))
  {
    if l.inFlight.Some? {
      BufferedKeeps(s, h, l, e.chunk);
    } else if e.chunk.done {
      EndArrives(s, h, l, e);
    } else {
      TextArrives(s, h, l, e);
    }
  }

  lemma {:induction false} BufferedKeeps(s: Start, h: History, l: Loop, c: Chunk)
    requires Live(s, h, l) && l.inFlight.Some? && l.sourceOpen && |c.text| <= READ_SIZE
    requires Stream(s.id, s.generation, s.base, h.arrived + [c])
    ensures var total := l.bufferedBytes + |c.text|;
            Live(s, History(h.arrived + [c], h.settled, h.marks),
                 l.(buffered := l.buffered + [c], bufferedBytes := total,
                    sourceOpen := l.sourceOpen && total < MAX_BUFFERED))
  {
  }

  lemma {:induction false} ProcessedKeeps(s: Start, h: History, l: Loop, c: Chunk)
    requires l.id == s.id && Live(s, h, l) && l.inFlight.None? && !c.done
    requires Stream(s.id, s.generation, s.base, h.arrived + [c])
    ensures var (v, p) := ApplyChunk(l.view, l.pending, c);
            Live(s, History(h.arrived + [c], h.settled + [c], h.marks), l.(view := v, pending := p))
  {
    assert h.settled + [c] + [] == h.arrived + [c];
    ChunkKeeps(s, l.view, l.pending, h.marks, h.settled, c, []);
  }

  /** The answer is shown at once, or waits for its barrier. */
  lemma {:induction false} AnswerShows(s: Start, v: View, marks: seq<Mark>, settled: seq<Chunk>, m: Mark)
    requires Shows(s, v, marks, settled) && v.terminal.Some? && v.offset <= m.barrier
    ensures Shows(s, if v.offset < m.barrier then v else ResizeView(v, m), marks + [m], settled)
  {
    var bytes, due := Accepted(s.generation, s.base, settled), Due(marks, v.offset);
    DueAppend(marks, m, v.offset);
    DueBounded(marks, v.offset);
    if m.barrier == v.offset {
      WeaveMoreMarks(s.base, bytes, due, m);
      Assoc(Log(FirstView(s)), Weave(s.base, bytes, due), [ResizeOp(m)]);
      OrderedMore(s.base, due, v.offset, [m], v.offset);
    } else {
      assert due + [] == due;
    }
  }

  lemma {:induction false} AnswerTracks(s: Start, h: History, l: Loop, m: Mark)
    requires Tracks(s, l.view, l.pending, h.marks, h.settled) && l.pending.None? && l.view.terminal.Some?
    requires m.id == s.id && l.view.offset <= m.barrier
    ensures var l1 := TakeAnswer(l, Some(m));
            Tracks(s, l1.view, l1.pending, h.marks + [m], h.settled)
  {
    AnswerShows(s, l.view, h.marks, h.settled, m);
  }

  /** An answer releases the buffer and, with a terminal to resize, adds a mark. */
  function AfterAnswer(h: History, l: Loop, answer: Option<Mark>): History {
    History(h.arrived, h.settled + l.buffered, Marked(h.marks, l.view, answer))
  }

  function Marked(marks: seq<Mark>, v: View, answer: Option<Mark>): seq<Mark> {
    if answer.Some? && v.terminal.Some? then marks + [answer.value] else marks
  }

  lemma {:induction false} AnswerTaken(s: Start, h: History, l: Loop, answer: Option<Mark>)
    requires Tracks(s, l.view, l.pending, h.marks, h.settled) && l.pending.None?
    requires answer.Some? ==> answer.value.id == s.id && l.view.offset <= answer.value.barrier
    ensures var l1 := TakeAnswer(l, answer);
            Tracks(s, l1.view, l1.pending, Marked(h.marks, l.view, answer), h.settled)
  {
    if answer.Some? && l.view.terminal.Some? {
      AnswerTracks(s, h, l, answer.value);
    }
  }

  lemma {:induction false} AnswerKeeps(s: Start, h: History, l: Loop, e: Event)
    requires l.id == s.id && Live(s, h, l) && e.Answered? && Enabled(s, h, l, e) && e.id == l.id
    ensures Inv(s, Record(s, h, l, e), Step(l, e))
  {
    AnswerTaken(s, h, l, e.answer);
    TakeAnswerFrame(l, e.answer);
    AnswerStep(s, h, l, e);
    BufferReleased(s, AfterAnswer(h, l, e.answer), TakeAnswer(l, e.answer), h.settled, e.capable);
  }

  lemma {:induction false} AnswerStep(s: Start, h: History, l: Loop, e: Event)
    requires e.Answered? && e.id == l.id == s.id
    ensures var d := DrainLoop(TakeAnswer(l, e.answer));
            Step(l, e) == AfterDrain(d.0, d.1, e.capable) && Record(s, h, l, e) == AfterAnswer(h, l, e.answer)
  {
  }

  lemma {:induction false} TakeAnswerFrame(l: Loop, answer: Option<Mark>)
    ensures var l1 := TakeAnswer(l, answer); l1.id == l.id && l1.inFlight.None? && l1.buffered == l.buffered
  {
  }

  lemma {:induction false} DrainedLive(s: Start, h: History, l: Loop)
    requires l.id == s.id && l.inFlight.None? && l.buffered == [] && l.bufferedBytes == 0 && l.sourceOpen
    requires h.settled == h.arrived && Stream(s.id, s.generation, s.base, h.arrived)
    requires Tracks(s, l.view, l.pending, h.marks, h.settled)
    ensures Live(s, h, l)
  {
  }

  lemma {:induction false} SettledKeeps(s: Start, h: History, l: Loop, completed: bool, capable: bool)
    requires l.id == s.id && l.inFlight.None? && h.settled == h.arrived
    requires if completed then Shows(s, l.view, h.marks, h.settled) else Live(s, h, l)
    ensures Inv(s, h, AfterDrain(l, completed, capable))
  {
    if completed {
      FinishKeeps(s, h, l);
    } else {
      LiveFrame(s, h, l, AfterDrain(l, completed, capable));
    }
  }

  lemma {:induction false} BufferReleased(s: Start, h: History, l: Loop, settled: seq<Chunk>, capable: bool)
    requires l.id == s.id && l.inFlight.None? && Tracks(s, l.view, l.pending, h.marks, settled)
    requires h.settled == h.arrived == settled + l.buffered && Stream(s.id, s.generation, s.base, h.arrived)
    ensures Inv(s, h, AfterDrain(DrainLoop(l).0, DrainLoop(l).1, capable))
  {
    DrainKeeps(s, l.view, l.pending, h.marks, settled, l.buffered);
    var (l1, completed) := DrainLoop(l);
    if !completed {
      DrainedLive(s, h, l1);
    }
    SettledKeeps(s, h, l1, completed, capable);
  }

  /** The event belongs to the attach that is live, or is a signal. */
  predicate Addressed(l: Loop, e: Event) {
    match e
    case Arrived(c, _, _, _) => c.id == l.id
    case Answered(id, _, _) => id == l.id
    case Signalled(_, _, _) => true
  }

  lemma {:induction false} OthersStay(s: Start, h: History, l: Loop, e: Event)
    requires !Addressed(l, e)
    ensures Step(l, e) == l && Record(s, h, l, e) == h
  {
  }

  lemma {:induction false} EndedStays(s: Start, h: History, l: Loop, e: Event)
    requires l.id != s.id && Ended(s, h, l) && Enabled(s, h, l, e)
    ensures Step(l, e) == l && Record(s, h, l, e) == h
  {
  }

  lemma {:induction false} SignalKeeps(s: Start, h: History, l: Loop, e: Event)
    requires l.id == s.id && Live(s, h, l) && e.Signalled?
    ensures Inv(s, Record(s, h, l, e), Step(l, e))
  {
    assert SameStream(l, Step(l, e));
    LiveFrame(s, h, l, Step(l, e));
  }

  /** Every event keeps the invariant. */
  lemma {:induction false} StepKeeps(s: Start, h: History, l: Loop, e: Event)
    requires Inv(s, h, l) && Enabled(s, h, l, e)
    ensures Inv(s, Record(s, h, l, e), Step(l, e))
  {
    if !Addressed(l, e) {
      OthersStay(s, h, l, e);
    } else if l.id != s.id {
      EndedStays(s, h, l, e);
    } else {
      match e
      case Arrived(_, _, _, _) => ArrivalKeeps(s, h, l, e);
      case Answered(_, _, _) => AnswerKeeps(s, h, l, e);
      case Signalled(_, _, _) => SignalKeeps(s, h, l, e);
    }
  }

  lemma {:induction false} RunKeeps(s: Start, h: History, l: Loop, es: seq<Event>)
    requires Inv(s, h, l) && Legal(s, h, l, es)
    ensures var (h', l') := Run(s, h, l, es); Inv(s, h', l')
    decreases |es|
  {
    if es != [] {
      StepKeeps(s, h, l, es[0]);
      RunKeeps(s, Record(s, h, l, es[0]), Step(l, es[0]), es[1..]);
    }
  }

  /** How an attach is opened: whether its session can be resized, the end of the replay it starts with, the
      size of the pane, and whether a resize call is available. */
  datatype Opening = Opening(canResize: bool, replayEnd: nat, rows: nat, cols: nat, capable: bool)

  /** The event loop right after an attach has been opened; with nothing to replay it asks for a resize at once. */
  function Opened(s: Start, o: Opening): Loop {
    var l := Loop(s.id, FirstView(s), None, None, None, [], 0, true, o.canResize, false, o.replayEnd);
    if o.replayEnd <= s.base && o.canResize
    then QueueResize(l.(initialQueued := true), o.rows, o.cols, o.capable) else l
  }

  lemma {:induction false} NothingShown(s: Start)
    requires s.generation != 0
    ensures Tracks(s, FirstView(s), None, [], [])
  {
    assert Weave(s.base, [], []) == [];
    assert Log(FirstView(s)) + [] == Log(FirstView(s));
  }

  lemma {:induction false} QueueFrame(l: Loop, rows: nat, cols: nat, capable: bool)
    ensures SameStream(l, QueueResize(l.(initialQueued := true), rows, cols, capable))
  {
  }

  lemma {:induction false} OpenedKeeps(s: Start, o: Opening)
    requires s.generation != 0
    ensures Inv(s, History([], [], []), Opened(s, o))
  {
    var l := Loop(s.id, FirstView(s), None, None, None, [], 0, true, o.canResize, false, o.replayEnd);
    NothingShown(s);
    DrainedLive(s, History([], [], []), l);
    QueueFrame(l, o.rows, o.cols, o.capable);
    LiveFrame(s, History([], [], []), l, Opened(s, o));
  }

  ghost predicate LegalRun(s: Start, o: Opening, es: seq<Event>) {
    s.generation != 0 && Legal(s, History([], [], []), Opened(s, o), es)
  }

  function Outcome(s: Start, o: Opening, es: seq<Event>): (History, Loop) {
    Run(s, History([], [], []), Opened(s, o), es)
  }

  /** Safety of every run of one attach, from its opening through any mix of reads, resize
      requests, answers and its end. */
  lemma {:induction false} EveryRun(s: Start, o: Opening, es: seq<Event>)
    requires LegalRun(s, o, es)
    ensures var (h, l) := Outcome(s, o, es);
            && !(l.inFlight.Some? && l.pending.Some?)
            && l.bufferedBytes == Size(l.buffered) < MAX_BUFFERED + READ_SIZE
            && h.arrived == h.settled + l.buffered
            && Shows(s, l.view, h.marks, h.settled)
  {
    OpenedKeeps(s, o);
    RunKeeps(s, History([], [], []), Opened(s, o), es);
  }

  /** In every run the bytes shown are the gapless prefix of the chunks processed so far: all of them
      while the stream is whole, and none of those after a gap. */
  lemma {:induction false} EveryRunShowsGaplessPrefix(s: Start, o: Opening, es: seq<Event>)
    requires LegalRun(s, o, es)
    ensures var (h, l) := Outcome(s, o, es);
            && Gapless(s.base, h.settled) <= |h.settled|
            && Bytes(Log(l.view)) == Bytes(Log(FirstView(s))) + Texts(h.settled[..Gapless(s.base, h.settled)])
  {
    var (h, l) := Outcome(s, o, es);
    EveryRun(s, o, es);
    RunStream(s, History([], [], []), Opened(s, o), es);
    StreamTake(s.id, s.generation, s.base, h.settled, l.buffered);
    AcceptedIsGaplessPrefix(s.id, s.generation, s.base, h.settled);
    var applied := Accepted(s.generation, s.base, h.settled);
    WeaveBytes(s.base, applied, Due(h.marks, l.view.offset));
    BytesConcat(Log(FirstView(s)), Weave(s.base, applied, Due(h.marks, l.view.offset)));
  }

  /** The resize of `m` stands in the log of `bytes` after all the bytes before its barrier and before all the
      others. */
  ghost predicate ResizedAt(ops: seq<Op>, at: nat, base: nat, bytes: seq<byte>, m: Mark) {
    var k := m.barrier - base;
    && at < |ops| && ops[at] == ResizeOp(m) && 0 <= k <= |bytes|
    && Bytes(ops[..at]) == bytes[..k] && Bytes(ops[at + 1..]) == bytes[k..]
  }

  lemma {:induction false} ResizedHere(a: seq<Op>, b: seq<Op>, base: nat, bytes: seq<byte>, m: Mark)
    requires base <= m.barrier <= base + |bytes|
    requires Bytes(a) == bytes[..m.barrier - base] && Bytes(b) == bytes[m.barrier - base..]
    ensures ResizedAt(a + ([ResizeOp(m)] + b), |a|, base, bytes, m)
  {
    var ops := a + ([ResizeOp(m)] + b);
    assert ops[..|a|] == a && ops[|a| + 1..] == b;
  }

  lemma {:induction false} WeaveResizes(base: nat, bytes: seq<byte>, marks: seq<Mark>, i: nat)
    requires Ordered(base, marks, base + |bytes|) && i < |marks|
    ensures exists at :: ResizedAt(Weave(base, bytes, marks), at, base, bytes, marks[i])
  {
    var k, m, rest := marks[i].barrier - base, marks[i], marks[i + 1..];
    assert bytes == bytes[..k] + bytes[k..] && marks == marks[..i] + ([m] + rest);
    WeaveParts(base, bytes[..k], bytes[k..], marks[..i], m, rest);
    var a, b := Weave(base, bytes[..k], marks[..i]), Weave(base + k, bytes[k..], rest);
    WeaveBytes(base, bytes[..k], marks[..i]);
    WeaveBytes(base + k, bytes[k..], rest);
    ResizedHere(a, b, base, bytes, m);
  }

  /** The accepted resizes whose barriers the view has reached. */
  function Reached(out: (History, Loop)): seq<Mark> {
    Due(out.0.marks, out.1.view.offset)
  }

  /** What the attach added to the terminal it resumed. */
  function Added(s: Start, v: View): seq<Op> {
    if |Log(FirstView(s))| <= |Log(v)| then Log(v)[|Log(FirstView(s))|..] else []
  }

  /** In every run each resize whose barrier has been reached is in the log at its barrier. */
  lemma {:induction false} EveryRunPlacesResizes(s: Start, o: Opening, es: seq<Event>, i: nat)
    requires LegalRun(s, o, es)
    requires i < |Reached(Outcome(s, o, es))|
    ensures var out := Outcome(s, o, es);
            && Log(out.1.view) == Log(FirstView(s)) + Added(s, out.1.view)
            && exists at ::
                 ResizedAt(Added(s, out.1.view), at, s.base,
                           Accepted(s.generation, s.base, out.0.settled), Reached(out)[i])
  {
    var out := Outcome(s, o, es);
    EveryRun(s, o, es);
    var bytes := Accepted(s.generation, s.base, out.0.settled);
    WeaveResizes(s.base, bytes, Reached(out), i);
    assert Added(s, out.1.view) == Weave(s.base, bytes, Reached(out));
  }

  lemma {:induction false} RunStream(s: Start, h: History, l: Loop, es: seq<Event>)
    requires Stream(s.id, s.generation, s.base, h.arrived) && Legal(s, h, l, es)
    ensures Stream(s.id, s.generation, s.base, Run(s, h, l, es).0.arrived)
    decreases |es|
  {
    if es != [] {
      RunStream(s, Record(s, h, l, es[0]), Step(l, es[0]), es[1..]);
    }
  }

  lemma {:induction false} StreamTake(id: nat, generation: nat, from: nat, a: seq<Chunk>, b: seq<Chunk>)
    requires Stream(id, generation, from, a + b)
    ensures Stream(id, generation, from, a)
    decreases |a|
  {
    if a != [] {
      assert (a + b)[0] == a[0] && (a + b)[1..] == a[1..] + b;
      if !a[0].done {
        StreamTake(id, generation, a[0].end, a[1..], b);
      }
    }
  }

  /** Two runs of the same attach that processed the same bytes and saw the same barriers show the
      same framebuffer, whatever their reads and timing were. */
  lemma {:induction false} ViewIsIndependentOfReads(s: Start, o: Opening, es1: seq<Event>, es2: seq<Event>)
    requires LegalRun(s, o, es1) && LegalRun(s, o, es2)
    requires var (h1, l1), (h2, l2) := Outcome(s, o, es1), Outcome(s, o, es2);
             && Accepted(s.generation, s.base, h1.settled) == Accepted(s.generation, s.base, h2.settled)
             && h1.marks == h2.marks
    ensures Log(Outcome(s, o, es1).1.view) == Log(Outcome(s, o, es2).1.view)
  {
    EveryRun(s, o, es1);
    EveryRun(s, o, es2);
  }
}
