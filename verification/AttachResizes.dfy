/**
 What becomes of a resize that was asked for: it is sent, or remembered until it can be, and the last size asked
 for is the one that is sent last.
 */
module AttachResizes {
  import opened Basics
  import opened AttachOutput
  import opened AttachRuns

  type Size = (nat, nat)

  /** The size that is to be sent or has been sent last. */
  function Wanted(l: Loop): Option<Size> {
    if l.queued.Some? then l.queued else l.inFlight
  }

  // ---------------------------------------------------------------- one request

  /** A request is sent if nothing stands in its way, and remembered otherwise. */
  lemma {:induction false} RequestIsKept(l: Loop, rows: nat, cols: nat)
    requires l.canResize
    ensures var l1 := QueueResize(l, rows, cols, true);
            || (l.inFlight.None? && l1.inFlight == Some((rows, cols)) && l1.queued == l.queued)
            || (l1.queued == Some((rows, cols)) && l1.inFlight == l.inFlight)
  {
  }

  /** It is sent exactly when no other request is in flight or waits for its barrier, and the replay the attach
      started with has been shown. */
  lemma {:induction false} SentIff(l: Loop, rows: nat, cols: nat)
    requires l.canResize
    ensures QueueResize(l, rows, cols, true).inFlight != l.inFlight <==>
              l.inFlight.None? && l.pending.None? && (l.initialQueued || l.replayEnd <= l.view.offset)
  {
  }

  /** Without a resize call nothing is asked for or remembered. */
  lemma {:induction false} NoCallNoRequest(l: Loop, rows: nat, cols: nat)
    ensures QueueResize(l, rows, cols, false) == l
  {
  }

  /** An answer at the current offset resizes the framebuffer to the size that was asked for, at once. */
  lemma {:induction false} AnswerResizes(l: Loop, barrier: nat, rows: nat, cols: nat)
    requires l.view.terminal.Some? && barrier <= l.view.offset
    ensures var l1 := TakeAnswer(l, Some(Mark(l.id, barrier, rows, cols)));
            l1.inFlight.None? && l1.pending == l.pending && Log(l1.view) == Log(l.view) + [Resize(rows, cols)]
  {
  }

  /** A resize whose barrier the stream has passed comes before the next output. */
  lemma {:induction false} OverdueResizeComesFirst(v: View, m: Mark, c: Chunk)
    requires c.generation != 0 && v.terminal.Some? && m.id == c.id && Continuous(v.generation, v.offset, c)
    requires m.barrier <= c.start < c.end
    ensures ApplyChunk(v, Some(m), c).1 == None
    ensures Log(ApplyChunk(v, Some(m), c).0) == Log(v) + [Resize(m.rows, m.cols)] + Puts(c.text)
  {
  }

  /** Output that does not continue the stream, by its offset, its length or its generation, is not shown; what does
      is. */
  lemma {:induction false} OnlyContinuationIsShown(v: View, p: Option<Mark>, c: Chunk)
    requires c.generation != 0 && c.text != [] && !v.broken
    ensures ApplyChunk(v, p, c).0.broken <==>
              c.start != v.offset || c.end != c.start + |c.text| || (v.generation != 0 && c.generation != v.generation)
    ensures ApplyChunk(v, p, c).0.broken ==> Log(ApplyChunk(v, p, c).0) == Log(v)
  {
  }

  // ---------------------------------------------------------------- one event

  function Capable(e: Event): bool {
    match e
    case Arrived(_, _, _, capable) => capable
    case Answered(_, _, capable) => capable
    case Signalled(_, _, capable) => capable
  }

  /** The pane has this size when the event happens. */
  predicate AtSize(e: Event, size: Size) {
    match e
    case Arrived(_, rows, cols, _) => (rows, cols) == size
    case Answered(_, _, _) => true
    case Signalled(rows, cols, _) => (rows, cols) == size
  }

  /** The remote side has answered the request for this size, and no other was waiting. */
  predicate Serves(l: Loop, e: Event, size: Size) {
    e.Answered? && e.id == l.id && l.inFlight == Some(size) && l.queued.None?
  }

  lemma {:induction false} FollowUpWants(l: Loop, rows: nat, cols: nat)
    requires l.canResize && l.inFlight.None? && l.queued == Some((rows, cols))
    ensures Wanted(AfterChunk(l, rows, cols, true)) == Some((rows, cols))
    ensures AfterChunk(l, rows, cols, true).id == l.id && AfterChunk(l, rows, cols, true).canResize
  {
  }

  lemma {:induction false} ArrivalWants(l: Loop, e: Event, size: Size)
    requires l.canResize && Wanted(l) == Some(size) && e.Arrived? && e.capable && AtSize(e, size)
    ensures var l1 := Step(l, e); l1.id == l.id ==> l1.canResize && Wanted(l1) == Some(size)
  {
    if e.chunk.id == l.id && l.inFlight.None? && !e.chunk.done {
      var (v, p) := ApplyChunk(l.view, l.pending, e.chunk);
      FollowUpWants(l.(view := v, pending := p), e.rows, e.cols);
    }
  }

  lemma {:induction false} AnswerWants(l: Loop, e: Event, size: Size)
    requires l.canResize && Wanted(l) == Some(size) && e.Answered? && e.capable && !Serves(l, e, size)
    ensures var l1 := Step(l, e); l1.id == l.id ==> l1.canResize && Wanted(l1) == Some(size)
  {
  }

  lemma {:induction false} SignalWants(l: Loop, e: Event)
    requires l.canResize && e.Signalled? && e.capable
    ensures var l1 := Step(l, e); l1.id == l.id && l1.canResize
    ensures Wanted(l).None? || Wanted(l) == Some((e.rows, e.cols)) ==> Wanted(Step(l, e)) == Some((e.rows, e.cols))
    ensures Wanted(l).Some? && l.inFlight.Some? ==> Wanted(Step(l, e)) == Some((e.rows, e.cols))
  {
  }

  /** A size that is wanted stays wanted until the remote side has answered the request for it. */
  lemma {:induction false} StaysWanted(l: Loop, e: Event, size: Size)
    requires l.canResize && Wanted(l) == Some(size) && Capable(e) && AtSize(e, size) && !Serves(l, e, size)
    ensures var l1 := Step(l, e); l1.id == l.id ==> l1.canResize && Wanted(l1) == Some(size)
  {
    match e
    case Arrived(_, _, _, _) => ArrivalWants(l, e, size);
    case Answered(_, _, _) => AnswerWants(l, e, size);
    case Signalled(_, _, _) => SignalWants(l, e);
  }

  /** A gap in the output drops the barrier that the output can no longer reach, so a request that waited for it is
      sent at once. */
  lemma {:induction false} GapEndsTheWait(l: Loop, e: Event)
    requires l.canResize && l.initialQueued && l.inFlight.None? && l.queued.Some? && e.Arrived? && e.capable
    requires e.chunk.id == l.id && !e.chunk.done && e.chunk.generation != 0
    requires !Continuous(l.view.generation, l.view.offset, e.chunk)
    ensures var l1 := Step(l, e);
            l1.pending.None? && l1.inFlight == Some((e.rows, e.cols)) && Log(l1.view) == Log(l.view) && l1.view.broken
  {
  }

  // ---------------------------------------------------------------- runs

  function LoopAfter(l: Loop, es: seq<Event>): Loop
    decreases |es|
  {
    if es == [] then l else LoopAfter(Step(l, es[0]), es[1..])
  }

  lemma {:induction false} LoopOfRun(s: Start, h: History, l: Loop, es: seq<Event>)
    ensures Run(s, h, l, es).1 == LoopAfter(l, es)
    decreases |es|
  {
    if es != [] {
      LoopOfRun(s, Record(s, h, l, es[0]), Step(l, es[0]), es[1..]);
    }
  }

  /** The attach goes on through all the events. */
  ghost predicate GoesOn(l: Loop, es: seq<Event>)
    decreases |es|
  {
    es == [] || (Step(l, es[0]).id == l.id && GoesOn(Step(l, es[0]), es[1..]))
  }

  /** One of the events answers the request for the size. */
  ghost predicate Served(l: Loop, es: seq<Event>, size: Size)
    decreases |es|
  {
    es != [] && (Serves(l, es[0], size) || Served(Step(l, es[0]), es[1..], size))
  }

  /** In every run of an attach that goes on, with a resize call available, a size that is wanted and is still the
      size of the pane is answered, or is in flight or waiting at the end: no request is forgotten. */
  lemma {:induction false} NoRequestIsForgotten(l: Loop, es: seq<Event>, size: Size)
    requires l.canResize && Wanted(l) == Some(size) && GoesOn(l, es)
    requires forall i :: 0 <= i < |es| ==> Capable(es[i]) && AtSize(es[i], size)
    ensures Served(l, es, size) || Wanted(LoopAfter(l, es)) == Some(size)
    decreases |es|
  {
    if es != [] && !Serves(l, es[0], size) {
      assert Capable(es[0]) && AtSize(es[0], size);
      StaysWanted(l, es[0], size);
      NoRequestIsForgotten(Step(l, es[0]), es[1..], size);
    }
  }

  /** In particular, a signal's size is answered, or in flight or waiting at the end. */
  lemma {:induction false} SignalIsServed(l: Loop, rows: nat, cols: nat, es: seq<Event>)
    requires l.canResize && Patient(l)
    requires GoesOn(l, [Signalled(rows, cols, true)] + es)
    requires forall i :: 0 <= i < |es| ==> Capable(es[i]) && AtSize(es[i], (rows, cols))
    ensures var l1 := Step(l, Signalled(rows, cols, true));
            Served(l1, es, (rows, cols)) || Wanted(LoopAfter(l1, es)) == Some((rows, cols))
  {
    var e := Signalled(rows, cols, true);
    assert ([e] + es)[1..] == es;
    SignalWants(l, e);
    NoRequestIsForgotten(Step(l, e), es, (rows, cols));
  }

  // ---------------------------------------------------------------- something to wait for

  /** What a waiting request waits for: an answer, a barrier or the rest of the replay. */
  predicate WaitsFor(l: Loop) {
    l.inFlight.Some? || l.pending.Some? || (!l.initialQueued && l.view.offset < l.replayEnd)
  }

  /** A request only waits when there is something to wait for. */
  predicate Patient(l: Loop) {
    l.queued.Some? ==> WaitsFor(l)
  }

  lemma {:induction false} FollowUpIsPatient(l: Loop, rows: nat, cols: nat, capable: bool)
    requires l.inFlight.None?
    ensures Patient(AfterChunk(l, rows, cols, capable))
  {
  }

  lemma {:induction false} ArrivalIsPatient(l: Loop, e: Event)
    requires Patient(l) && e.Arrived?
    ensures Patient(Step(l, e))
  {
    if e.chunk.id == l.id && l.inFlight.None? && !e.chunk.done {
      var (v, p) := ApplyChunk(l.view, l.pending, e.chunk);
      FollowUpIsPatient(l.(view := v, pending := p), e.rows, e.cols, e.capable);
    }
  }

  lemma {:induction false} AnswerIsPatient(l: Loop, e: Event)
    requires Patient(l) && e.Answered?
    ensures Patient(Step(l, e))
  {
  }

  lemma {:induction false} SignalIsPatient(l: Loop, e: Event)
    requires Patient(l) && e.Signalled?
    ensures Patient(Step(l, e))
  {
  }

  lemma {:induction false} StepIsPatient(l: Loop, e: Event)
    requires Patient(l)
    ensures Patient(Step(l, e))
  {
    match e
    case Arrived(_, _, _, _) => ArrivalIsPatient(l, e);
    case Answered(_, _, _) => AnswerIsPatient(l, e);
    case Signalled(_, _, _) => SignalIsPatient(l, e);
  }

  lemma {:induction false} RunIsPatient(l: Loop, es: seq<Event>)
    requires Patient(l)
    ensures Patient(LoopAfter(l, es))
    decreases |es|
  {
    if es != [] {
      StepIsPatient(l, es[0]);
      RunIsPatient(Step(l, es[0]), es[1..]);
    }
  }

  /** In every run of an attach, while a request waits there is a resize in flight, a pending barrier or an
      unfinished replay; so it does not wait for nothing. */
  lemma {:induction false} EveryRunIsPatient(s: Start, o: Opening, es: seq<Event>)
    ensures Patient(Outcome(s, o, es).1)
  {
    RunIsPatient(Opened(s, o), es);
    LoopOfRun(s, History([], [], []), Opened(s, o), es);
  }

  // ---------------------------------------------------------------- the replay comes first

  /** The read that reaches the end of the replay asks for the initial resize. */
  lemma {:induction false} ReplayEndsWithResize(l: Loop, rows: nat, cols: nat)
    requires l.canResize && l.inFlight.None? && !l.initialQueued && l.replayEnd <= l.view.offset
    ensures var l1 := AfterChunk(l, rows, cols, true); l1.initialQueued && Wanted(l1) == Some((rows, cols))
  {
  }

  /** A resize hides output until it is answered, so none is on its way before the replay has been shown. */
  predicate ReplayFirst(l: Loop) {
    l.inFlight.Some? || l.pending.Some? ==> l.initialQueued || l.replayEnd <= l.view.offset
  }

  predicate Counted(c: Chunk) {
    c.done || c.generation != 0
  }

  predicate AllCounted(cs: seq<Chunk>) {
    forall i :: 0 <= i < |cs| ==> Counted(cs[i])
  }

  lemma {:induction false} OffsetGrows(v: View, p: Option<Mark>, c: Chunk)
    requires c.generation != 0
    ensures v.offset <= ApplyChunk(v, p, c).0.offset
    ensures p.None? ==> ApplyChunk(v, p, c).1.None?
  {
  }

  lemma {:induction false} OffsetGrowsAll(v: View, p: Option<Mark>, cs: seq<Chunk>)
    requires AllCounted(cs)
    ensures v.offset <= Drain(v, p, cs).0.offset
    ensures p.None? ==> Drain(v, p, cs).1.None?
    decreases |cs|
  {
    if cs != [] && !cs[0].done {
      OffsetGrows(v, p, cs[0]);
      var (v1, p1) := ApplyChunk(v, p, cs[0]);
      OffsetGrowsAll(v1, p1, cs[1..]);
    }
  }

  lemma {:induction false} FollowUpAfterReplay(l: Loop, rows: nat, cols: nat, capable: bool)
    requires ReplayFirst(l)
    ensures ReplayFirst(AfterChunk(l, rows, cols, capable)) && AfterChunk(l, rows, cols, capable).buffered == l.buffered
  {
  }

  lemma {:induction false} ArrivalAfterReplay(l: Loop, e: Event)
    requires ReplayFirst(l) && AllCounted(l.buffered) && e.Arrived? && Counted(e.chunk)
    ensures ReplayFirst(Step(l, e)) && AllCounted(Step(l, e).buffered)
  {
    if e.chunk.id == l.id && l.inFlight.None? && !e.chunk.done {
      OffsetGrows(l.view, l.pending, e.chunk);
      var (v, p) := ApplyChunk(l.view, l.pending, e.chunk);
      FollowUpAfterReplay(l.(view := v, pending := p), e.rows, e.cols, e.capable);
    }
  }

  lemma {:induction false} AnswerAfterReplay(l: Loop, e: Event)
    requires ReplayFirst(l) && AllCounted(l.buffered) && e.Answered? && (e.id == l.id ==> l.inFlight.Some?)
    ensures ReplayFirst(Step(l, e)) && AllCounted(Step(l, e).buffered)
  {
    if e.id == l.id {
      var l1 := TakeAnswer(l, e.answer);
      OffsetGrowsAll(l1.view, l1.pending, l1.buffered);
    }
  }

  lemma {:induction false} StepAfterReplay(s: Start, h: History, l: Loop, e: Event)
    requires ReplayFirst(l) && AllCounted(l.buffered) && Enabled(s, h, l, e) && (e.Arrived? ==> Counted(e.chunk))
    ensures ReplayFirst(Step(l, e)) && AllCounted(Step(l, e).buffered)
  {
    match e
    case Arrived(_, _, _, _) => ArrivalAfterReplay(l, e);
    case Answered(_, _, _) => AnswerAfterReplay(l, e);
    case Signalled(_, _, _) =>
  }

  lemma {:induction false} RunAfterReplay(s: Start, h: History, l: Loop, es: seq<Event>)
    requires ReplayFirst(l) && AllCounted(l.buffered) && Legal(s, h, l, es)
    requires forall i :: 0 <= i < |es| && es[i].Arrived? ==> Counted(es[i].chunk)
    ensures ReplayFirst(Run(s, h, l, es).1)
    decreases |es|
  {
    if es != [] {
      assert es[0].Arrived? ==> Counted(es[0].chunk);
      StepAfterReplay(s, h, l, es[0]);
      RunAfterReplay(s, Record(s, h, l, es[0]), Step(l, es[0]), es[1..]);
    }
  }

  /** In every run no resize is sent before the replay has been shown. */
  lemma {:induction false} EveryRunShowsReplayFirst(s: Start, o: Opening, es: seq<Event>)
    requires LegalRun(s, o, es)
    requires forall i :: 0 <= i < |es| && es[i].Arrived? ==> Counted(es[i].chunk)
    ensures ReplayFirst(Outcome(s, o, es).1)
  {
    RunAfterReplay(s, History([], [], []), Opened(s, o), es);
  }
}
