/**
 The ordering of PTY output against framebuffer resizes (cmd/ducklord/main.go).

 Output of an attached session arrives in chunks tagged with byte offsets. A resize is a
 remote call: while it is in flight, chunks are buffered; it answers with a barrier, the
 stream offset at which the remote PTY changed size. The framebuffer has to be resized at
 exactly that byte, however the reads happened to be split.

 The framebuffer is a log of operations, one entry per byte written or resize performed.
 */
module AttachOutput {
  import opened Basics

  datatype Op = Put(b: byte) | Resize(rows: nat, cols: nat)

  /** A resize the remote side has performed, and the stream offset where it happened. */
  datatype Mark = Mark(id: nat, barrier: nat, rows: nat, cols: nat)

  /** One read of the attached stream; `done` marks the end of the attach. */
  datatype Chunk = Chunk(id: nat, text: seq<byte>, generation: nat, start: nat, end: nat, done: bool)

  /** The part of the interface state that output touches; `terminal` is None until the first write. */
  datatype View = View(terminal: Option<seq<Op>>, generation: nat, offset: nat, broken: bool)

  /** The event loop's variables for one attach; `inFlight` and `queued` are the sizes asked for and still to be
      asked for. */
  datatype Loop = Loop(
    id: nat, view: View,
    inFlight: Option<(nat, nat)>, pending: Option<Mark>, queued: Option<(nat, nat)>,
    buffered: seq<Chunk>, bufferedBytes: nat, sourceOpen: bool,
    canResize: bool, initialQueued: bool, replayEnd: nat)

  const MAX_BUFFERED: nat := 262144
  const READ_SIZE: nat := 4096

  // ---------------------------------------------------------------- transitions

  function Puts(text: seq<byte>): seq<Op> {
    seq(|text|, i requires 0 <= i < |text| => Put(text[i]))
  }

  function Log(v: View): seq<Op> {
    if v.terminal.Some? then v.terminal.value else []
  }

  function ResizeOp(m: Mark): Op {
    Resize(m.rows, m.cols)
  }

  function Write(v: View, text: seq<byte>, generation: nat, offset: nat): View {
    v.(terminal := Some(Log(v) + Puts(text)), generation := generation, offset := offset)
  }

  function ResizeView(v: View, m: Mark): View {
    v.(terminal := Some(Log(v) + [ResizeOp(m)]))
  }

  /** The continuity test a chunk of a non-zero generation has to pass. */
  predicate Continuous(generation: nat, offset: nat, c: Chunk) {
    && c.start <= c.end
    && c.end - c.start == |c.text|
    && (generation == 0 || c.generation == generation)
    && c.start == offset
  }

  function ApplyChunk(v: View, p: Option<Mark>, c: Chunk): (View, Option<Mark>) {
    if c.generation != 0 && !Continuous(v.generation, v.offset, c) then
      (v.(broken := true), None)
    else if p.Some? && p.value.id == c.id && c.generation == v.generation
            && c.start < p.value.barrier < c.end && p.value.barrier - c.start <= |c.text| then
      var split := p.value.barrier - c.start;
      var before := Write(v, c.text[..split], c.generation, p.value.barrier);
      (Write(ResizeView(before, p.value), c.text[split..], c.generation, c.end), None)
    else
      var due := p.Some? && p.value.id == c.id && p.value.barrier <= c.start;
      var v1 := if due && v.terminal.Some? then ResizeView(v, p.value) else v;
      var p1 := if due then None else p;
      var v2 := Write(v1, c.text, c.generation, c.end);
      // The original tests the resize it read on entry, so a resize already performed
      // above is only repeated when the chunk also ends at its barrier.
      if p.Some? && p.value.id == c.id && c.generation == v2.generation && c.end == p.value.barrier then
        (ResizeView(v2, p.value), None)
      else
        (v2, p1)
  }

  /** Applies buffered chunks in order; stops at an end-of-attach event. */
  function Drain(v: View, p: Option<Mark>, cs: seq<Chunk>): (View, Option<Mark>, bool)
    decreases |cs|
  {
    if cs == [] then (v, p, false)
    else if cs[0].done then (v, p, true)
    else
      var (v1, p1) := ApplyChunk(v, p, cs[0]);
      Drain(v1, p1, cs[1..])
  }

  function QueueResize(l: Loop, rows: nat, cols: nat, capable: bool): Loop {
    if !l.canResize || !capable then l
    else if !l.initialQueued && l.view.offset < l.replayEnd then l.(queued := Some((rows, cols)))
    else if l.inFlight.Some? || l.pending.Some? then l.(queued := Some((rows, cols)))
    else l.(inFlight := Some((rows, cols)))
  }

  function FinishAttach(l: Loop): Loop {
    Loop(l.id + 1, l.view, None, None, None, [], 0, true, false, false, 0)
  }

  function AfterChunk(l: Loop, rows: nat, cols: nat, capable: bool): Loop {
    var l1 := if !l.initialQueued && l.canResize && l.replayEnd <= l.view.offset
              then QueueResize(l.(initialQueued := true, queued := None), rows, cols, capable)
              else l;
    if l1.pending.None? && l1.queued.Some?
    then QueueResize(l1.(queued := None), rows, cols, capable)
    else l1
  }

  function OnChunk(l: Loop, c: Chunk, rows: nat, cols: nat, capable: bool): Loop {
    if c.id != l.id then l
    else if l.inFlight.Some? then
      var total := l.bufferedBytes + |c.text|;
      l.(buffered := l.buffered + [c], bufferedBytes := total, sourceOpen := l.sourceOpen && total < MAX_BUFFERED)
    else if c.done then FinishAttach(l)
    else
      var (v, p) := ApplyChunk(l.view, l.pending, c);
      AfterChunk(l.(view := v, pending := p), rows, cols, capable)
  }

  /** `answer` is None when the remote call failed. */
  function TakeAnswer(l: Loop, answer: Option<Mark>): Loop {
    if answer.None? || l.view.terminal.None? then l.(inFlight := None)
    else if l.view.offset < answer.value.barrier then l.(inFlight := None, pending := answer)
    else l.(inFlight := None, view := ResizeView(l.view, answer.value))
  }

  function DrainLoop(l: Loop): (Loop, bool) {
    var (v, p, completed) := Drain(l.view, l.pending, l.buffered);
    (l.(view := v, pending := p, buffered := [], bufferedBytes := 0, sourceOpen := true), completed)
  }

  function AfterDrain(l: Loop, completed: bool, capable: bool): Loop {
    if completed then FinishAttach(l)
    else if l.pending.None? && l.queued.Some?
    then l.(queued := None, inFlight := if capable then l.queued else l.inFlight)
    else l
  }

  function OnResult(l: Loop, id: nat, answer: Option<Mark>, capable: bool): Loop {
    if id != l.id then l
    else
      var (drained, completed) := DrainLoop(TakeAnswer(l, answer));
      AfterDrain(drained, completed, capable)
  }

  // ---------------------------------------------------------------- the event loop

  class AttachLoop {
    var attachId: nat
    var terminal: Option<seq<Op>>
    var terminalGeneration: nat
    var terminalOffset: nat
    var broken: bool
    var resizeInFlight: Option<(nat, nat)>
    var pending: Option<Mark>
    var queued: Option<(nat, nat)>
    var buffered: seq<Chunk>
    var bufferedBytes: nat
    var sourceOpen: bool
    var canResize: bool
    var initialQueued: bool
    var replayEnd: nat

    function CurrentView(): View
      reads this
    {
      View(terminal, terminalGeneration, terminalOffset, broken)
    }

    function State(): Loop
      reads this
    {
      Loop(attachId, CurrentView(), resizeInFlight, pending, queued, buffered, bufferedBytes, sourceOpen,
           canResize, initialQueued, replayEnd)
    }

    method ApplyAttachOutput(text: seq<byte>, generation: nat, offset: nat)
      modifies `terminal, `terminalGeneration, `terminalOffset
      ensures CurrentView() == Write(old(CurrentView()), text, generation, offset)
    {
      if terminal.None? {
        terminal := Some([]);
      }
      terminal := Some(terminal.value + Puts(text));
      terminalGeneration := generation;
      terminalOffset := offset;
    }

    method ResizeTerminal(m: Mark)
      requires terminal.Some?
      modifies `terminal
      ensures CurrentView() == ResizeView(old(CurrentView()), m)
    {
      terminal := Some(terminal.value + [ResizeOp(m)]);
    }

    method ApplyOrderedChunk(c: Chunk)
      modifies `terminal, `terminalGeneration, `terminalOffset, `broken, `pending
      ensures (CurrentView(), pending) == ApplyChunk(old(CurrentView()), old(pending), c)
    {
      if c.generation != 0 && !Continuous(terminalGeneration, terminalOffset, c) {
        broken := true;
        pending := None;
        return;
      }
      var resize := pending;
      if resize.Some? && resize.value.id == c.id && c.generation == terminalGeneration
         && c.start < resize.value.barrier < c.end && resize.value.barrier - c.start <= |c.text| {
        var split := resize.value.barrier - c.start;
        ApplyAttachOutput(c.text[..split], c.generation, resize.value.barrier);
        ResizeTerminal(resize.value);
        ApplyAttachOutput(c.text[split..], c.generation, c.end);
        pending := None;
        return;
      }
      if resize.Some? && resize.value.id == c.id && resize.value.barrier <= c.start {
        if terminal.Some? {
          ResizeTerminal(resize.value);
        }
        pending := None;
      }
      ApplyAttachOutput(c.text, c.generation, c.end);
      if resize.Some? && resize.value.id == c.id && c.generation == terminalGeneration
          && c.end == resize.value.barrier {
        ResizeTerminal(resize.value);
        pending := None;
      }
    }

    method DrainBuffered(events: seq<Chunk>) returns (completed: bool)
      modifies `terminal, `terminalGeneration, `terminalOffset, `broken, `pending
      ensures (CurrentView(), pending, completed) == Drain(old(CurrentView()), old(pending), events)
    {
      for index := 0 to |events|
        invariant Drain(old(CurrentView()), old(pending), events) == Drain(CurrentView(), pending, events[index..])
      {
        if events[index].done {
          return true;
        }
        ApplyOrderedChunk(events[index]);
        assert events[index..][1..] == events[index + 1..];
      }
      completed := false;
    }

    method RequestResize(rows: nat, cols: nat, capable: bool)
      modifies this
      ensures State() == QueueResize(old(State()), rows, cols, capable)
    {
      if !canResize || !capable {
        return;
      }
      if !initialQueued && terminalOffset < replayEnd {
        queued := Some((rows, cols));
        return;
      }
      if resizeInFlight.Some? || pending.Some? {
        queued := Some((rows, cols));
        return;
      }
      resizeInFlight := Some((rows, cols));
    }

    method ResetResize()
      modifies `resizeInFlight, `pending, `queued, `buffered, `bufferedBytes, `sourceOpen
      ensures resizeInFlight == None && pending == None && queued == None
      ensures buffered == [] && bufferedBytes == 0 && sourceOpen
    {
      resizeInFlight := None;
      pending := None;
      queued := None;
      buffered := [];
      bufferedBytes := 0;
      sourceOpen := true;
    }

    method EndAttach()
      modifies this
      ensures State() == FinishAttach(old(State()))
    {
      ResetResize();
      attachId := attachId + 1;
      canResize := false;
      initialQueued := false;
      replayEnd := 0;
    }

    /** Starts the initial resize once the replay has been shown, then a resize that had to wait. */
    method FollowUp(rows: nat, cols: nat, capable: bool)
      modifies this
      ensures State() == AfterChunk(old(State()), rows, cols, capable)
    {
      if !initialQueued && canResize && replayEnd <= terminalOffset {
        initialQueued := true;
        queued := None;
        RequestResize(rows, cols, capable);
      }
      if pending.None? && queued.Some? {
        queued := None;
        RequestResize(rows, cols, capable);
      }
    }

    method HandleChunk(c: Chunk, rows: nat, cols: nat, capable: bool)
      modifies this
      ensures State() == OnChunk(old(State()), c, rows, cols, capable)
    {
      if c.id != attachId {
        return;
      }
      if resizeInFlight.Some? {
        buffered := buffered + [c];
        bufferedBytes := bufferedBytes + |c.text|;
        if bufferedBytes >= MAX_BUFFERED {
          sourceOpen := false;
        }
        return;
      }
      if c.done {
        EndAttach();
        return;
      }
      ApplyOrderedChunk(c);
      FollowUp(rows, cols, capable);
    }

    method ReceiveAnswer(answer: Option<Mark>)
      modifies `terminal, `pending, `resizeInFlight
      ensures State() == TakeAnswer(old(State()), answer)
    {
      resizeInFlight := None;
      if answer.Some? {
        if terminal.Some? && terminalOffset < answer.value.barrier {
          pending := answer;
        } else if terminal.Some? {
          ResizeTerminal(answer.value);
        }
      }
    }

    method ReleaseBuffer() returns (completed: bool)
      modifies this
      ensures (State(), completed) == DrainLoop(old(State()))
    {
      completed := DrainBuffered(buffered);
      buffered := [];
      bufferedBytes := 0;
      sourceOpen := true;
    }

    method SettleAfterDrain(completed: bool, capable: bool)
      modifies this
      ensures State() == AfterDrain(old(State()), completed, capable)
    {
      if completed {
        EndAttach();
      } else if pending.None? && queued.Some? {
        if capable {
          resizeInFlight := queued;
        }
        queued := None;
      }
    }

    method HandleResult(id: nat, answer: Option<Mark>, capable: bool)
      modifies this
      ensures State() == OnResult(old(State()), id, answer, capable)
    {
      if id == attachId {
        ReceiveAnswer(answer);
        var completed := ReleaseBuffer();
        SettleAfterDrain(completed, capable);
      }
    }
  }
}
