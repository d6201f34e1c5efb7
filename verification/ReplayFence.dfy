/**
 The replay slot and the input fence of the workspace (workspaceInputReplay in cmd/ducklord/main.go).

 While the writer of a pane is being replaced, a fence holds back keyboard bytes. They are put back
 through a channel of capacity one that also carries local replays, such as a synthesized Enter.
 */
module ReplayFence {
  import opened Basics

  type Input = seq<byte>

  /** `slot` is the channel; the rest are the fields of the replay and of the interface it looks at. */
  datatype State = State(
    slot: Option<Input>, queued: bool, deferred: Input, navigation: bool, toPTY: bool, fence: bool, ui: Interface)

  datatype Interface = Interface(focused: bool, modal: bool, help: bool, projectFocus: bool, writerMatches: bool)

  /** What happens in the event loop. Every turn starts by retrying the release of the fence and can then go
      through several of the others, at most one of them being the input case. `InputReady` carries the
      keyboard bytes that would be read; `tool` and `shortcut` are the local routes that bypass the fence.
      `TimerReplay` is the pane-prefix timer with the bytes it finds to send, if any; it does not look at
      `queued`. */
  datatype Event =
    | TurnStarts
    | InputReady(bytes: Input, tool: bool, shortcut: bool)
    | LocalReplay(bytes: Input)
    | FencedReplay(bytes: Input)
    | TimerReplay(bytes: Input)
    | WriterAccepted(outputFocused: bool, mayAccept: bool)
    | FenceRaised(discard: bool)
    | FenceLowered
    | FenceCleared
    | InterfaceChanged(ui: Interface)

  /** What the loop does to bytes, in order. */
  datatype Action =
    | Deferred(bytes: Input)       // keyboard bytes go behind the fence
    | Released(bytes: Input)       // the fenced bytes go into the slot
    | Discarded(bytes: Input)      // the fenced bytes are dropped
    | FromSlot(bytes: Input)       // the slot is handled
    | FromKeyboard(bytes: Input)   // keyboard bytes are handled

  /** `blocked` means that the loop hangs in a send: it is the only receiver of the channel. */
  datatype Outcome = Outcome(state: State, actions: seq<Action>, blocked: bool)

  // ---------------------------------------------------------------- transitions

  function Quiet(s: State): Outcome {
    Outcome(s, [], false)
  }

  /** Sends to the channel on the way from s to s1; the send blocks when the slot is taken. */
  function Push(s: State, s1: State, b: Input, actions: seq<Action>): Outcome {
    if s.slot.Some? then Outcome(s, [], true) else Outcome(s1.(slot := Some(b), queued := true), actions, false)
  }

  /** releaseWorkspacePlacement. */
  function Release(s: State): Outcome {
    if !s.fence then Quiet(s)
    else if s.deferred == [] then Quiet(s.(toPTY := false, fence := false))
    else if s.queued then Quiet(s)
    else Push(s, s.(deferred := [], navigation := !s.toPTY, toPTY := false, fence := false), s.deferred,
        [Released(s.deferred)])
  }

  predicate Ready(s: State) {
    s.ui.focused && !s.ui.modal && !s.ui.help && s.ui.writerMatches
  }

  /** retryWorkspacePlacement, at the top of every turn. */
  function Retry(s: State): Outcome {
    if s.fence && Ready(s) && !s.queued then Release(s) else Quiet(s)
  }

  predicate ShouldDefer(s: State, replayed: bool) {
    s.fence && !s.ui.focused && !replayed && !s.ui.modal && !s.ui.projectFocus
  }

  /** The input case of the event loop up to the point where the bytes are handled or deferred. */
  function OnInput(s: State, e: Event): Outcome
    requires e.InputReady?
  {
    var replayed := s.queued;
    var b := if s.queued && s.slot.Some? then s.slot.value else e.bytes;
    var handled := if replayed then FromSlot(b) else FromKeyboard(b);
    var s1 := s.(slot := if replayed then None else s.slot, queued := false, navigation := false,
                 ui := s.ui.(focused := s.ui.focused && !s.navigation));
    if e.tool then Outcome(s1, [handled], false)
    else if ShouldDefer(s1, replayed) && !(e.shortcut && !(s1.toPTY && s1.fence))
    then Outcome(s1.(deferred := s1.deferred + b), [Deferred(b)], false)
    else Outcome(s1, [handled], false)
  }

  function Drop(s: State): seq<Action> {
    if s.deferred == [] then [] else [Discarded(s.deferred)]
  }

  function Focused(s: State): State {
    s.(ui := s.ui.(focused := true))
  }

  function Dropping(s: State, s1: State): Outcome {
    Outcome(s1.(deferred := []), Drop(s), false)
  }

  function Step(s: State, e: Event): Outcome {
    match e
    case TurnStarts => Retry(s)
    case InputReady(_, _, _) => OnInput(s, e)
    case LocalReplay(b) => if s.queued then Quiet(s) else Push(s, s, b, [])
    case FencedReplay(b) =>
      if s.queued then Quiet(s) else Push(s, s.(fence := true, toPTY := true, deferred := []), b, Drop(s))
    case TimerReplay(b) => if b == [] then Quiet(s) else Push(s, s, b, [])
    case WriterAccepted(outputFocused, mayAccept) =>
      if mayAccept && s.ui.writerMatches && outputFocused then Release(Focused(s)) else Quiet(s)
    case FenceRaised(discard) => if discard then Dropping(s, s.(fence := true)) else Quiet(s.(fence := true))
    case FenceLowered => Dropping(s, s.(fence := false))
    case FenceCleared => Dropping(s, s.(fence := false, navigation := false, toPTY := false))
    case InterfaceChanged(ui) => Quiet(s.(ui := ui))
  }

  // ---------------------------------------------------------------- the replay object

  class WorkspaceInputReplay {
    var slot: Option<Input>
    var queued: bool
    var deferred: Input
    var navigation: bool
    var toPTY: bool
    var fence: bool
    var focused: bool
    var modal: bool
    var help: bool
    var projectFocus: bool
    var writerMatches: bool

    function Current(): State
      reads this
    {
      State(slot, queued, deferred, navigation, toPTY, fence,
          Interface(focused, modal, help, projectFocus, writerMatches))
    }

    ghost predicate Valid()
      reads this
    {
      slot.Some? <==> queued
    }

    /** A send that cannot block. */
    method Send(b: Input)
      requires Valid() && !queued
      modifies `slot, `queued
      ensures Valid() && queued && slot == Some(b)
    {
      slot := Some(b);
      queued := true;
    }

    method ReleaseWorkspacePlacement()
      requires Valid()
      modifies this
      ensures Valid() && Release(old(Current())) == Outcome(Current(), Release(old(Current())).actions, false)
    {
      if !fence {
        return;
      }
      if deferred != [] {
        if queued {
          return;
        }
        Send(deferred);
        deferred := [];
        navigation := !toPTY;
      }
      toPTY := false;
      fence := false;
    }

    method RetryWorkspacePlacement()
      requires Valid()
      modifies this
      ensures Valid() && Retry(old(Current())) == Outcome(Current(), Retry(old(Current())).actions, false)
    {
      if fence && focused && !modal && !help && !queued && writerMatches {
        ReleaseWorkspacePlacement();
      }
    }

    /** acceptWorkspaceControlInput. */
    method AcceptControl(mayAccept: bool, outputFocused: bool) returns (accepted: bool)
      requires Valid()
      modifies this
      ensures Valid() && Current() == Step(old(Current()), WriterAccepted(outputFocused, mayAccept)).state
      ensures accepted <==> mayAccept && old(writerMatches) && outputFocused
      ensures accepted ==> focused
    {
      if !mayAccept || !writerMatches || !outputFocused {
        return false;
      }
      focused := true;
      ReleaseWorkspacePlacement();
      accepted := true;
    }

    /** The input case: `keyboard` is read only when no replay is queued. */
    method HandleInput(keyboard: Input, tool: bool, shortcut: bool) returns (handled: Option<Input>)
      requires Valid()
      modifies this
      ensures Valid() && Current() == OnInput(old(Current()), InputReady(keyboard, tool, shortcut)).state
      ensures handled.Some? ==> handled == (if old(queued) then old(slot) else Some(keyboard))
      ensures handled.None? ==> deferred == old(deferred) + (if old(queued) then old(slot).value else keyboard)
    {
      var b := if queued then slot.value else keyboard;
      var replayed := queued;
      if queued {
        slot := None;
        queued := false;
      }
      if navigation {
        focused := false;
      }
      navigation := false;
      if tool {
        return Some(b);
      }
      var asNavigation := shortcut && !(toPTY && fence);
      if ShouldDefer(Current(), replayed) && !asNavigation {
        deferred := deferred + b;
        return None;
      }
      handled := Some(b);
    }

    /** The send of the pane-prefix timer, if it has bytes to send; `blocked` if the loop would hang in it. */
    method SendFromTimer(b: Input) returns (blocked: bool)
      requires Valid()
      modifies `slot, `queued
      ensures Valid() && Step(old(Current()), TimerReplay(b)) == Outcome(Current(), [], blocked)
      ensures blocked <==> b != [] && old(queued)
    {
      if b == [] {
        return false;
      }
      if slot.Some? {
        return true;
      }
      slot := Some(b);
      queued := true;
      blocked := false;
    }
  }

  // ---------------------------------------------------------------- what every event keeps

  ghost predicate Inv(s: State) {
    && (s.slot.Some? <==> s.queued)
    && (!s.fence ==> s.deferred == [])
  }

  lemma {:induction false} ReleaseKeeps(s: State)
    requires Inv(s)
    ensures Inv(Release(s).state) && !Release(s).blocked
  {
  }

  lemma {:induction false} InputKeeps(s: State, e: Event)
    requires Inv(s) && e.InputReady?
    ensures Inv(OnInput(s, e).state) && !OnInput(s, e).blocked
  {
  }

  /** The timer fires and has bytes to send. */
  predicate HasBytes(e: Event) {
    e.TimerReplay? && e.bytes != []
  }

  lemma {:induction false} ReplayKeeps(s: State, e: Event)
    requires Inv(s) && (e.LocalReplay? || e.FencedReplay? || e.TimerReplay?)
    ensures Inv(Step(s, e).state)
    ensures Step(s, e).blocked <==> HasBytes(e) && s.queued
  {
  }

  lemma {:induction false} RaiseKeeps(s: State, e: Event)
    requires Inv(s) && e.FenceRaised?
    ensures Inv(Step(s, e).state) && !Step(s, e).blocked
    ensures Step(s, e).state.slot == s.slot && Step(s, e).state.queued == s.queued
    ensures Handled(Step(s, e).actions) == None
  {
  }

  lemma {:induction false} LowerKeeps(s: State, e: Event)
    requires Inv(s) && e.FenceLowered?
    ensures Inv(Step(s, e).state) && !Step(s, e).blocked
    ensures Step(s, e).state.slot == s.slot && Step(s, e).state.queued == s.queued
    ensures Handled(Step(s, e).actions) == None
  {
  }

  lemma {:induction false} ClearKeeps(s: State, e: Event)
    requires Inv(s) && e.FenceCleared?
    ensures Inv(Step(s, e).state) && !Step(s, e).blocked
    ensures Step(s, e).state.slot == s.slot && Step(s, e).state.queued == s.queued
    ensures Handled(Step(s, e).actions) == None
  {
  }

  lemma {:induction false} InterfaceKeeps(s: State, e: Event)
    requires Inv(s) && e.InterfaceChanged?
    ensures Inv(Step(s, e).state) && !Step(s, e).blocked
    ensures Step(s, e).state.slot == s.slot && Step(s, e).state.queued == s.queued
    ensures Handled(Step(s, e).actions) == None
  {
  }

  /** A guarded send never blocks; the send of the timer does exactly when a replay is queued. */
  lemma {:induction false} StepKeeps(s: State, e: Event)
    requires Inv(s)
    ensures Inv(Step(s, e).state)
    ensures Step(s, e).blocked <==> HasBytes(e) && s.queued
  {
    match e
    case TurnStarts => ReleaseKeeps(s);
    case InputReady(_, _, _) => InputKeeps(s, e);
    case WriterAccepted(_, _) => ReleaseKeeps(Focused(s));
    case LocalReplay(_) => ReplayKeeps(s, e);
    case FencedReplay(_) => ReplayKeeps(s, e);
    case TimerReplay(_) => ReplayKeeps(s, e);
    case FenceRaised(_) => RaiseKeeps(s, e);
    case FenceLowered => LowerKeeps(s, e);
    case FenceCleared => ClearKeeps(s, e);
    case InterfaceChanged(_) => InterfaceKeeps(s, e);
  }

  /** With a focused, matching writer and neither modal nor help, a turn that starts with older bytes fenced or
      a replay queued has a full slot: the replay, or else the fenced bytes, whole. */
  lemma {:induction false} OlderBytesFirst(s: State)
    requires Inv(s) && Ready(s) && (s.queued || s.deferred != [])
    ensures Retry(s).state.queued
    ensures Retry(s).state.slot == Some(Oldest(s))
  {
  }

  /** A queued replay is what the next input event handles, whole; keyboard bytes wait. */
  lemma {:induction false} SlotIsNext(s: State, e: Event)
    requires Inv(s) && s.queued && e.InputReady?
    ensures Step(s, e).actions == [FromSlot(s.slot.value)]
  {
  }

  /** No other event touches a queued replay or handles bytes. */
  lemma {:induction false} SlotIsKept(s: State, e: Event)
    requires Inv(s) && s.queued && !e.InputReady?
    ensures Step(s, e).state.slot == s.slot && Step(s, e).state.queued && Handled(Step(s, e).actions) == None
  {
    match e
    case WriterAccepted(_, _) => ReleaseQueued(Focused(s));
    case FenceRaised(_) => RaiseKeeps(s, e);
    case FenceLowered => LowerKeeps(s, e);
    case FenceCleared => ClearKeeps(s, e);
    case InterfaceChanged(_) => InterfaceKeeps(s, e);
    case _ =>
  }

  lemma {:induction false} ReleaseQueued(s: State)
    requires s.queued
    ensures Release(s).actions == [] && Release(s).state.slot == s.slot && Release(s).state.queued
  {
  }

  // ---------------------------------------------------------------- runs

  /** A run ends where the loop hangs. */
  function Run(s: State, es: seq<Event>): Outcome
    decreases |es|
  {
    if es == [] then Quiet(s)
    else
      var first := Step(s, es[0]);
      if first.blocked then first
      else
        var rest := Run(first.state, es[1..]);
        Outcome(rest.state, first.actions + rest.actions, rest.blocked)
  }

  /** The bytes that went behind the fence, and those that came out again, each in order. */
  ghost function In(actions: seq<Action>): Input {
    if actions == [] then [] else (if actions[0].Deferred? then actions[0].bytes else []) + In(actions[1..])
  }

  ghost function Out(actions: seq<Action>): Input {
    if actions == [] then []
    else (if actions[0].Released? || actions[0].Discarded? then actions[0].bytes else []) + Out(actions[1..])
  }

  /** The first bytes that are handled. */
  ghost function Handled(actions: seq<Action>): Option<Action> {
    if actions == [] then None
    else if actions[0].FromSlot? || actions[0].FromKeyboard? then Some(actions[0])
    else Handled(actions[1..])
  }

  lemma {:induction false} InConcat(a: seq<Action>, b: seq<Action>)
    ensures In(a + b) == In(a) + In(b)
    decreases |a|
  {
    if a == [] {
      assert a + b == b;
    } else {
      InConcat(a[1..], b);
      assert (a + b)[0] == a[0] && (a + b)[1..] == a[1..] + b;
      Assoc(if a[0].Deferred? then a[0].bytes else [], In(a[1..]), In(b));
    }
  }

  lemma {:induction false} OutConcat(a: seq<Action>, b: seq<Action>)
    ensures Out(a + b) == Out(a) + Out(b)
    decreases |a|
  {
    if a == [] {
      assert a + b == b;
    } else {
      OutConcat(a[1..], b);
      assert (a + b)[0] == a[0] && (a + b)[1..] == a[1..] + b;
      Assoc(if a[0].Released? || a[0].Discarded? then a[0].bytes else [], Out(a[1..]), Out(b));
    }
  }

  /** The fence is a queue: what it held and what went in is what came out and what it holds. */
  ghost predicate Balanced(held: Input, actions: seq<Action>, left: Input) {
    held + In(actions) == Out(actions) + left
  }

  lemma {:induction false} BalancedNone(held: Input)
    ensures Balanced(held, [], held)
  {
  }

  lemma {:induction false} BalancedOne(held: Input, a: Action, left: Input)
    requires a.Deferred? ==> left == held + a.bytes
    requires a.Released? || a.Discarded? ==> a.bytes == held && left == []
    requires a.FromSlot? || a.FromKeyboard? ==> left == held
    ensures Balanced(held, [a], left)
  {
  }

  lemma {:induction false} ReleaseBalanced(s: State)
    ensures Balanced(s.deferred, Release(s).actions, Release(s).state.deferred)
  {
    BalancedNone(s.deferred);
    BalancedOne(s.deferred, Released(s.deferred), []);
  }

  lemma {:induction false} DropBalanced(s: State)
    ensures Balanced(s.deferred, Drop(s), [])
  {
  }

  lemma {:induction false} InputBalanced(s: State, e: Event)
    requires e.InputReady?
    ensures Balanced(s.deferred, OnInput(s, e).actions, OnInput(s, e).state.deferred)
  {
    BalancedOne(s.deferred, OnInput(s, e).actions[0], OnInput(s, e).state.deferred);
  }

  lemma {:induction false} StepBalanced(s: State, e: Event)
    ensures Balanced(s.deferred, Step(s, e).actions, Step(s, e).state.deferred)
  {
    BalancedNone(s.deferred);
    match e
    case TurnStarts => ReleaseBalanced(s);
    case InputReady(_, _, _) => InputBalanced(s, e);
    case WriterAccepted(_, _) => ReleaseBalanced(Focused(s));
    case _ => OtherBalanced(s, e);
  }

  /** The other events change what is fenced only by dropping all of it. */
  lemma {:induction false} OtherActions(s: State, e: Event)
    requires !e.TurnStarts? && !e.InputReady? && !e.WriterAccepted?
    ensures || (Step(s, e).actions == [] && Step(s, e).state.deferred == s.deferred)
            || (Step(s, e).actions == Drop(s) && Step(s, e).state.deferred == [])
  {
  }

  lemma {:induction false} OtherBalanced(s: State, e: Event)
    requires !e.TurnStarts? && !e.InputReady? && !e.WriterAccepted?
    ensures Balanced(s.deferred, Step(s, e).actions, Step(s, e).state.deferred)
  {
    OtherActions(s, e);
    BalancedNone(s.deferred);
    DropBalanced(s);
  }

  lemma {:induction false} BalancedJoins(a: Input, xs: seq<Action>, b: Input, ys: seq<Action>, c: Input)
    requires Balanced(a, xs, b) && Balanced(b, ys, c)
    ensures Balanced(a, xs + ys, c)
  {
    InConcat(xs, ys);
    OutConcat(xs, ys);
    Assoc(a, In(xs), In(ys));
    Assoc(Out(xs), b, In(ys));
    Assoc(Out(xs), Out(ys), c);
  }

  /** In every run the slot is full exactly when `queued` is set and a lowered fence holds nothing; and the
      fence is a queue: the bytes that went in are those that came out, in order, then those still held. */
  lemma {:induction false} EveryRun(s: State, es: seq<Event>)
    requires Inv(s)
    ensures Inv(Run(s, es).state) && Balanced(s.deferred, Run(s, es).actions, Run(s, es).state.deferred)
    decreases |es|
  {
    if es == [] {
      BalancedNone(s.deferred);
    } else {
      StepKeeps(s, es[0]);
      StepBalanced(s, es[0]);
      var first := Step(s, es[0]);
      if !first.blocked {
        EveryRun(first.state, es[1..]);
        var rest := Run(first.state, es[1..]);
        BalancedJoins(s.deferred, first.actions, first.state.deferred, rest.actions, rest.state.deferred);
      }
    }
  }

  // ---------------------------------------------------------------- sends that block

  /** The i-th event is a send of the timer while a replay is queued. */
  ghost predicate TimerHitsSlot(s: State, es: seq<Event>, i: int) {
    0 <= i < |es| && HasBytes(es[i]) && Run(s, es[..i]).state.queued
  }

  lemma {:induction false} RunLater(s: State, es: seq<Event>, i: nat)
    requires 0 < i <= |es| && !Step(s, es[0]).blocked
    ensures Run(s, es[..i]).state == Run(Step(s, es[0]).state, es[1..][..i - 1]).state
  {
    assert es[..i][0] == es[0] && es[..i][1..] == es[1..][..i - 1];
  }

  lemma {:induction false} TimerLater(s: State, es: seq<Event>)
    requires es != [] && !Step(s, es[0]).blocked && !TimerHitsSlot(s, es, 0)
    ensures (exists i :: TimerHitsSlot(s, es, i)) <==> exists i :: TimerHitsSlot(Step(s, es[0]).state, es[1..], i)
  {
    var s1, rest := Step(s, es[0]).state, es[1..];
    if exists i :: TimerHitsSlot(s, es, i) {
      var i :| TimerHitsSlot(s, es, i);
      RunLater(s, es, i);
      assert TimerHitsSlot(s1, rest, i - 1);
    }
    if exists i :: TimerHitsSlot(s1, rest, i) {
      var i :| TimerHitsSlot(s1, rest, i);
      RunLater(s, es, i + 1);
      assert TimerHitsSlot(s, es, i + 1);
    }
  }

  /** Over every run: the loop hangs if and only if the timer fires while a replay is queued. So no guarded
      send ever blocks. */
  lemma {:induction false} RunBlocksIff(s: State, es: seq<Event>)
    requires Inv(s)
    ensures Run(s, es).blocked <==> exists i :: TimerHitsSlot(s, es, i)
    decreases |es|
  {
    if es != [] {
      StepKeeps(s, es[0]);
      assert es[..0] == [];
      assert TimerHitsSlot(s, es, 0) <==> Step(s, es[0]).blocked;
      if !Step(s, es[0]).blocked {
        var s1, rest := Step(s, es[0]).state, es[1..];
        RunBlocksIff(s1, rest);
        TimerLater(s, es);
      }
    }
  }

  /** A local replay and then the timer, from the empty state. */
  lemma {:induction false} TimerBlocksExample(b: Input, c: Input)
    requires c != []
    ensures var s := State(None, false, [], false, false, false, Interface(true, false, false, false, true));
            Inv(s) && Run(s, [TurnStarts, LocalReplay(b), TimerReplay(c)]).blocked
  {
    var s := State(None, false, [], false, false, false, Interface(true, false, false, false, true));
    var es := [TurnStarts, LocalReplay(b), TimerReplay(c)];
    assert es[1..] == [LocalReplay(b), TimerReplay(c)] && es[1..][1..] == [TimerReplay(c)];
    assert Step(s, TurnStarts) == Quiet(s);
    assert Run(Step(s, LocalReplay(b)).state, [TimerReplay(c)]).blocked;
  }

  // ---------------------------------------------------------------- the order of the bytes

  ghost predicate NoInput(es: seq<Event>) {
    forall i :: 0 <= i < |es| ==> !es[i].InputReady?
  }

  lemma {:induction false} SlotStays(s: State, es: seq<Event>)
    requires Inv(s) && s.queued && NoInput(es)
    ensures Run(s, es).state.queued && Run(s, es).state.slot == s.slot
    decreases |es|
  {
    if es != [] {
      SlotIsKept(s, es[0]);
      StepKeeps(s, es[0]);
      if !Step(s, es[0]).blocked {
        SlotStays(Step(s, es[0]).state, es[1..]);
      }
    }
  }

  /** The bytes that are due: the queued replay, or else what is fenced. */
  function Oldest(s: State): Input {
    if s.slot.Some? then s.slot.value else s.deferred
  }

  /** In every run, the input of a turn that starts with a focused matching writer, nothing open and older bytes
      fenced or queued handles those, whole, and never a newer keyboard byte; whatever the turn did in between. */
  lemma {:induction false} NeverOvertaken(s: State, before: seq<Event>, turn: seq<Event>, e: Event)
    requires Inv(s) && !Run(s, before).blocked && NoInput(turn) && e.InputReady?
    requires var s1 := Run(s, before).state; Ready(s1) && (s1.queued || s1.deferred != [])
    ensures var s1 := Run(s, before).state;
            Step(Run(s1, [TurnStarts] + turn).state, e).actions
            == [FromSlot(Oldest(s1))]
  {
    EveryRun(s, before);
    var s1 := Run(s, before).state;
    OlderBytesFirst(s1);
    StepKeeps(s1, TurnStarts);
    assert ([TurnStarts] + turn)[1..] == turn;
    var s2 := Retry(s1).state;
    SlotStays(s2, turn);
    EveryRun(s2, turn);
    SlotIsNext(Run(s2, turn).state, e);
  }

  lemma {:induction false} HandledConcat(a: seq<Action>, b: seq<Action>)
    ensures Handled(a + b) == if Handled(a).Some? then Handled(a) else Handled(b)
    decreases |a|
  {
    if a == [] {
      assert a + b == b;
    } else {
      HandledConcat(a[1..], b);
      assert (a + b)[0] == a[0] && (a + b)[1..] == a[1..] + b;
    }
  }

  lemma {:induction false} QueuedIsHandled(s: State, es: seq<Event>)
    requires Inv(s) && s.queued
    ensures Handled(Run(s, es).actions) in {None, Some(FromSlot(s.slot.value))}
    decreases |es|
  {
    if es != [] {
      StepKeeps(s, es[0]);
      var first := Step(s, es[0]);
      HandledConcat(first.actions, Run(first.state, es[1..]).actions);
      if es[0].InputReady? {
        SlotIsNext(s, es[0]);
      } else {
        SlotIsKept(s, es[0]);
        if !first.blocked {
          QueuedIsHandled(first.state, es[1..]);
        }
      }
    }
  }

  /** After every release the next bytes that are handled are the released ones. */
  ghost predicate ReleasedComeNext(actions: seq<Action>) {
    forall i :: 0 <= i < |actions| && actions[i].Released? ==>
      Handled(actions[i + 1..]) in {None, Some(FromSlot(actions[i].bytes))}
  }

  /** One event does at most one thing, and after a release the slot holds the released bytes. */
  lemma {:induction false} StepActions(s: State, e: Event)
    requires Inv(s)
    ensures |Step(s, e).actions| <= 1
    ensures Step(s, e).actions != [] && Step(s, e).actions[0].Released? ==>
              Step(s, e).state.queued && Step(s, e).state.slot == Some(Step(s, e).actions[0].bytes)
  {
  }

  lemma {:induction false} ReleasedJoin(a: seq<Action>, b: seq<Action>)
    requires |a| <= 1 && ReleasedComeNext(b)
    requires a != [] && a[0].Released? ==> Handled(b) in {None, Some(FromSlot(a[0].bytes))}
    ensures ReleasedComeNext(a + b)
  {
    if a == [] {
      assert a + b == b;
    } else {
      var c := a + b;
      assert c[0] == a[0] && c[1..] == b;
      forall i | 0 < i < |c| && c[i].Released?
        ensures Handled(c[i + 1..]) in {None, Some(FromSlot(c[i].bytes))}
      {
        assert c[i] == b[i - 1] && c[i + 1..] == b[i..];
      }
    }
  }

  /** In every run the first bytes handled after a release of the fence are exactly the released ones. */
  lemma {:induction false} EveryReleaseComesNext(s: State, es: seq<Event>)
    requires Inv(s)
    ensures ReleasedComeNext(Run(s, es).actions)
    decreases |es|
  {
    if es != [] {
      StepKeeps(s, es[0]);
      StepActions(s, es[0]);
      var first := Step(s, es[0]);
      if first.blocked {
        assert first.actions == [];
      } else {
        EveryReleaseComesNext(first.state, es[1..]);
        if first.actions != [] && first.actions[0].Released? {
          QueuedIsHandled(first.state, es[1..]);
        }
        ReleasedJoin(first.actions, Run(first.state, es[1..]).actions);
      }
    }
  }
}
