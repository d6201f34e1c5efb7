/**
 Typing while the writer of a pane is being replaced: which keys go behind the fence, and that they come back, all
 of them and in order, as the first thing the new writer gets.
 */
module TypeAhead {
  import opened Basics
  import opened ReplayFence

  // ---------------------------------------------------------------- one key

  /** A hand-over is under way: the fence is up, nothing is queued, the pane has no focus and nothing else takes
      the input. */
  predicate Holding(s: State) {
    s.fence && !s.queued && !s.ui.focused && !s.ui.modal && !s.ui.projectFocus
  }

  /** Keyboard bytes go behind the fence exactly then: it is up, no replay is queued, the pane is unfocused or about
      to lose focus to navigation, no modal is open and the project pane is not focused, and neither a terminal
      tool nor a workspace shortcut takes them. A shortcut does not while bytes are fenced for the PTY. */
  lemma {:induction false} DefersIff(s: State, e: Event)
    requires Inv(s) && e.InputReady?
    ensures Step(s, e).actions == [Deferred(e.bytes)] <==>
              && s.fence && !s.queued && (!s.ui.focused || s.navigation) && !s.ui.modal && !s.ui.projectFocus
              && !e.tool && (!e.shortcut || s.toPTY)
  {
  }

  /** What is not put behind the fence is handled, and a queued replay comes before the keyboard. */
  lemma {:induction false} InputDecides(s: State, e: Event)
    requires Inv(s) && e.InputReady?
    ensures s.queued ==> Step(s, e).actions == [FromSlot(s.slot.value)]
    ensures !s.queued && Step(s, e).actions != [Deferred(e.bytes)] ==> Step(s, e).actions == [FromKeyboard(e.bytes)]
    ensures Step(s, e).state.deferred
         == if Step(s, e).actions == [Deferred(e.bytes)] then s.deferred + e.bytes else s.deferred
  {
  }

  /** In every run, no key is handled past the fence during a hand-over. */
  lemma {:induction false} NoKeyPassesTheFence(s: State, es: seq<Event>, b: Input)
    requires Inv(s) && Holding(Run(s, es).state)
    ensures Step(Run(s, es).state, InputReady(b, false, false)).actions == [Deferred(b)]
  {
    EveryRun(s, es);
    DefersIff(Run(s, es).state, InputReady(b, false, false));
  }

  // ---------------------------------------------------------------- when the fence opens

  /** A turn opens the fence exactly when the writer is ready and the slot is free. */
  lemma {:induction false} RetryOpensIff(s: State)
    requires Inv(s) && s.fence
    ensures !Step(s, TurnStarts).state.fence <==>
              s.ui.focused && !s.ui.modal && !s.ui.help && s.ui.writerMatches && !s.queued
  {
  }

  /** An accepted writer opens it unless older bytes are fenced and the slot is taken. */
  lemma {:induction false} WriterOpensIff(s: State, outputFocused: bool, mayAccept: bool)
    requires Inv(s) && s.fence
    ensures !Step(s, WriterAccepted(outputFocused, mayAccept)).state.fence <==>
              mayAccept && outputFocused && s.ui.writerMatches && !(s.queued && s.deferred != [])
  {
  }

  /** Bytes fenced for the PTY reach the focused pane; others are handled as workspace navigation, for which the
      pane gives up its focus. */
  lemma {:induction false} ReplayIsRouted(s: State, e: Event)
    requires Inv(s) && s.fence && s.deferred != [] && !s.queued && s.ui.focused && e.InputReady?
    ensures var after := Step(Release(s).state, e);
            after.actions == [FromSlot(s.deferred)] && (after.state.ui.focused <==> s.toPTY)
  {
  }

  // ---------------------------------------------------------------- typing ahead

  /** Every key is a turn of its own. */
  function Typing(keys: seq<Input>): seq<Event> {
    if keys == [] then [] else [TurnStarts, InputReady(keys[0], false, false)] + Typing(keys[1..])
  }

  function AllDeferred(keys: seq<Input>): seq<Action> {
    if keys == [] then [] else [Deferred(keys[0])] + AllDeferred(keys[1..])
  }

  lemma {:induction false} RunOne(s: State, e: Event, es: seq<Event>)
    requires !Step(s, e).blocked
    ensures var rest := Run(Step(s, e).state, es);
            Run(s, [e] + es) == Outcome(rest.state, Step(s, e).actions + rest.actions, rest.blocked)
  {
    assert ([e] + es)[0] == e && ([e] + es)[1..] == es;
  }

  lemma {:induction false} HoldingTurn(s: State, b: Input)
    requires Inv(s) && Holding(s)
    ensures Step(s, TurnStarts) == Quiet(s)
    ensures var o := Step(s, InputReady(b, false, false));
            && !o.blocked && o.actions == [Deferred(b)] && Inv(o.state) && Holding(o.state)
            && o.state.deferred == s.deferred + b && o.state.ui.writerMatches == s.ui.writerMatches
  {
  }

  /** Nothing typed is handled, and all of it is kept in order. */
  lemma {:induction false} TypingIsHeld(s: State, keys: seq<Input>)
    requires Inv(s) && Holding(s)
    ensures var o := Run(s, Typing(keys));
            && !o.blocked && o.actions == AllDeferred(keys) && Inv(o.state) && Holding(o.state)
            && o.state.deferred == s.deferred + Concat(keys) && o.state.ui.writerMatches == s.ui.writerMatches
    decreases |keys|
  {
    if keys == [] {
      assert s.deferred + [] == s.deferred;
    } else {
      var key, rest := InputReady(keys[0], false, false), Typing(keys[1..]);
      HoldingTurn(s, keys[0]);
      TwoInFront(TurnStarts, key, rest);
      RunOne(s, TurnStarts, [key] + rest);
      RunOne(s, key, rest);
      TypingIsHeld(Step(s, key).state, keys[1..]);
      Assoc(s.deferred, keys[0], Concat(keys[1..]));
      assert [] + ([Deferred(keys[0])] + AllDeferred(keys[1..])) == AllDeferred(keys);
    }
  }

  lemma {:induction false} AcceptReleases(s: State)
    requires Inv(s) && Holding(s) && s.ui.writerMatches && s.deferred != []
    ensures var o := Step(s, WriterAccepted(true, true));
            && !o.blocked && o.actions == [Released(s.deferred)] && Inv(o.state)
            && o.state.queued && o.state.slot == Some(s.deferred) && !o.state.fence && o.state.deferred == []
  {
  }

  /** After any typing during a hand-over, the accepted writer gets everything that was typed, in order, before any
      newer key. */
  lemma {:induction false} TypedAheadComesFirst(s: State, keys: seq<Input>, newer: Event)
    requires Inv(s) && Holding(s) && s.ui.writerMatches && s.deferred + Concat(keys) != [] && newer.InputReady?
    ensures var typed := s.deferred + Concat(keys);
            var held := Run(s, Typing(keys)).state;
            var accepted := Step(held, WriterAccepted(true, true));
            && Run(s, Typing(keys)).actions == AllDeferred(keys)
            && accepted.actions == [Released(typed)]
            && Step(accepted.state, newer).actions == [FromSlot(typed)]
  {
    TypingIsHeld(s, keys);
    var held := Run(s, Typing(keys)).state;
    AcceptReleases(held);
    SlotIsNext(Step(held, WriterAccepted(true, true)).state, newer);
  }

  // ---------------------------------------------------------------- raising and lowering the fence

  predicate Unfocused(ui: Interface) {
    !ui.focused && !ui.modal && !ui.projectFocus
  }

  /** A raised fence holds the next key behind what it already held, or behind nothing if that was discarded. */
  lemma {:induction false} RaisedFenceHolds(s: State, discard: bool, b: Input)
    requires Inv(s) && !s.queued && Unfocused(s.ui)
    ensures var o := Step(Step(s, FenceRaised(discard)).state, InputReady(b, false, false));
            o.actions == [Deferred(b)] && o.state.deferred == (if discard then [] else s.deferred) + b
  {
  }

  /** A lowered or cleared fence holds nothing: what it held is dropped and the next key is handled. */
  lemma {:induction false} LoweredFencePasses(s: State, e: Event, b: Input)
    requires Inv(s) && !s.queued && (e.FenceLowered? || e.FenceCleared?)
    ensures Step(s, e).actions == Drop(s)
    ensures Step(Step(s, e).state, InputReady(b, false, false)).actions == [FromKeyboard(b)]
  {
  }

  /** A replay that raises the fence is handled first; after it every key, a shortcut too, is held for the PTY. */
  lemma {:induction false} FencedReplayHolds(s: State, b: Input, first: Event, key: Event)
    requires Inv(s) && !s.queued && Unfocused(s.ui) && first.InputReady? && key.InputReady? && !key.tool
    ensures var s1 := Step(s, FencedReplay(b)).state;
            var o1 := Step(s1, first);
            var o2 := Step(o1.state, key);
            && o1.actions == [FromSlot(b)] && o2.actions == [Deferred(key.bytes)] && o2.state.deferred == key.bytes
  {
  }

  /** A fence that was opened, lowered and raised anew, or cleared, lets workspace shortcuts pass again: that bytes
      are meant for the PTY holds for one fence only. */
  lemma {:induction false} ShortcutsPassTheNextFence(s: State, b: Input)
    requires Inv(s) && s.fence && !s.queued && s.deferred == []
    ensures var after := Release(s).state;
            var cleared := Step(s, FenceCleared).state;
            && Step(Step(after, FenceRaised(false)).state, InputReady(b, false, true)).actions == [FromKeyboard(b)]
            && Step(Step(cleared, FenceRaised(false)).state, InputReady(b, false, true)).actions == [FromKeyboard(b)]
  {
  }

  lemma {:induction false} ReleaseForgetsRoute(s: State)
    requires Inv(s) && s.fence && !s.queued
    ensures !Release(s).state.toPTY && !Release(s).state.fence
  {
  }

  /** After clearing, the next input does not cost the pane its focus. */
  lemma {:induction false} ClearedKeepsFocus(s: State, e: Event)
    requires Inv(s) && e.InputReady?
    ensures Step(Step(s, FenceCleared).state, e).state.ui.focused == s.ui.focused
  {
  }
}
