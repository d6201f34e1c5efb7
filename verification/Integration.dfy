/**
 `duckway integrate ducklion` (cmd/client/ducklion_integration.go): the hand-over of the session
 daemon from its standalone manager to Duckway, with a compensating restore after every failure
 past the point where the standalone daemon was stopped.

 The marker file, the two daemons and the failures of each step are explicit. A `Plan` says how
 every step turns out, so a statement about all plans is a statement about all runs.
 */
module Integration {
  import opened Basics
  import opened Ordering

  datatype Mode = Standalone | Transitioning | Integrated

  /** What the run leaves behind on the host. */
  datatype World = World(marker: Mode, standalone: bool, integrated: bool)

  /** A stop that fails may or may not have ended the process. */
  datatype StopOutcome = Stopped | StopFailed(alive: bool)

  /** A start fails before there is a process, or because the process does not become ready. */
  datatype StartOutcome = Ready | NotSpawned | NotReady(alive: bool)

  // ---------------------------------------------------------------- verifying the inventory

  datatype Summary = Summary(id: string, channel: string, handle: string,
                             generation: nat, epoch: nat, writer: string, running: bool)

  /** The fields of a session that have to survive the hand-over. */
  datatype Handoff = Handoff(id: string, channel: string, handle: string, generation: nat, epoch: nat, writer: string)

  /** One attempt to question the new daemon; every answer can be missing. */
  datatype Probe =
    | Unreachable
    | Reply(instance: Option<string>, sessions: Option<seq<Summary>>, runtimes: Option<map<string, nat>>)

  function ToHandoff(s: Summary): Handoff {
    Handoff(s.id, s.channel, s.handle, s.generation, s.epoch, s.writer)
  }

  function Handoffs(ss: seq<Summary>): (hs: seq<Handoff>)
    ensures |hs| == |ss|
    ensures forall i :: 0 <= i < |ss| ==> hs[i] == ToHandoff(ss[i])
  {
    if ss == [] then [] else [ToHandoff(ss[0])] + Handoffs(ss[1..])
  }

  predicate ByID(a: Handoff, b: Handoff) {
    StringLess(a.id, b.id)
  }

  /** handoffInventory. */
  function Inventory(ss: seq<Summary>): seq<Handoff> {
    SortBy(ByID, Handoffs(ss))
  }

  lemma {:induction false} ByIDStrictWeak()
    ensures StrictWeak(ByID)
  {
    forall a: Handoff, b: Handoff | ByID(a, b)
      ensures !ByID(b, a)
    {
      StringLessAsymmetric(a.id, b.id);
    }
    forall a: Handoff, b: Handoff, c: Handoff | ByID(a, c)
      ensures ByID(a, b) || ByID(b, c)
    {
      StringLessWeak(a.id, b.id, c.id);
    }
  }

  ghost predicate DistinctIDs(ss: seq<Summary>) {
    forall i, j :: 0 <= i < j < |ss| ==> ss[i].id != ss[j].id
  }

  lemma {:induction false} InventoryComparable(ss: seq<Summary>)
    requires DistinctIDs(ss)
    ensures Comparable(ByID, Inventory(ss))
  {
    forall x, y | x in Inventory(ss) && y in Inventory(ss) && x != y
      ensures ByID(x, y) || ByID(y, x)
    {
      SortByMember(ByID, Handoffs(ss), x);
      SortByMember(ByID, Handoffs(ss), y);
      var i :| 0 <= i < |ss| && Handoffs(ss)[i] == x;
      var j :| 0 <= j < |ss| && Handoffs(ss)[j] == y;
      StringLessTotal(x.id, y.id);
    }
  }

  /** Comparing the sorted inventories compares the sets of sessions, generations, epochs and
      writers: the order in which the daemons list them does not matter. */
  lemma {:induction false} InventoriesAgreeIff(before: seq<Summary>, after: seq<Summary>)
    ensures Inventory(before) == Inventory(after) ==> multiset(Handoffs(before)) == multiset(Handoffs(after))
    ensures DistinctIDs(before) && multiset(Handoffs(before)) == multiset(Handoffs(after))
            ==> Inventory(before) == Inventory(after)
  {
    if DistinctIDs(before) && multiset(Handoffs(before)) == multiset(Handoffs(after)) {
      ByIDStrictWeak();
      SortBySorted(ByID, Handoffs(before));
      SortBySorted(ByID, Handoffs(after));
      InventoryComparable(before);
      SortedUnique(ByID, Inventory(before), Inventory(after));
    }
  }

  /** What has to survive the hand-over: the session, where it is reached, its runtime generation, the epoch and
      the writer. Whether it is running is not compared. */
  predicate SameSession(a: Summary, b: Summary) {
    && a.id == b.id && a.channel == b.channel && a.handle == b.handle
    && a.generation == b.generation && a.epoch == b.epoch && a.writer == b.writer
  }

  ghost predicate Lists(ss: seq<Summary>, s: Summary) {
    exists j :: 0 <= j < |ss| && SameSession(s, ss[j])
  }

  /** The same sessions, whatever the order. */
  ghost predicate SameSessions(before: seq<Summary>, after: seq<Summary>) {
    && (forall i :: 0 <= i < |before| ==> Lists(after, before[i]))
    && (forall j :: 0 <= j < |after| ==> Lists(before, after[j]))
  }

  lemma {:induction false} SameSessionIff(a: Summary, b: Summary)
    ensures ToHandoff(a) == ToHandoff(b) <==> SameSession(a, b)
  {
  }

  lemma {:induction false} HandoffListed(before: seq<Summary>, after: seq<Summary>, i: nat)
    requires multiset(Handoffs(before)) == multiset(Handoffs(after)) && i < |before|
    ensures Lists(after, before[i])
  {
    var x := Handoffs(before)[i];
    assert x in multiset(Handoffs(before));
    assert x in Handoffs(after);
    var j :| 0 <= j < |after| && Handoffs(after)[j] == x;
    SameSessionIff(before[i], after[j]);
  }

  /** With distinct ids a hand-over occurs once or not at all. */
  lemma {:induction false} HandoffOnce(ss: seq<Summary>, x: Handoff)
    requires DistinctIDs(ss)
    ensures multiset(Handoffs(ss))[x] == if x in Handoffs(ss) then 1 else 0
  {
    if ss != [] {
      var rest := ss[1..];
      assert DistinctIDs(rest);
      HandoffOnce(rest, x);
      assert Handoffs(ss) == [ToHandoff(ss[0])] + Handoffs(rest);
      forall j | 0 <= j < |rest|
        ensures Handoffs(rest)[j] != ToHandoff(ss[0])
      {
        assert rest[j] == ss[j + 1];
      }
    }
  }

  lemma {:induction false} SameHandoffs(before: seq<Summary>, after: seq<Summary>, x: Handoff)
    requires forall i :: 0 <= i < |before| ==> Lists(after, before[i])
    requires x in Handoffs(before)
    ensures x in Handoffs(after)
  {
    var i :| 0 <= i < |before| && Handoffs(before)[i] == x;
    assert Lists(after, before[i]);
    var j :| 0 <= j < |after| && SameSession(before[i], after[j]);
    SameSessionIff(before[i], after[j]);
    assert Handoffs(after)[j] == x;
  }

  /** For lists of distinct sessions, equal inventories mean that exactly the same sessions survived, each with its
      channel, handle, generation, epoch and writer. */
  lemma {:induction false} SameInventoryIff(before: seq<Summary>, after: seq<Summary>)
    ensures Inventory(before) == Inventory(after) ==> SameSessions(before, after)
    ensures DistinctIDs(before) && DistinctIDs(after) && SameSessions(before, after) ==>
              Inventory(before) == Inventory(after)
  {
    InventoriesAgreeIff(before, after);
    if Inventory(before) == Inventory(after) {
      forall i | 0 <= i < |before|
        ensures Lists(after, before[i])
      {
        HandoffListed(before, after, i);
      }
      forall j | 0 <= j < |after|
        ensures Lists(before, after[j])
      {
        HandoffListed(after, before, j);
      }
    }
    if DistinctIDs(before) && DistinctIDs(after) && SameSessions(before, after) {
      forall x
        ensures multiset(Handoffs(before))[x] == multiset(Handoffs(after))[x]
      {
        HandoffOnce(before, x);
        HandoffOnce(after, x);
        if x in Handoffs(before) {
          SameHandoffs(before, after, x);
        }
        if x in Handoffs(after) {
          SameHandoffs(after, before, x);
        }
      }
      assert multiset(Handoffs(before)) == multiset(Handoffs(after));
    }
  }

  /** The running sessions are served by the runtimes they had; a missing entry reads as zero. */
  predicate RuntimesReady(before: seq<Summary>, active: map<string, nat>) {
    forall i :: 0 <= i < |before| && before[i].running ==>
      (if before[i].id in active then active[before[i].id] else 0) == before[i].generation
  }

  predicate Verifies(instance: string, before: seq<Summary>, p: Probe) {
    && p.Reply? && p.instance == Some(instance)
    && p.sessions.Some? && Inventory(before) == Inventory(p.sessions.value)
    && p.runtimes.Some? && RuntimesReady(before, p.runtimes.value)
  }

  /** What an attempt must have shown: the instance, the same sessions, and for every running session the runtime of
      its generation. */
  ghost predicate Shown(instance: string, before: seq<Summary>, p: Probe) {
    && p.Reply? && p.instance == Some(instance)
    && p.sessions.Some? && SameSessions(before, p.sessions.value)
    && p.runtimes.Some?
    && (forall i :: 0 <= i < |before| && before[i].running && before[i].generation != 0 ==>
          before[i].id in p.runtimes.value && p.runtimes.value[before[i].id] == before[i].generation)
  }

  /** A verified attempt has shown all of that; and showing it is enough, with distinct ids and no running session of
      generation zero. */
  lemma {:induction false} VerifiesIff(instance: string, before: seq<Summary>, p: Probe)
    ensures Verifies(instance, before, p) ==> Shown(instance, before, p)
    ensures (&& Shown(instance, before, p) && DistinctIDs(before) && DistinctIDs(p.sessions.value)
             && (forall i :: 0 <= i < |before| && before[i].running ==> before[i].generation != 0))
            ==> Verifies(instance, before, p)
  {
    if p.Reply? && p.sessions.Some? {
      SameInventoryIff(before, p.sessions.value);
    }
  }

  method CheckRuntimes(before: seq<Summary>, active: map<string, nat>) returns (ready: bool)
    ensures ready <==> RuntimesReady(before, active)
  {
    ready := true;
    for i := 0 to |before|
      invariant ready <==> RuntimesReady(before[..i], active)
    {
      var generation := if before[i].id in active then active[before[i].id] else 0;
      assert before[..i + 1] == before[..i] + [before[i]];
      if before[i].running && generation != before[i].generation {
        assert before[..i + 1][i] == before[i];
        ready := false;
      }
    }
    assert before[..|before|] == before;
  }

  /** verifyIntegratedInventory: asks again until the deadline, here the end of `probes`. */
  method VerifyInventory(instance: string, before: seq<Summary>, probes: seq<Probe>) returns (verified: bool)
    ensures verified <==> exists k :: 0 <= k < |probes| && Verifies(instance, before, probes[k])
  {
    for k := 0 to |probes|
      invariant forall i :: 0 <= i < k ==> !Verifies(instance, before, probes[i])
    {
      var p := probes[k];
      if p.Reply? && p.instance == Some(instance) && p.sessions.Some? && p.runtimes.Some? {
        var same := Inventory(before) == Inventory(p.sessions.value);
        var ready := CheckRuntimes(before, p.runtimes.value);
        if same && ready {
          return true;
        }
      }
    }
    verified := false;
  }

  // ---------------------------------------------------------------- the protocol

  datatype Plan = Plan(
    locked: bool,                   // usage, configuration, update lock and management lock
    binaryValid: bool,
    inventory: Option<(string, seq<Summary>)>,  // instance and sessions read from the standalone daemon
    quiesced: bool,
    stop: StopOutcome,
    mark: WriteOutcome,
    located: bool,                  // the path of the running executable
    start: StartOutcome,
    probes: seq<Probe>,
    diesUnverified: bool,           // the new daemon exits by itself before the restore looks at it
    commit: WriteOutcome,
    undoStop: StopOutcome,
    undoMark: WriteOutcome,
    undoStart: StartOutcome)

  datatype Result =
    | Success
    | Refused          // nothing was touched
    | StopError        // the standalone daemon could not be stopped
    | Restored         // failed, and the standalone manager is back
    | RestoreFailed    // failed, and the restore failed too

  /** The gate of the hidden __ducklion_daemon command, started with DUCKWAY_INTEGRATE_DUCKLION=1. */
  predicate MayServe(marker: Mode) {
    marker == Integrated || marker == Transitioning
  }

  /** The live daemon is always the one the marker names, so there is never more than one. */
  ghost predicate Exclusive(w: World) {
    && !(w.standalone && w.integrated)
    && (w.standalone ==> w.marker == Standalone)
    && (w.integrated ==> MayServe(w.marker))
  }

  /** Every recorded state is exclusive and the last one is `final`. */
  ghost predicate SafeTrace(trace: seq<World>, final: World) {
    && trace != [] && trace[|trace| - 1] == final
    && forall i :: 0 <= i < |trace| ==> Exclusive(trace[i])
  }

  lemma {:induction false} SafeTraceJoins(a: seq<World>, fa: World, b: seq<World>, fb: World)
    requires SafeTrace(a, fa) && SafeTrace(b, fb)
    ensures SafeTrace(a + b, fb) && (a + b)[0] == a[0]
  {
  }

  function WriteMarker(w: World, mode: Mode, o: WriteOutcome): World {
    if o.FailedBefore? then w else w.(marker := mode)
  }

  function StopStandalone(w: World, o: StopOutcome): World {
    w.(standalone := w.standalone && o.StopFailed? && o.alive)
  }

  function StopIntegrated(w: World, o: StopOutcome): World {
    w.(integrated := w.integrated && o.StopFailed? && o.alive)
  }

  function StartIntegrated(w: World, o: StartOutcome): World {
    w.(integrated := MayServe(w.marker) && (o.Ready? || (o.NotReady? && o.alive)))
  }

  function StartStandalone(w: World, o: StartOutcome): World {
    w.(standalone := o.Ready? || (o.NotReady? && o.alive))
  }

  /** A started daemon lives if its process does, ready or not, the new one only where the marker lets it serve; a
      stopped one lives on only if the stop failed and left it alive. */
  lemma {:induction false} DaemonsLiveIff(w: World, started: StartOutcome, stopped: StopOutcome)
    ensures StartIntegrated(w, started).integrated <==>
              w.marker != Standalone && (started == Ready || started == NotReady(true))
    ensures StartStandalone(w, started).standalone <==> started == Ready || started == NotReady(true)
    ensures StopStandalone(w, stopped).standalone <==> w.standalone && stopped == StopFailed(true)
    ensures StopIntegrated(w, stopped).integrated <==> w.integrated && stopped == StopFailed(true)
  {
  }

  /** restoreStandalone: stop the new daemon if it runs, write the old marker, start the old daemon. */
  method RestoreStandalone(w: World, plan: Plan) returns (result: Result, final: World, trace: seq<World>)
    requires Exclusive(w) && !w.standalone
    ensures SafeTrace(trace, final)
    ensures result == if (w.integrated ==> plan.undoStop.Stopped?) && plan.undoMark.Written? && plan.undoStart.Ready?
                      then Restored else RestoreFailed
    ensures result == Restored ==> final == World(Standalone, true, false)
    ensures final.marker == Integrated <==> w.marker == Integrated && KeepsMarker(w, plan)
  {
    final := w;
    trace := [final];
    if final.integrated {
      final := StopIntegrated(final, plan.undoStop);
      trace := trace + [final];
      if plan.undoStop.StopFailed? {
        return RestoreFailed, final, trace;
      }
    }
    final := WriteMarker(final, Standalone, plan.undoMark);
    trace := trace + [final];
    if !plan.undoMark.Written? {
      return RestoreFailed, final, trace;
    }
    final := StartStandalone(final, plan.undoStart);
    trace := trace + [final];
    result := if plan.undoStart.Ready? then Restored else RestoreFailed;
  }

  /** The restore ends before the marker is replaced. */
  ghost predicate KeepsMarker(w: World, plan: Plan) {
    (w.integrated && plan.undoStop.StopFailed?) || plan.undoMark.FailedBefore?
  }

  /** The plan gets as far as stopping the standalone daemon. */
  ghost predicate Stops(w: World, plan: Plan) {
    && plan.locked && w.marker == Standalone && plan.binaryValid && w.standalone
    && plan.inventory.Some? && plan.quiesced && plan.stop.Stopped?
  }

  ghost predicate Verified(plan: Plan) {
    && plan.inventory.Some?
    && (exists k :: 0 <= k < |plan.probes| &&
          Verifies(plan.inventory.value.0, plan.inventory.value.1, plan.probes[k]))
  }

  /** The plan gets as far as writing the final marker. */
  ghost predicate Commits(w: World, plan: Plan) {
    Stops(w, plan) && Reaches(plan)
  }

  /** The only way to fail and still leave the host marked Integrated: the final marker write fails
      after its rename, and the restore can then neither stop the new daemon nor replace the marker. */
  ghost predicate StrandedIntegrated(w: World, plan: Plan) {
    && Commits(w, plan) && plan.commit.FailedAfter?
    && ((!plan.diesUnverified && plan.undoStop.StopFailed?) || plan.undoMark.FailedBefore?)
  }

  function Dying(w: World, plan: Plan): World {
    w.(integrated := w.integrated && !plan.diesUnverified)
  }

  /** The plan reaches the final marker write once the standalone daemon has stopped. */
  ghost predicate Reaches(plan: Plan) {
    plan.mark.Written? && plan.located && plan.start.Ready? && Verified(plan)
  }

  /** Marks the transition and starts the new daemon. */
  method StartNew(w: World, plan: Plan) returns (started: bool, now: World, trace: seq<World>)
    requires w == World(Standalone, false, false)
    ensures SafeTrace(trace, now) && !now.standalone && now.marker != Integrated
    ensures started <==> plan.mark.Written? && plan.located && plan.start.Ready?
    ensures started ==> now == World(Transitioning, false, true)
  {
    now := WriteMarker(w, Transitioning, plan.mark);
    trace := [now];
    if !plan.mark.Written? || !plan.located {
      return false, now, trace;
    }
    now := StartIntegrated(now, plan.start);
    trace := trace + [now];
    started := plan.start.Ready?;
  }

  /** Writes the final marker if the new daemon was verified. */
  method Commit(w: World, plan: Plan, verified: bool) returns (committed: bool, now: World, trace: seq<World>)
    requires w == World(Transitioning, false, true)
    ensures SafeTrace(trace, now) && !now.standalone
    ensures committed <==> verified && plan.commit.Written?
    ensures committed ==> now == World(Integrated, false, true)
    ensures now.marker == Integrated <==> verified && !plan.commit.FailedBefore?
    ensures !committed ==> now.integrated == !plan.diesUnverified
  {
    now := w;
    trace := [now];
    if verified {
      now := WriteMarker(now, Integrated, plan.commit);
      trace := trace + [now];
      if plan.commit.Written? {
        return true, now, trace;
      }
    }
    now := Dying(now, plan);
    trace := trace + [now];
    committed := false;
  }

  /** The second half of runIntegrateCommand, once the standalone daemon has stopped. */
  method TakeOver(w: World, plan: Plan) returns (result: Result, final: World, trace: seq<World>)
    requires w == World(Standalone, false, false) && plan.inventory.Some?
    ensures SafeTrace(trace, final)
    ensures result == Success <==> Reaches(plan) && plan.commit.Written?
    ensures result == Success ==> final == World(Integrated, false, true)
    ensures result == Restored ==> final == World(Standalone, true, false)
    ensures result == Success || result == Restored || result == RestoreFailed
    ensures result != Success ==>
              (final.marker == Integrated <==>
                 && Reaches(plan) && plan.commit.FailedAfter?
                 && ((!plan.diesUnverified && plan.undoStop.StopFailed?) || plan.undoMark.FailedBefore?))
  {
    var started, now, steps := StartNew(w, plan);
    if started {
      var verified := VerifyInventory(plan.inventory.value.0, plan.inventory.value.1, plan.probes);
      var committed, after, more := Commit(now, plan, verified);
      SafeTraceJoins(steps, now, more, after);
      now, steps := after, steps + more;
      if committed {
        return Success, now, steps;
      }
    }
    result, final, trace := RestoreStandalone(now, plan);
    SafeTraceJoins(steps, now, trace, final);
    trace := steps + trace;
  }

  lemma {:induction false} VerifiedIsShown(plan: Plan)
    requires Verified(plan)
    ensures plan.inventory.Some?
    ensures exists k ::
              0 <= k < |plan.probes| && Shown(plan.inventory.value.0, plan.inventory.value.1, plan.probes[k])
  {
    var (instance, before) := plan.inventory.value;
    var k :| 0 <= k < |plan.probes| && Verifies(instance, before, plan.probes[k]);
    VerifiesIff(instance, before, plan.probes[k]);
  }

  lemma {:induction false} StoppedTrace(w: World, o: StopOutcome)
    requires Exclusive(w)
    ensures SafeTrace([w, StopStandalone(w, o)], StopStandalone(w, o))
  {
  }

  /** runIntegrateCommand. The trace holds the state of the host after every step. */
  method Integrate(w: World, plan: Plan) returns (result: Result, final: World, trace: seq<World>)
    requires Exclusive(w)
    ensures SafeTrace(trace, final) && trace[0] == w
    ensures result == Success <==> Commits(w, plan) && plan.commit.Written?
    ensures result == Success ==> final == World(Integrated, false, true)
    ensures result == Success ==>
              && plan.inventory.Some?
              && exists k ::
                   0 <= k < |plan.probes| && Shown(plan.inventory.value.0, plan.inventory.value.1, plan.probes[k])
    ensures result == Refused ==> final == w
    ensures result == StopError ==> final.marker == Standalone && !final.integrated
    ensures result == Restored ==> final == World(Standalone, true, false)
    ensures result != Success && w.marker == Standalone ==>
              (final.marker == Integrated <==> StrandedIntegrated(w, plan))
  {
    trace := [w];
    if !plan.locked || w.marker != Standalone || !plan.binaryValid || !w.standalone
       || plan.inventory.None? || !plan.quiesced {
      return Refused, w, trace;
    }
    var now := StopStandalone(w, plan.stop);
    trace := [w, now];
    StoppedTrace(w, plan.stop);
    if plan.stop.StopFailed? {
      return StopError, now, trace;
    }
    var steps;
    result, final, steps := TakeOver(now, plan);
    if result == Success {
      VerifiedIsShown(plan);
    }
    SafeTraceJoins(trace, now, steps, final);
    trace := trace + steps;
  }

  /** The stranding plan exists: one sync error and one failed stop suffice. */
  lemma {:induction false} StrandedExample(inventory: seq<Summary>, runtimes: map<string, nat>)
    requires RuntimesReady(inventory, runtimes)
    ensures var probe := Reply(Some("i"), Some(inventory), Some(runtimes));
            StrandedIntegrated(World(Standalone, true, false),
                               Plan(true, true, Some(("i", inventory)), true, Stopped, Written, true, Ready, [probe],
                                    false, FailedAfter, StopFailed(true), Written, Ready))
  {
    var probe := Reply(Some("i"), Some(inventory), Some(runtimes));
    assert Verifies("i", inventory, [probe][0]);
  }
}
