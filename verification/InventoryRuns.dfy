/** What every sequence of host updates keeps: rows, layout, freshness and the count of events. */
module InventoryRuns {
  import opened Basics
  import opened Ordering
  import opened Sessions
  import opened HostInventory

  // ---------------------------------------------------------------- one live update

  ghost function Running(rows: seq<Session>): set<Identity> {
    if rows == [] then {}
    else Running(rows[1..]) + (if rows[0].identity.Some? && !rows[0].stopped then {rows[0].identity.value} else {})
  }

  lemma {:induction false} RunningMembers(rows: seq<Session>, id: Identity)
    ensures id in Running(rows) <==>
              exists i :: 0 <= i < |rows| && rows[i].identity == Some(id) && !rows[i].stopped
  {
    if rows != [] {
      RunningMembers(rows[1..], id);
      if id in Running(rows[1..]) {
        var i :| 0 <= i < |rows[1..]| && rows[1..][i].identity == Some(id) && !rows[1..][i].stopped;
        assert rows[i + 1] == rows[1..][i];
      }
      if exists i :: 0 <= i < |rows| && rows[i].identity == Some(id) && !rows[i].stopped {
        var i :| 0 <= i < |rows| && rows[i].identity == Some(id) && !rows[i].stopped;
        if 0 < i {
          assert rows[1..][i - 1] == rows[i];
        }
      }
    }
  }

  lemma {:induction false} SweepLayout(w: Sweep, known: map<Identity, Counters>, rows: seq<Session>)
    ensures VisitAll(w, known, rows).layout == w.layout + Running(rows)
    ensures VisitAll(w, known, rows).stale == w.stale - Running(rows)
    decreases |rows|
  {
    if rows != [] {
      SweepLayout(Visit(w, known, rows[0]), known, rows[1..]);
    }
  }

  lemma {:induction false} OthersCount(rows: seq<Session>, client: string, x: Session)
    ensures multiset(Others(rows, client))[x] == if x.client == client then 0 else multiset(rows)[x]
  {
    if rows != [] {
      OthersCount(rows[..|rows| - 1], client, x);
      assert rows == rows[..|rows| - 1] + [rows[|rows| - 1]];
    }
  }

  lemma {:induction false} ForeignRows(u: Update, x: Session)
    requires Consistent(u) && x.client != u.client
    ensures multiset(u.sessions)[x] == 0
  {
  }

  /** A live update replaces exactly the rows of its own client. */
  lemma {:induction false} LiveRows(s: State, u: Update, x: Session)
    requires Accepts(s, u) && u.live
    ensures multiset(Apply(s, u).0.sessions)[x]
         == if x.client == u.client then multiset(u.sessions)[x] else multiset(s.sessions)[x]
  {
    OthersCount(s.sessions, u.client, x);
    if x.client != u.client {
      ForeignRows(u, x);
    }
  }

  /** After a live update the layout holds what runs in it, nothing else of that instance, and everything
      of other instances that was not a row of this client under this instance. */
  lemma {:induction false} LiveLayout(s: State, u: Update)
    requires Accepts(s, u) && u.live
    ensures Apply(s, u).0.layout
         == (s.layout - LayoutOf(s.layout, u.instance) - RowIdentities(s.sessions, u.client, u.instance))
             + Running(u.sessions)
    ensures forall id :: id in Apply(s, u).0.layout && id.instance == u.instance ==>
              exists i :: 0 <= i < |u.sessions| && u.sessions[i].identity == Some(id) && !u.sessions[i].stopped
  {
    SweepLayout(FirstSweep(s, u), KnownActivity(s.sessions, u.client), u.sessions);
    forall id | id in Apply(s, u).0.layout && id.instance == u.instance
      ensures exists i :: 0 <= i < |u.sessions| && u.sessions[i].identity == Some(id) && !u.sessions[i].stopped
    {
      RunningMembers(u.sessions, id);
    }
  }

  /** Rejected and non-live updates neither drop rows nor prune the layout. */
  lemma {:induction false} QuietUpdate(s: State, u: Update)
    requires !(Accepts(s, u) && u.live)
    ensures Apply(s, u).0.sessions == s.sessions && Apply(s, u).0.layout == s.layout
    ensures Apply(s, u).0.observed == s.observed && Apply(s, u).2 == []
    ensures !Accepts(s, u) ==> Apply(s, u).0 == s
  {
  }

  // ---------------------------------------------------------------- runs

  function Run(s: State, us: seq<Update>): (State, seq<Delta>)
    decreases |us|
  {
    if us == [] then (s, [])
    else
      var (s1, _, deltas) := Apply(s, us[0]);
      var (s2, more) := Run(s1, us[1..]);
      (s2, deltas + more)
  }

  /** The sessions of the last live update of the client that was accepted, if there is one. */
  ghost function Authoritative(s: State, us: seq<Update>, client: string): Option<seq<Session>>
    decreases |us|
  {
    if us == [] then None
    else
      var later := Authoritative(Apply(s, us[0]).0, us[1..], client);
      if later.Some? then later
      else if Accepts(s, us[0]) && us[0].live && us[0].client == client then Some(us[0].sessions)
      else None
  }

  /** After every run the rows of each client are those of its last accepted live update, whatever
      else was accepted or rejected. */
  lemma {:induction false} RowsAreAuthoritative(s: State, us: seq<Update>, x: Session)
    ensures var last := Authoritative(s, us, x.client);
            multiset(Run(s, us).0.sessions)[x] ==
              (if last.Some? then multiset(last.value)[x] else multiset(s.sessions)[x])
    decreases |us|
  {
    if us != [] {
      RowsAreAuthoritative(Apply(s, us[0]).0, us[1..], x);
      if Accepts(s, us[0]) && us[0].live {
        LiveRows(s, us[0], x);
      } else {
        QuietUpdate(s, us[0]);
      }
    }
  }

  /** The connection generation of a client never goes back. */
  lemma {:induction false} GenerationNeverDecreases(s: State, us: seq<Update>, client: string)
    ensures Previous(s.hostSync, client).generation <= Previous(Run(s, us).0.hostSync, client).generation
    decreases |us|
  {
    if us != [] {
      GenerationNeverDecreases(Apply(s, us[0]).0, us[1..], client);
    }
  }

  /** While the client stays in the generation of `prev` it stays with its instance. */
  ghost predicate KeepsInstance(prev: Update, us: seq<Update>, client: string) {
    forall i :: 0 <= i < |us| && us[i].client == client && us[i].generation == prev.generation ==>
        us[i].instance == prev.instance
  }

  ghost predicate Follows(prev: Update, u: Update) {
    Newer(prev, u) && (u.generation == prev.generation ==> u.instance == prev.instance)
  }

  lemma {:induction false} RunFollows(prev: Update, s: State, us: seq<Update>, client: string)
    requires Follows(prev, Previous(s.hostSync, client)) && KeepsInstance(prev, us, client)
    ensures Follows(prev, Previous(Run(s, us).0.hostSync, client))
    decreases |us|
  {
    if us != [] {
      forall i | 0 <= i < |us[1..]| && us[1..][i].client == client && us[1..][i].generation == prev.generation
        ensures us[1..][i].instance == prev.instance
      {
        assert us[1..][i] == us[i + 1];
      }
      RunFollows(prev, Apply(s, us[0]).0, us[1..], client);
    }
  }

  /** Under that condition the inventory shown for a client never goes back either. */
  lemma {:induction false} RevisionNeverDecreases(s: State, us: seq<Update>, client: string)
    requires KeepsInstance(Previous(s.hostSync, client), us, client)
    ensures Newer(Previous(s.hostSync, client), Previous(Run(s, us).0.hostSync, client))
  {
    RunFollows(Previous(s.hostSync, client), s, us, client);
  }

  predicate OlderThan(w: Update, client: string, prev: Update) {
    w.client == client && !Newer(prev, w)
  }

  /** An accepted update lets an update older than the one before it be accepted exactly when it names another
      instance within the same generation, and the one before it was not of revision zero. */
  lemma {:induction false} OlderUpdateAcceptedIff(s: State, u: Update)
    requires Accepts(s, u)
    ensures var prev := Previous(s.hostSync, u.client);
            (exists w :: Accepts(Apply(s, u).0, w) && OlderThan(w, u.client, prev))
            <==> u.generation == prev.generation && u.instance != prev.instance && 0 < prev.revision
  {
    var prev := Previous(s.hostSync, u.client);
    var w := Update(u.client, prev.generation, prev.instance, 0, false, []);
    if u.generation == prev.generation && u.instance != prev.instance && 0 < prev.revision {
      assert Accepts(Apply(s, u).0, w) && OlderThan(w, u.client, prev);
    }
  }

  /** No other alias has shown the inventory of `prev` or a newer one of its instance. */
  ghost predicate AliasesBehind(hostSync: map<string, Update>, client: string, prev: Update) {
    forall c :: c in hostSync && c != client && hostSync[c].live && hostSync[c].instance == prev.instance ==>
      hostSync[c].revision < prev.revision
  }

  lemma {:induction false} OlderInventoryNeeds(s: State, u: Update, w: Update)
    requires Accepts(s, u) && w.live && Accepts(Apply(s, u).0, w)
               && OlderThan(w, u.client, Previous(s.hostSync, u.client))
    ensures var prev := Previous(s.hostSync, u.client);
            && u.generation == prev.generation && u.instance != prev.instance && 0 < prev.revision
            && AliasesBehind(s.hostSync, u.client, prev)
  {
    var prev := Previous(s.hostSync, u.client);
    var sync := Apply(s, u).0.hostSync;
    assert sync == s.hostSync[u.client := u];
    assert w.instance == prev.instance && w.revision < prev.revision;
    forall c | c in s.hostSync && c != u.client && s.hostSync[c].live && s.hostSync[c].instance == prev.instance
      ensures s.hostSync[c].revision < prev.revision
    {
      assert AliasAllows(sync, w, c);
    }
  }

  lemma {:induction false} OlderInventoryFollows(s: State, u: Update)
    requires Accepts(s, u)
    requires var prev := Previous(s.hostSync, u.client);
             && u.generation == prev.generation && u.instance != prev.instance && 0 < prev.revision
             && AliasesBehind(s.hostSync, u.client, prev)
    ensures exists w: Update ::
              w.live && Accepts(Apply(s, u).0, w) && OlderThan(w, u.client, Previous(s.hostSync, u.client))
  {
    var prev := Previous(s.hostSync, u.client);
    var w := Update(u.client, prev.generation, prev.instance, prev.revision - 1, true, []);
    var sync := Apply(s, u).0.hostSync;
    assert sync == s.hostSync[u.client := u];
    forall c | c in sync
      ensures AliasAllows(sync, w, c)
    {
    }
    assert w.live && Accepts(Apply(s, u).0, w) && OlderThan(w, u.client, prev);
  }

  /** A live inventory older than the one before `u` can follow exactly when, besides, no other alias of that
      instance has shown an inventory as new: such an alias keeps the older rows out. */
  lemma {:induction false} OlderInventoryAcceptedIff(s: State, u: Update)
    requires Accepts(s, u)
    ensures var prev := Previous(s.hostSync, u.client);
            (exists w: Update :: w.live && Accepts(Apply(s, u).0, w) && OlderThan(w, u.client, prev))
            <==> && u.generation == prev.generation && u.instance != prev.instance && 0 < prev.revision
                 && AliasesBehind(s.hostSync, u.client, prev)
  {
    var prev := Previous(s.hostSync, u.client);
    if u.generation == prev.generation && u.instance != prev.instance && 0 < prev.revision
       && AliasesBehind(s.hostSync, u.client, prev) {
      OlderInventoryFollows(s, u);
    }
    if exists w: Update :: w.live && Accepts(Apply(s, u).0, w) && OlderThan(w, u.client, prev) {
      var w: Update :| w.live && Accepts(Apply(s, u).0, w) && OlderThan(w, u.client, prev);
      OlderInventoryNeeds(s, u, w);
    }
  }

  /** The condition is needed: an instance that changes within a generation lets an older inventory in. */
  lemma {:induction false} OlderInventoryAfterInstanceChange()
    ensures var s := State(None, map[], [], {}, map[]);
            var newer, other, older := Update("h", 1, "a", 5, true, []), Update("h", 1, "b", 0, true, []),
                Update("h", 1, "a", 3, true, []);
            && Previous(Run(s, [newer]).0.hostSync, "h") == newer
            && Previous(Run(s, [newer, other, older]).0.hostSync, "h") == older
  {
    var s := State(None, map[], [], {}, map[]);
    var newer, other, older := Update("h", 1, "a", 5, true, []), Update("h", 1, "b", 0, true, []),
        Update("h", 1, "a", 3, true, []);
    var s1 := Apply(s, newer).0;
    var s2 := Apply(s1, other).0;
    assert s1.hostSync == map["h" := newer];
    assert s2.hostSync == map["h" := other];
    var rest := [newer, other, older];
    assert rest[1..] == [other, older] && [other, older][1..] == [older] && [older][1..] == [] && [newer][1..] == [];
    assert Run(s, [newer]).0 == s1;
    assert Run(s2, [older]).0 == Apply(s2, older).0;
    assert Run(s1, [other, older]).0 == Apply(s2, older).0;
  }

  // ---------------------------------------------------------------- which hosts are accepted

  /** A host that is not configured never gets anything in. */
  lemma {:induction false} UnknownHostIsRejected(s: State, u: Update)
    requires u.client == "" || (s.configured.Some? && u.client !in s.configured.value)
    ensures Apply(s, u) == (s, false, [])
  {
  }

  ghost predicate Configured(s: State, client: string) {
    client != "" && (s.configured.Some? ==> client in s.configured.value)
  }

  function Nothing(configured: Option<set<string>>): State {
    State(configured, map[], [], {}, map[])
  }

  /** The first inventory of a configured host is shown, as long as its rows are its own. */
  lemma {:induction false} FirstInventoryIsShown(configured: Option<set<string>>, u: Update)
    requires Configured(Nothing(configured), u.client) && u.live
    requires forall i :: 0 <= i < |u.sessions| ==>
               u.sessions[i].client == u.client && u.sessions[i].instance == u.instance
    ensures Apply(Nothing(configured), u).1
    ensures multiset(Apply(Nothing(configured), u).0.sessions) == multiset(u.sessions)
  {
    assert Others([], u.client) + u.sessions == u.sessions;
  }

  /** An inventory with a row of another host or instance is rejected as a whole. */
  lemma {:induction false} MixedInventoryIsRejected(s: State, u: Update, i: nat)
    requires u.live && i < |u.sessions| && (u.sessions[i].client != u.client || u.sessions[i].instance != u.instance)
    ensures Apply(s, u) == (s, false, [])
  {
  }

  /** A new connection of a configured host is accepted whatever it was before. */
  lemma {:induction false} NewConnectionIsAccepted(s: State, u: Update)
    requires Configured(s, u.client) && Previous(s.hostSync, u.client).generation < u.generation && !u.live
    ensures Apply(s, u).1 && Previous(Apply(s, u).0.hostSync, u.client) == u
  {
  }

  /** An update that is sent again is accepted again and changes no row. */
  lemma {:induction false} ResendIsAccepted(s: State, u: Update, x: Session)
    requires Accepts(s, u)
    ensures Accepts(Apply(s, u).0, u)
    ensures multiset(Apply(Apply(s, u).0, u).0.sessions)[x] == multiset(Apply(s, u).0.sessions)[x]
  {
    var s1 := Apply(s, u).0;
    assert s1.hostSync == s.hostSync[u.client := u];
    if u.live {
      forall c | c in s1.hostSync
        ensures AliasAllows(s1.hostSync, u, c)
      {
        assert c != u.client ==> AliasAllows(s.hostSync, u, c);
      }
      LiveRows(s, u, x);
      LiveRows(s1, u, x);
    }
  }

  ghost predicate OnlyConfigured(s: State) {
    forall c :: c in s.hostSync ==> Configured(s, c)
  }

  lemma {:induction false} StepOnlyConfigured(s: State, u: Update)
    requires OnlyConfigured(s)
    ensures OnlyConfigured(Apply(s, u).0) && Apply(s, u).0.configured == s.configured
  {
  }

  lemma {:induction false} RunOnlyConfigured(s: State, us: seq<Update>)
    requires OnlyConfigured(s)
    ensures OnlyConfigured(Run(s, us).0) && Run(s, us).0.configured == s.configured
    decreases |us|
  {
    if us != [] {
      StepOnlyConfigured(s, us[0]);
      RunOnlyConfigured(Apply(s, us[0]).0, us[1..]);
    }
  }

  /** After every run from the start, only configured hosts have been heard, and each of them can connect anew. */
  lemma {:induction false} EveryRunHearsConfigured(configured: Option<set<string>>, us: seq<Update>, u: Update)
    requires Configured(Nothing(configured), u.client) && !u.live
    ensures var s := Run(Nothing(configured), us).0;
            && (configured.Some? ==> s.hostSync.Keys <= configured.value)
            && (Previous(s.hostSync, u.client).generation < u.generation ==> Apply(s, u).1)
  {
    RunOnlyConfigured(Nothing(configured), us);
    var s := Run(Nothing(configured), us).0;
    if Previous(s.hostSync, u.client).generation < u.generation {
      NewConnectionIsAccepted(s, u);
    }
  }

  // ---------------------------------------------------------------- the order of the rows

  lemma {:induction false} RowLessAsymmetric(a: Session, b: Session)
    requires RowLess(a, b)
    ensures !RowLess(b, a)
  {
    if StringLess(a.group, b.group) {
      StringLessAsymmetric(a.group, b.group);
    }
    if StringLess(a.client, b.client) {
      StringLessAsymmetric(a.client, b.client);
    }
    if StringLess(a.name, b.name) {
      StringLessAsymmetric(a.name, b.name);
    }
    if StringLess(Key(a), Key(b)) {
      StringLessAsymmetric(Key(a), Key(b));
    }
  }

  lemma {:induction false} RowLessWeak(a: Session, b: Session, c: Session)
    requires RowLess(a, c)
    ensures RowLess(a, b) || RowLess(b, c)
  {
    StringBetween(a.group, b.group, c.group);
    if a.group == b.group == c.group {
      StringBetween(a.client, b.client, c.client);
      if a.client == b.client == c.client {
        StringBetween(a.name, b.name, c.name);
        if a.name == b.name == c.name {
          StringLessWeak(Key(a), Key(b), Key(c));
        }
      }
    }
  }

  lemma {:induction false} RowLessIsStrictWeak()
    ensures StrictWeak(RowLess)
  {
    forall a: Session, b: Session | RowLess(a, b)
      ensures !RowLess(b, a)
    {
      RowLessAsymmetric(a, b);
    }
    forall a: Session, b: Session, c: Session | RowLess(a, c)
      ensures RowLess(a, b) || RowLess(b, c)
    {
      RowLessWeak(a, b, c);
    }
  }

  lemma {:induction false} NotLess(a: Session, b: Session)
    requires !RowLess(b, a)
    ensures !StringLess(b.group, a.group)
    ensures a.group == b.group ==> !StringLess(b.client, a.client)
    ensures a.group == b.group && a.client == b.client ==> !StringLess(b.name, a.name)
  {
    StringLessIrreflexive(a.group);
    StringLessIrreflexive(a.client);
    StringLessIrreflexive(a.name);
  }

  /** After a live update the rows are ordered by group, within a group by host, and for a host by name. */
  lemma {:induction false} LiveRowsAreOrdered(s: State, u: Update, i: nat, j: nat)
    requires Accepts(s, u) && u.live && i < j < |Apply(s, u).0.sessions|
    ensures var a, b := Apply(s, u).0.sessions[i], Apply(s, u).0.sessions[j];
            && !StringLess(b.group, a.group)
            && (a.group == b.group ==> !StringLess(b.client, a.client))
            && (a.group == b.group && a.client == b.client ==> !StringLess(b.name, a.name))
  {
    RowLessIsStrictWeak();
    SortBySorted(RowLess, Others(s.sessions, u.client) + u.sessions);
    NotLess(Apply(s, u).0.sessions[i], Apply(s, u).0.sessions[j]);
  }

  // ---------------------------------------------------------------- counting events

  /** The rows that pass through notificationDeltas, in order. */
  ghost function Seen(s: State, us: seq<Update>): seq<Session>
    decreases |us|
  {
    if us == [] then []
    else Processed(s, us[0]) + Seen(Apply(s, us[0]).0, us[1..])
  }

  ghost function ObserveAll(observed: map<Identity, Counters>, rows: seq<Session>): map<Identity, Counters>
    decreases |rows|
  {
    if rows == [] then observed
    else ObserveAll(ObserveRow(observed, rows[0]), rows[1..])
  }

  ghost function ObserveRow(observed: map<Identity, Counters>, r: Session): map<Identity, Counters> {
    if r.identity.Some? then Observe(observed, r.identity.value, r.activity) else observed
  }

  /** The remote counters never decrease. */
  ghost predicate NonDecreasing(observed: map<Identity, Counters>, rows: seq<Session>)
    decreases |rows|
  {
    rows == [] ||
    (&& (rows[0].identity.Some? ==> Above(Mine(observed, rows[0].identity.value), rows[0].activity))
     && NonDecreasing(ObserveRow(observed, rows[0]), rows[1..]))
  }

  ghost predicate Above(low: Counters, high: Counters) {
    forall c :: c in low && c in high ==> low[c] <= high[c]
  }

  /** Everything in `low` is in `high` and not below it. */
  ghost predicate Covered(low: Counters, high: Counters) {
    forall c :: c in low ==> c in high && low[c] <= high[c]
  }

  ghost predicate KnownCovered(known: map<Identity, Counters>, observed: map<Identity, Counters>) {
    forall id :: id in known ==> id in observed && Covered(known[id], observed[id])
  }

  ghost predicate RowsCovered(rows: seq<Session>, observed: map<Identity, Counters>) {
    forall i :: 0 <= i < |rows| && rows[i].identity.Some? ==>
      rows[i].identity.value in observed && Covered(rows[i].activity, observed[rows[i].identity.value])
  }

  ghost function Sum(deltas: seq<Delta>, id: Identity, c: string): nat {
    if deltas == [] then 0
    else (if deltas[0].identity == id then At(deltas[0].counts, c) else 0) + Sum(deltas[1..], id, c)
  }

  /** The counter at the first sighting; absent counts as zero. */
  ghost function FirstValue(rows: seq<Session>, id: Identity, c: string): nat {
    if rows == [] then 0
    else if rows[0].identity == Some(id) then At(rows[0].activity, c)
    else FirstValue(rows[1..], id, c)
  }

  /** The last counter shown; zero if it was never shown. */
  ghost function LastValue(rows: seq<Session>, id: Identity, c: string): nat {
    if rows == [] then 0
    else
      var r := rows[|rows| - 1];
      if r.identity == Some(id) && c in r.activity then r.activity[c] else LastValue(rows[..|rows| - 1], id, c)
  }

  lemma {:induction false} SumConcat(a: seq<Delta>, b: seq<Delta>, id: Identity, c: string)
    ensures Sum(a + b, id, c) == Sum(a, id, c) + Sum(b, id, c)
  {
    if a == [] {
      assert a + b == b;
    } else {
      SumConcat(a[1..], b, id, c);
      assert (a + b)[1..] == a[1..] + b;
    }
  }

  /** For counters that do not decrease, the new events of a known session are exactly the increment. */
  lemma {:induction false} DeltaIsIncrement(observed: map<Identity, Counters>, id: Identity, before: Option<Counters>,
                                            current: Counters, c: string)
    requires before.Some? ==> id in observed && Covered(before.value, observed[id])
    requires Above(Mine(observed, id), current)
    ensures At(Deltas(observed, id, before, current), c)
         == if id in observed && c in current then current[c] - At(Mine(observed, id), c) else 0
  {
  }

  ghost function Tally(observed: map<Identity, Counters>, id: Identity, c: string): nat {
    At(Mine(observed, id), c)
  }

  lemma {:induction false} VisitDeltas(w: Sweep, known: map<Identity, Counters>, r: Session, id: Identity, c: string)
    requires KnownCovered(known, w.observed)
    requires r.identity.Some? ==> Above(Mine(w.observed, r.identity.value), r.activity)
    ensures var w1 := Visit(w, known, r);
            && KnownCovered(known, w1.observed)
            && w1.observed == ObserveRow(w.observed, r)
            && (id in w.observed ==> id in w1.observed)
            && (id in w1.observed <==> id in w.observed || r.identity == Some(id))
            && Sum(w1.deltas, id, c) - Sum(w.deltas, id, c) ==
                 (if id in w.observed then Tally(w1.observed, id, c) - Tally(w.observed, id, c) else 0)
            && (id !in w.observed && r.identity == Some(id) ==> Tally(w1.observed, id, c) == At(r.activity, c))
  {
    var w1 := Visit(w, known, r);
    if r.identity.Some? {
      var rid := r.identity.value;
      var before := if rid in known then Some(known[rid]) else None;
      DeltaIsIncrement(w.observed, rid, before, r.activity, c);
      var d := Delta(rid, Deltas(w.observed, rid, before, r.activity));
      SumConcat(w.deltas, [d], id, c);
      assert [d][1..] == [];
      assert Sum([d], id, c) == if rid == id then At(d.counts, c) else 0;
    }
  }

  /** The events counted over a sweep are the growth of the counter since it was first seen. */
  lemma {:induction false} SweepCounts(w: Sweep, known: map<Identity, Counters>, rows: seq<Session>, id: Identity,
                                       c: string)
    requires KnownCovered(known, w.observed) && NonDecreasing(w.observed, rows)
    ensures var end := VisitAll(w, known, rows);
            && end.observed == ObserveAll(w.observed, rows)
            && (id in w.observed ==> id in end.observed)
            && Sum(end.deltas, id, c) - Sum(w.deltas, id, c) ==
                 (if id in w.observed then Tally(end.observed, id, c) - Tally(w.observed, id, c)
                  else Tally(end.observed, id, c) - FirstValue(rows, id, c))
    decreases |rows|
  {
    if rows != [] {
      var w1 := Visit(w, known, rows[0]);
      VisitDeltas(w, known, rows[0], id, c);
      SweepCounts(w1, known, rows[1..], id, c);
    }
  }

  /** What a client is known to have shown are counters of its own rows. */
  lemma {:induction false} KnownIsOwn(rows: seq<Session>, client: string, id: Identity)
    requires id in KnownActivity(rows, client)
    ensures exists i :: && 0 <= i < |rows| && rows[i].client == client && rows[i].identity == Some(id)
                        && rows[i].activity == KnownActivity(rows, client)[id]
  {
    var front, r := rows[..|rows| - 1], rows[|rows| - 1];
    if !(r.client == client && r.identity == Some(id)) {
      KnownIsOwn(front, client, id);
      var i :| && 0 <= i < |front| && front[i].client == client && front[i].identity == Some(id)
               && front[i].activity == KnownActivity(front, client)[id];
      assert rows[i] == front[i];
    }
  }

  lemma {:induction false} KnownIsCovered(rows: seq<Session>, client: string, observed: map<Identity, Counters>)
    requires RowsCovered(rows, observed)
    ensures KnownCovered(KnownActivity(rows, client), observed)
  {
    if rows != [] {
      KnownIsCovered(rows[..|rows| - 1], client, observed);
    }
  }

  lemma {:induction false} ObserveAllCovers(observed: map<Identity, Counters>, rows: seq<Session>)
    requires NonDecreasing(observed, rows)
    ensures forall id :: id in observed ==>
              id in ObserveAll(observed, rows) && Covered(observed[id], ObserveAll(observed, rows)[id])
    ensures RowsCovered(rows, ObserveAll(observed, rows))
    decreases |rows|
  {
    if rows != [] {
      var o1 := ObserveRow(observed, rows[0]);
      ObserveAllCovers(o1, rows[1..]);
      assert forall i :: 0 < i < |rows| ==> rows[i] == rows[1..][i - 1];
    }
  }

  lemma {:induction false} ObserveAllConcat(observed: map<Identity, Counters>, a: seq<Session>, b: seq<Session>)
    ensures ObserveAll(observed, a + b) == ObserveAll(ObserveAll(observed, a), b)
    ensures NonDecreasing(observed, a + b) ==> NonDecreasing(observed, a) && NonDecreasing(ObserveAll(observed, a), b)
    decreases |a|
  {
    if a == [] {
      assert a + b == b;
    } else {
      assert (a + b)[0] == a[0] && (a + b)[1..] == a[1..] + b;
      ObserveAllConcat(ObserveRow(observed, a[0]), a[1..], b);
    }
  }

  lemma {:induction false} LiveRowsCovered(s: State, u: Update, observed: map<Identity, Counters>)
    requires Accepts(s, u) && u.live
    requires RowsCovered(s.sessions, observed) && RowsCovered(u.sessions, observed)
    ensures RowsCovered(Apply(s, u).0.sessions, observed)
  {
    var rows := Apply(s, u).0.sessions;
    forall i | 0 <= i < |rows| && rows[i].identity.Some?
      ensures rows[i].identity.value in observed && Covered(rows[i].activity, observed[rows[i].identity.value])
    {
      var x := rows[i];
      LiveRows(s, u, x);
      assert x in multiset(rows);
      assert x in u.sessions || x in s.sessions;
    }
  }

  lemma {:induction false} LiveCounts(s: State, u: Update, id: Identity, c: string)
    requires Accepts(s, u) && u.live && RowsCovered(s.sessions, s.observed) && NonDecreasing(s.observed, u.sessions)
    ensures var (s1, _, deltas) := Apply(s, u);
            && RowsCovered(s1.sessions, s1.observed)
            && s1.observed == ObserveAll(s.observed, u.sessions)
            && Sum(deltas, id, c) ==
                 (if id in s.observed then Tally(s1.observed, id, c) - Tally(s.observed, id, c)
                  else Tally(s1.observed, id, c) - FirstValue(u.sessions, id, c))
  {
    KnownIsCovered(s.sessions, u.client, s.observed);
    SweepCounts(FirstSweep(s, u), KnownActivity(s.sessions, u.client), u.sessions, id, c);
    ObserveAllCovers(s.observed, u.sessions);
    LiveRowsCovered(s, u, Apply(s, u).0.observed);
  }

  lemma {:induction false} FirstValueConcat(a: seq<Session>, b: seq<Session>, id: Identity, c: string)
    ensures FirstValue(a + b, id, c)
         == if exists i :: 0 <= i < |a| && a[i].identity == Some(id) then FirstValue(a, id, c) else FirstValue(b, id, c)
    decreases |a|
  {
    if a == [] {
      assert a + b == b;
    } else if a[0].identity != Some(id) {
      FirstValueConcat(a[1..], b, id, c);
      assert (a + b)[1..] == a[1..] + b;
      assert forall i :: 0 < i < |a| ==> a[i] == a[1..][i - 1];
    }
  }

  lemma {:induction false} ObservedMembers(observed: map<Identity, Counters>, rows: seq<Session>, id: Identity)
    ensures id in ObserveAll(observed, rows) <==>
              id in observed || exists i :: 0 <= i < |rows| && rows[i].identity == Some(id)
    decreases |rows|
  {
    if rows != [] {
      ObservedMembers(ObserveRow(observed, rows[0]), rows[1..], id);
      assert forall i :: 0 < i < |rows| ==> rows[i] == rows[1..][i - 1];
      if exists i :: 0 <= i < |rows[1..]| && rows[1..][i].identity == Some(id) {
        var i :| 0 <= i < |rows[1..]| && rows[1..][i].identity == Some(id);
        assert rows[i + 1].identity == Some(id);
      }
    }
  }

  ghost function Processed(s: State, u: Update): seq<Session> {
    if Accepts(s, u) && u.live then u.sessions else []
  }

  lemma {:induction false} StepCounts(s: State, u: Update, later: seq<Session>, id: Identity, c: string)
    requires RowsCovered(s.sessions, s.observed) && NonDecreasing(s.observed, Processed(s, u) + later)
    ensures var (s1, _, now) := Apply(s, u);
            var rows := Processed(s, u) + later;
            && RowsCovered(s1.sessions, s1.observed) && NonDecreasing(s1.observed, later)
            && ObserveAll(s.observed, rows) == ObserveAll(s1.observed, later)
            && (id in s.observed ==>
                  id in s1.observed && Sum(now, id, c) == Tally(s1.observed, id, c) - Tally(s.observed, id, c))
            && (id !in s.observed && id in s1.observed ==>
                Sum(now, id, c) == Tally(s1.observed, id, c) - FirstValue(rows, id, c))
            && (id !in s1.observed ==> Sum(now, id, c) == 0 && FirstValue(rows, id, c) == FirstValue(later, id, c))
  {
    if Accepts(s, u) && u.live {
      ObserveAllConcat(s.observed, u.sessions, later);
      LiveCounts(s, u, id, c);
      FirstValueConcat(u.sessions, later, id, c);
      ObservedMembers(s.observed, u.sessions, id);
      if id !in Apply(s, u).0.observed {
        assert u.sessions + [] == u.sessions;
        FirstValueConcat(u.sessions, [], id, c);
      }
    } else {
      QuietUpdate(s, u);
      assert [] + later == later;
    }
  }

  lemma {:induction false} RunCounts(s: State, us: seq<Update>, id: Identity, c: string)
    requires RowsCovered(s.sessions, s.observed) && NonDecreasing(s.observed, Seen(s, us))
    ensures var (end, deltas) := Run(s, us);
            && end.observed == ObserveAll(s.observed, Seen(s, us))
            && Sum(deltas, id, c) ==
                 (if id in s.observed then Tally(end.observed, id, c) - Tally(s.observed, id, c)
                  else Tally(end.observed, id, c) - FirstValue(Seen(s, us), id, c))
    decreases |us|
  {
    if us != [] {
      var (s1, _, now) := Apply(s, us[0]);
      SumConcat(now, Run(s1, us[1..]).1, id, c);
      StepCounts(s, us[0], Seen(s1, us[1..]), id, c);
      RunCounts(s1, us[1..], id, c);
    }
  }

  lemma {:induction false} TallyIsLastValue(rows: seq<Session>, id: Identity, c: string)
    ensures Tally(ObserveAll(map[], rows), id, c) == LastValue(rows, id, c)
  {
    if rows != [] {
      var front, r := rows[..|rows| - 1], rows[|rows| - 1];
      assert rows == front + [r] && [r][1..] == [];
      ObserveAllConcat(map[], front, [r]);
      TallyIsLastValue(front, id, c);
    }
  }

  /** From a fresh start, over every sequence of updates with counters that do not decrease, the events
      counted for a session and category are its last value minus its value at first sighting: history is
      not replayed and nothing is counted twice, even when the session vanishes and returns or is seen
      through two aliases. */
  lemma {:induction false} EventsAreCountedOnce(configured: Option<set<string>>, us: seq<Update>, id: Identity,
                                                c: string)
    requires NonDecreasing(map[], Seen(State(configured, map[], [], {}, map[]), us))
    ensures var s := State(configured, map[], [], {}, map[]);
            Sum(Run(s, us).1, id, c) == LastValue(Seen(s, us), id, c) - FirstValue(Seen(s, us), id, c)
  {
    var s := State(configured, map[], [], {}, map[]);
    RunCounts(s, us, id, c);
    TallyIsLastValue(Seen(s, us), id, c);
  }
}
