/**
 The authoritative session inventory of each host and the notifications derived from it
 (applySessionUpdate and notificationDeltas in cmd/ducklord/main.go).

 A live update carries the full inventory of one Ducklion instance as seen through one host
 alias. The project layout is the set of identities it references.
 */
module HostInventory {
  import opened Basics
  import opened Ordering
  import opened Sessions

  type Counters = map<string, nat>

  datatype Update = Update(client: string, generation: nat, instance: string, revision: nat,
                           live: bool, sessions: seq<Session>)

  datatype State = State(configured: Option<set<string>>, hostSync: map<string, Update>, sessions: seq<Session>,
                         layout: set<Identity>, observed: map<Identity, Counters>)

  /** New events of one session in one update, by category. */
  datatype Delta = Delta(identity: Identity, counts: Counters)

  // ---------------------------------------------------------------- acceptance

  function Previous(hostSync: map<string, Update>, client: string): Update {
    if client in hostSync then hostSync[client] else Update(client, 0, "", 0, false, [])
  }

  predicate Newer(prev: Update, u: Update) {
    && prev.generation <= u.generation
    && (u.generation == prev.generation && u.instance == prev.instance ==> prev.revision <= u.revision)
  }

  predicate Consistent(u: Update) {
    forall i :: 0 <= i < |u.sessions| ==> u.sessions[i].instance == u.instance && u.sessions[i].client == u.client
  }

  /** No other alias of the instance has shown a newer inventory. */
  predicate NewestAlias(hostSync: map<string, Update>, u: Update) {
    forall c :: c in hostSync ==> AliasAllows(hostSync, u, c)
  }

  predicate AliasAllows(hostSync: map<string, Update>, u: Update, c: string)
    requires c in hostSync
  {
    c != u.client && hostSync[c].live && hostSync[c].instance == u.instance ==> hostSync[c].revision <= u.revision
  }

  predicate Accepts(s: State, u: Update) {
    && u.client != ""
    && (s.configured.Some? ==> u.client in s.configured.value)
    && Newer(Previous(s.hostSync, u.client), u)
    && (u.live ==> Consistent(u) && NewestAlias(s.hostSync, u))
  }

  // ---------------------------------------------------------------- notifications

  function At(m: Counters, c: string): nat {
    if c in m then m[c] else 0
  }

  /** The count above which events are new, given the counters observed so far (`mine`) and those of
      the client's last row. The first inventory of a session is history. */
  function Baseline(mine: Counters, history: bool, before: Counters, current: Counters, c: string): nat
    requires c in current
  {
    Max(if history then current[c] else At(before, c), At(mine, c))
  }

  predicate IsNew(mine: Counters, history: bool, before: Counters, current: Counters, c: string)
    requires c in current
  {
    Baseline(mine, history, before, current, c) < current[c]
  }

  function NewEvents(mine: Counters, history: bool, before: Counters, current: Counters): Counters {
    map c | c in current && IsNew(mine, history, before, current, c)
      :: current[c] - Baseline(mine, history, before, current, c)
  }

  function Mine(observed: map<Identity, Counters>, id: Identity): Counters {
    if id in observed then observed[id] else map[]
  }

  /** notificationDeltas: the new events of a session; `before` is None when the client did not list it. */
  function Deltas(observed: map<Identity, Counters>, id: Identity, before: Option<Counters>,
                  current: Counters): Counters {
    NewEvents(Mine(observed, id), before.None? && id !in observed,
              if before.Some? then before.value else map[], current)
  }

  function Observe(observed: map<Identity, Counters>, id: Identity, current: Counters): map<Identity, Counters> {
    observed[id := Mine(observed, id) + current]
  }

  /** The loop of notificationDeltas over the categories. */
  method CountNew(mine: Counters, history: bool, before: Counters, current: Counters)
    returns (deltas: Counters, after: Counters)
    ensures deltas == NewEvents(mine, history, before, current)
    ensures after == mine + current
  {
    deltas, after := map[], mine;
    var todo := current.Keys;
    while todo != {}
      invariant todo <= current.Keys
      invariant after == mine + (current - todo)
      invariant deltas == NewEvents(mine, history, before, current - todo)
    {
      var c :| c in todo;
      var baseline := At(before, c);
      if history {
        baseline := current[c];
      }
      if baseline < At(after, c) {
        baseline := At(after, c);
      }
      assert At(after, c) == At(mine, c);
      if baseline < current[c] {
        deltas := deltas[c := current[c] - baseline];
      }
      AddBack(mine, current, todo, c);
      NewBack(mine, history, before, current, todo, c);
      after := after[c := current[c]];
      todo := todo - {c};
    }
    assert current - {} == current;
  }

  lemma {:induction false} AddBack(mine: Counters, current: Counters, todo: set<string>, c: string)
    requires c in todo && c in current
    ensures (mine + (current - todo))[c := current[c]] == mine + (current - (todo - {c}))
  {
  }

  lemma {:induction false} NewBack(mine: Counters, history: bool, before: Counters, current: Counters,
                                   todo: set<string>, c: string)
    requires c in todo && c in current
    ensures var deltas := NewEvents(mine, history, before, current - todo);
            NewEvents(mine, history, before, current - (todo - {c}))
            == if IsNew(mine, history, before, current, c)
               then deltas[c := current[c] - Baseline(mine, history, before, current, c)] else deltas
  {
  }

  // ---------------------------------------------------------------- one update

  /** What the loop over the update's sessions carries; `stale` are the identities not yet confirmed. */
  datatype Sweep = Sweep(layout: set<Identity>, stale: set<Identity>, observed: map<Identity, Counters>,
                         deltas: seq<Delta>)

  function Visit(w: Sweep, known: map<Identity, Counters>, r: Session): Sweep {
    if r.identity.None? then w
    else
      var id := r.identity.value;
      var before := if id in known then Some(known[id]) else None;
      Sweep(if r.stopped then w.layout else w.layout + {id},
            if r.stopped then w.stale else w.stale - {id},
            Observe(w.observed, id, r.activity),
            w.deltas + [Delta(id, Deltas(w.observed, id, before, r.activity))])
  }

  function VisitAll(w: Sweep, known: map<Identity, Counters>, rows: seq<Session>): Sweep
    decreases |rows|
  {
    if rows == [] then w else VisitAll(Visit(w, known, rows[0]), known, rows[1..])
  }

  /** The counters last shown by this client, by identity. */
  function KnownActivity(rows: seq<Session>, client: string): map<Identity, Counters> {
    if rows == [] then map[]
    else
      var m := KnownActivity(rows[..|rows| - 1], client);
      var r := rows[|rows| - 1];
      if r.client == client && r.identity.Some? then m[r.identity.value := r.activity] else m
  }

  function LayoutOf(layout: set<Identity>, instance: string): set<Identity> {
    set id | id in layout && id.instance == instance
  }

  function RowIdentities(rows: seq<Session>, client: string, instance: string): set<Identity> {
    set i | 0 <= i < |rows| && rows[i].client == client && rows[i].instance == instance && rows[i].identity.Some?
      :: rows[i].identity.value
  }

  function Others(rows: seq<Session>, client: string): seq<Session> {
    if rows == [] then []
    else
      var m := Others(rows[..|rows| - 1], client);
      if rows[|rows| - 1].client != client then m + [rows[|rows| - 1]] else m
  }

  function FirstSweep(s: State, u: Update): Sweep {
    Sweep(s.layout, LayoutOf(s.layout, u.instance) + RowIdentities(s.sessions, u.client, u.instance), s.observed, [])
  }

  /** applySessionUpdate: the new state, whether the update became authoritative, and the new events. */
  function Apply(s: State, u: Update): (State, bool, seq<Delta>) {
    if !Accepts(s, u) then (s, false, [])
    else if !u.live then (s.(hostSync := s.hostSync[u.client := u]), true, [])
    else
      var w := VisitAll(FirstSweep(s, u), KnownActivity(s.sessions, u.client), u.sessions);
      (State(s.configured, s.hostSync[u.client := u],
             SortBy(RowLess, Others(s.sessions, u.client) + u.sessions),
             w.layout - w.stale, w.observed),
       true, w.deltas)
  }

  class Inventory {
    const configured: Option<set<string>>
    var hostSync: map<string, Update>
    var sessions: seq<Session>
    var layout: set<Identity>
    var observed: map<Identity, Counters>

    function Current(): State
      reads this
    {
      State(configured, hostSync, sessions, layout, observed)
    }

    constructor (configured: Option<set<string>>)
      ensures Current() == State(configured, map[], [], {}, map[])
    {
      this.configured := configured;
      hostSync, sessions, layout, observed := map[], [], {}, map[];
    }

    method NotificationDeltas(id: Identity, before: Option<Counters>, current: Counters) returns (deltas: Counters)
      modifies `observed
      ensures deltas == Deltas(old(observed), id, before, current)
      ensures observed == Observe(old(observed), id, current)
    {
      var after;
      deltas, after := CountNew(Mine(observed, id), before.None? && id !in observed,
                                if before.Some? then before.value else map[], current);
      observed := observed[id := after];
    }

    method MayAccept(u: Update) returns (ok: bool)
      ensures ok == Accepts(Current(), u)
    {
      if u.client == "" || (configured.Some? && u.client !in configured.value) {
        return false;
      }
      var previous := Previous(hostSync, u.client);
      if u.generation < previous.generation
         || (u.generation == previous.generation && u.instance == previous.instance && u.revision < previous.revision) {
        return false;
      }
      if u.live {
        for i := 0 to |u.sessions|
          invariant forall j :: 0 <= j < i ==> u.sessions[j].instance == u.instance && u.sessions[j].client == u.client
        {
          if u.sessions[i].instance != u.instance || u.sessions[i].client != u.client {
            return false;
          }
        }
        var todo := hostSync.Keys;
        while todo != {}
          invariant todo <= hostSync.Keys
          invariant forall c :: c in hostSync && c !in todo ==> AliasAllows(hostSync, u, c)
        {
          var c :| c in todo;
          if !AliasAllows(hostSync, u, c) {
            return false;
          }
          todo := todo - {c};
        }
      }
      ok := true;
    }

    /** Splits the current rows: the counters of this client, its identities, and everybody else's rows. */
    method Collect(client: string, instance: string)
      returns (known: map<Identity, Counters>, mine: set<Identity>, others: seq<Session>)
      ensures known == KnownActivity(sessions, client)
      ensures mine == RowIdentities(sessions, client, instance)
      ensures others == Others(sessions, client)
    {
      known, mine, others := map[], {}, [];
      for i := 0 to |sessions|
        invariant known == KnownActivity(sessions[..i], client)
        invariant mine == RowIdentities(sessions[..i], client, instance)
        invariant others == Others(sessions[..i], client)
      {
        var r := sessions[i];
        assert sessions[..i + 1][..i] == sessions[..i];
        RowIdentitiesStep(sessions[..i], r, client, instance);
        assert sessions[..i + 1] == sessions[..i] + [r];
        if r.client != client {
          others := others + [r];
        } else if r.identity.Some? {
          known := known[r.identity.value := r.activity];
          if r.instance == instance {
            mine := mine + {r.identity.value};
          }
        }
      }
      assert sessions[..|sessions|] == sessions;
    }

    method ApplySessionUpdate(u: Update) returns (accepted: bool, deltas: seq<Delta>)
      modifies this
      ensures (Current(), accepted, deltas) == Apply(old(Current()), u)
    {
      deltas := [];
      accepted := MayAccept(u);
      if !accepted {
        return;
      }
      hostSync := hostSync[u.client := u];
      if !u.live {
        return;
      }
      var known, mine, others := Collect(u.client, u.instance);
      var stale := LayoutOf(layout, u.instance) + mine;
      ghost var first := Sweep(layout, stale, observed, []);
      for i := 0 to |u.sessions|
        invariant hostSync == old(hostSync)[u.client := u] && sessions == old(sessions)
        invariant VisitAll(first, known, u.sessions)
                    == VisitAll(Sweep(layout, stale, observed, deltas), known, u.sessions[i..])
      {
        var r := u.sessions[i];
        assert u.sessions[i..][1..] == u.sessions[i + 1..];
        if r.identity.Some? {
          var id := r.identity.value;
          if !r.stopped {
            stale := stale - {id};
            layout := layout + {id};
          }
          var counts := NotificationDeltas(id, if id in known then Some(known[id]) else None, r.activity);
          deltas := deltas + [Delta(id, counts)];
        }
      }
      layout := layout - stale;
      sessions := SortBy(RowLess, others + u.sessions);
    }
  }

  lemma {:induction false} RowIdentitiesStep(rows: seq<Session>, r: Session, client: string, instance: string)
    ensures RowIdentities(rows + [r], client, instance)
         == RowIdentities(rows, client, instance)
            + (if r.client == client && r.instance == instance && r.identity.Some? then {r.identity.value} else {})
  {
    var more := rows + [r];
    forall id
      ensures id in RowIdentities(more, client, instance) <==>
              id in RowIdentities(rows, client, instance)
                    + (if r.client == client && r.instance == instance && r.identity.Some?
                       then {r.identity.value} else {})
    {
      if id in RowIdentities(rows, client, instance) {
        var i :| 0 <= i < |rows| && rows[i].client == client && rows[i].instance == instance
                 && rows[i].identity.Some? && rows[i].identity.value == id;
        assert more[i] == rows[i];
      }
      if r.client == client && r.instance == instance && r.identity.Some? && id == r.identity.value {
        assert more[|rows|] == r;
      }
    }
  }
}
