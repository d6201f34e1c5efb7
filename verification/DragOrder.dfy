/** Dragging a session to another place of the list (moveDraggedSessionBefore in cmd/ducklord/main.go). */
module DragOrder {
  import opened Basics
  import opened Ordering
  import opened Sessions
  import opened Organization

  datatype Outcome = NoDrag | UnknownGroup | UnknownSession | OtherGroup | NotSaved | Moved

  /** The identity dragged, the group and the row it is dropped on; `before` is None on a heading. */
  datatype Drop = Drop(dragged: Option<Identity>, target: string, before: Option<Identity>)

  // ---------------------------------------------------------------- the new order

  function Without(order: seq<Identity>, id: Identity): (r: seq<Identity>)
    ensures id !in r
  {
    if order == [] then [] else (if order[0] == id then [] else [order[0]]) + Without(order[1..], id)
  }

  function InsertAt(order: seq<Identity>, i: nat, id: Identity): seq<Identity>
    requires i <= |order|
  {
    order[..i] + [id] + order[i..]
  }

  predicate InGroup(o: Organization, ss: seq<Session>, id: Identity, target: string) {
    exists s | s in ss :: s.identity == Some(id) && GroupOf(o, s) == target
  }

  /** The place behind the last of the first n entries in the group, the end if there is none. */
  function BehindGroup(o: Organization, ss: seq<Session>, order: seq<Identity>, n: nat, target: string): (i: nat)
    requires n <= |order|
    ensures i <= |order|
  {
    if n == 0 then |order|
    else if InGroup(o, ss, order[n - 1], target) then n
    else BehindGroup(o, ss, order, n - 1, target)
  }

  function DropIndex(o: Organization, ss: seq<Session>, order: seq<Identity>, id: Identity, d: Drop): (i: nat)
    ensures i <= |order|
  {
    if d.before.Some? && d.before.value != id then First(order, d.before.value)
    else BehindGroup(o, ss, order, |order|, d.target)
  }

  function NewOrder(o: Organization, ss: seq<Session>, id: Identity, d: Drop): seq<Identity> {
    var others := Without(o.order, id);
    InsertAt(others, DropIndex(o, ss, others, id, d), id)
  }

  /** The organization after the drop. */
  function Dropped(o: Organization, ss: seq<Session>, id: Identity, d: Drop): Organization {
    o.(order := NewOrder(o, ss, id, d),
       membership := if o.mode != Custom then o.membership
                     else if d.target == UNGROUPED then o.membership - {id}
                     else o.membership[id := d.target])
  }

  function CurrentGroup(o: Organization, ss: seq<Session>, id: Identity): Option<string> {
    if ss == [] then None
    else if ss[0].identity == Some(id) then Some(GroupOf(o, ss[0]))
    else CurrentGroup(o, ss[1..], id)
  }

  /** Whether the drop is refused; Moved if it is not. */
  function Verdict(o: Organization, ss: seq<Session>, d: Drop): Outcome {
    if d.dragged.None? then NoDrag
    else if o.mode == Custom && d.target != UNGROUPED && !exists c | c in o.groups :: c.id == d.target then UnknownGroup
    else if CurrentGroup(o, ss, d.dragged.value).None? then UnknownSession
    else if o.mode != Custom && CurrentGroup(o, ss, d.dragged.value) != Some(d.target) then OtherGroup
    else Moved
  }

  // ---------------------------------------------------------------- performing the drop

  method FindCurrentGroup(o: Organization, ss: seq<Session>, id: Identity) returns (group: Option<string>)
    ensures group == CurrentGroup(o, ss, id)
  {
    var rest := ss;
    while rest != []
      invariant CurrentGroup(o, rest, id) == CurrentGroup(o, ss, id)
    {
      if rest[0].identity == Some(id) {
        return Some(GroupOf(o, rest[0]));
      }
      rest := rest[1..];
    }
    return None;
  }

  method RemoveFromOrder(order: seq<Identity>, id: Identity) returns (others: seq<Identity>)
    ensures others == Without(order, id)
  {
    others := [];
    var rest := order;
    while rest != []
      invariant others + Without(rest, id) == Without(order, id)
    {
      if rest[0] != id {
        others := others + [rest[0]];
      }
      rest := rest[1..];
    }
  }

  /** The search for the place, with its inner loop over the sessions. */
  method FindDropIndex(o: Organization, ss: seq<Session>, order: seq<Identity>, id: Identity, d: Drop)
    returns (insert: nat)
    ensures insert == DropIndex(o, ss, order, id, d)
  {
    insert := |order|;
    if d.before.Some? && d.before.value != id {
      var rest := order;
      while rest != []
        invariant insert == |order| && |rest| <= |order|
        invariant First(order, d.before.value) == |order| - |rest| + First(rest, d.before.value)
      {
        if rest[0] == d.before.value {
          return |order| - |rest|;
        }
        rest := rest[1..];
      }
    } else {
      for i := 0 to |order|
        invariant insert == BehindGroup(o, ss, order, i, d.target)
      {
        for j := 0 to |ss|
          invariant insert == if InGroup(o, ss[..j], order[i], d.target) then i + 1
                              else BehindGroup(o, ss, order, i, d.target)
        {
          assert ss[..j + 1] == ss[..j] + [ss[j]];
          if ss[j].identity == Some(order[i]) && GroupOf(o, ss[j]) == d.target {
            assert ss[j] in ss[..j + 1];
            insert := i + 1;
          }
        }
        assert ss[..|ss|] == ss;
      }
    }
  }

  lemma {:induction false} CurrentGroupIs(o: Organization, ss: seq<Session>, id: Identity)
    ensures CurrentGroup(o, ss, id).Some? <==> exists s :: s in ss && s.identity == Some(id)
  {
    if ss != [] {
      CurrentGroupIs(o, ss[1..], id);
      assert ss[0] in ss;
    }
  }

  method FindRow(ss: seq<Session>, id: Identity) returns (i: nat)
    requires exists s :: s in ss && s.identity == Some(id)
    ensures i < |ss| && ss[i].identity == Some(id)
    ensures forall j :: 0 <= j < i ==> ss[j].identity != Some(id)
  {
    i := 0;
    while i < |ss| && ss[i].identity != Some(id)
      invariant i <= |ss| && forall j :: 0 <= j < i ==> ss[j].identity != Some(id)
    {
      i := i + 1;
    }
  }

  /** moveDraggedSessionBefore. `disk` is the saved organization; the list is changed only once it is saved.
      `selected` is the row selected afterwards. */
  method MoveBefore(list: SessionList, disk: Organization, d: Drop, promote: bool, key: string, save: WriteOutcome)
    returns (outcome: Outcome, disk': Organization, selected: nat)
    modifies list
    ensures var v := Verdict(old(list.org), old(list.sessions), d);
            outcome == if v == Moved && save != Written then NotSaved else v
    ensures outcome != Moved ==> list.org == old(list.org) && list.sessions == old(list.sessions)
    ensures Verdict(old(list.org), old(list.sessions), d) != Moved || save == FailedBefore ==> disk' == disk
    ensures Verdict(old(list.org), old(list.sessions), d) == Moved && save != FailedBefore ==>
              disk' == Dropped(old(list.org), old(list.sessions), d.dragged.value, d)
    ensures outcome == Moved ==>
              && list.org == Registered(disk', old(list.sessions))
              && list.sessions == Arranged(disk', old(list.sessions), promote, key)
              && selected < |list.sessions| && list.sessions[selected].identity == d.dragged
  {
    var o, ss := list.org, list.sessions;
    disk', selected := disk, 0;
    if d.dragged.None? {
      return NoDrag, disk', selected;
    }
    var id := d.dragged.value;
    if o.mode == Custom && d.target != UNGROUPED && !exists c | c in o.groups :: c.id == d.target {
      return UnknownGroup, disk', selected;
    }
    var group := FindCurrentGroup(o, ss, id);
    if group.None? {
      return UnknownSession, disk', selected;
    }
    if o.mode != Custom && group != Some(d.target) {
      return OtherGroup, disk', selected;
    }
    var others := RemoveFromOrder(o.order, id);
    var insert := FindDropIndex(o, ss, others, id, d);
    var membership := if o.mode != Custom then o.membership
                      else if d.target == UNGROUPED then o.membership - {id} else o.membership[id := d.target];
    var next := o.(order := InsertAt(others, insert, id), membership := membership);
    if save != FailedBefore {
      disk' := next;
    }
    if save != Written {
      return NotSaved, disk', selected;
    }
    list.org := next;
    var _ := list.ApplyOrder(promote, key);
    CurrentGroupIs(o, ss, id);
    SameMembers(list.sessions, ss);
    selected := FindRow(list.sessions, id);
    outcome := Moved;
  }

  /** A drop whose save fails after the rename: it is reported as not saved, but the new order is on disk. */
  method DiskAheadExample() returns (outcome: Outcome, memory: Organization, disk: Organization)
    ensures outcome == NotSaved
    ensures memory.order == [] && disk.order == [Identity("i", "s")]
  {
    var id := Identity("i", "s");
    var o := Organization(Custom, map[], [], [], map[], map[]);
    var row := Session("c", "", "n", "i", "s", Some(id), true, false, false, map[]);
    var d := Drop(Some(id), UNGROUPED, None);
    assert CurrentGroup(o, [row], id).Some?;
    assert NewOrder(o, [row], id, d) == [id];
    var list := new SessionList(o, [row]);
    var selected;
    outcome, disk, selected := MoveBefore(list, o, d, false, "", FailedAfter);
    memory := list.org;
  }

  lemma {:induction false} CurrentGroupFirst(o: Organization, ss: seq<Session>, id: Identity, i: nat)
    requires i < |ss| && ss[i].identity == Some(id) && forall j :: 0 <= j < i ==> ss[j].identity != Some(id)
    ensures CurrentGroup(o, ss, id) == Some(GroupOf(o, ss[i]))
  {
    if i != 0 {
      assert ss[0].identity != Some(id);
      CurrentGroupFirst(o, ss[1..], id, i - 1);
    }
  }

  /** A drop is carried out exactly when a session is dragged that is still listed, and the target is an existing
      custom group or the ungrouped one, or in the other modes the group of the session's first row. */
  lemma {:induction false} DropIsAcceptedIff(o: Organization, ss: seq<Session>, d: Drop)
    ensures Verdict(o, ss, d) == Moved <==>
              && d.dragged.Some?
              && (exists i :: && 0 <= i < |ss| && ss[i].identity == d.dragged
                              && (forall j :: 0 <= j < i ==> ss[j].identity != d.dragged)
                              && (o.mode != Custom ==> d.target == GroupOf(o, ss[i])))
              && (o.mode == Custom ==> d.target == UNGROUPED || exists c :: c in o.groups && c.id == d.target)
  {
    if d.dragged.Some? {
      CurrentGroupIs(o, ss, d.dragged.value);
      if CurrentGroup(o, ss, d.dragged.value).Some? {
        var s :| s in ss && s.identity == d.dragged;
        var i := FirstRow(ss, d.dragged.value);
        CurrentGroupFirst(o, ss, d.dragged.value, i);
      }
    }
  }

  lemma {:induction false} FirstRow(ss: seq<Session>, id: Identity) returns (i: nat)
    requires exists s :: s in ss && s.identity == Some(id)
    ensures i < |ss| && ss[i].identity == Some(id) && forall j :: 0 <= j < i ==> ss[j].identity != Some(id)
  {
    if ss[0].identity == Some(id) {
      i := 0;
    } else {
      var k := FirstRow(ss[1..], id);
      i := k + 1;
    }
  }

  // ---------------------------------------------------------------- where the row lands

  lemma {:induction false} WithoutKeeps(order: seq<Identity>, id: Identity, x: Identity)
    requires x in order && x != id
    ensures x in Without(order, id)
  {
    if order[0] != x {
      WithoutKeeps(order[1..], id, x);
    }
  }

  lemma {:induction false} WithoutAbsent(order: seq<Identity>, id: Identity)
    requires id !in order
    ensures Without(order, id) == order
  {
    if order != [] {
      WithoutAbsent(order[1..], id);
    }
  }

  lemma {:induction false} InsertAtTail(others: seq<Identity>, i: nat, id: Identity)
    requires i <= |others|
    ensures i == 0 ==> InsertAt(others, i, id) == [id] + others
    ensures i > 0 ==> InsertAt(others, i, id) == [others[0]] + InsertAt(others[1..], i - 1, id)
  {
  }

  lemma {:induction false} InsertAtOrder(others: seq<Identity>, i: nat, id: Identity)
    requires i <= |others| && id !in others
    ensures Without(InsertAt(others, i, id), id) == others
    decreases |others|
  {
    InsertAtTail(others, i, id);
    if i == 0 {
      WithoutAbsent(others, id);
    } else {
      InsertAtOrder(others[1..], i - 1, id);
    }
  }

  lemma {:induction false} FirstAfter(x: Identity, s: seq<Identity>, y: Identity)
    requires x != y
    ensures First([x] + s, y) == 1 + First(s, y)
  {
  }

  lemma {:induction false} InsertAtFirst(others: seq<Identity>, id: Identity, b: Identity)
    requires b in others && id !in others
    ensures First(InsertAt(others, First(others, b), id), id) == First(others, b)
    ensures First(InsertAt(others, First(others, b), id), b) == First(others, b) + 1
    decreases |others|
  {
    var i := First(others, b);
    InsertAtTail(others, i, id);
    if others[0] == b {
      FirstOfPrefix([id], others, id);
      FirstOfPrefix([id], others, b);
    } else {
      InsertAtFirst(others[1..], id, b);
      FirstAfter(others[0], InsertAt(others[1..], i - 1, id), id);
      FirstAfter(others[0], InsertAt(others[1..], i - 1, id), b);
    }
  }

  lemma {:induction false} InsertAtOnce(others: seq<Identity>, i: nat, id: Identity)
    requires i <= |others| && id !in others
    ensures multiset(InsertAt(others, i, id))[id] == 1
    ensures First(InsertAt(others, i, id), id) == i
  {
  }

  /** The others keep their order, and the moved identity is there exactly once. */
  lemma {:induction false} DropKeepsOthers(o: Organization, ss: seq<Session>, id: Identity, d: Drop)
    ensures Without(NewOrder(o, ss, id, d), id) == Without(o.order, id)
    ensures multiset(NewOrder(o, ss, id, d))[id] == 1
  {
    var others := Without(o.order, id);
    InsertAtOrder(others, DropIndex(o, ss, others, id, d), id);
    InsertAtOnce(others, DropIndex(o, ss, others, id, d), id);
  }

  /** Dropped on a row whose identity is in the order, the session takes the place right before it. */
  lemma {:induction false} LandsBefore(o: Organization, ss: seq<Session>, id: Identity, d: Drop)
    requires d.before.Some? && d.before.value != id && d.before.value in o.order
    ensures var p := First(NewOrder(o, ss, id, d), id);
            && p + 1 < |NewOrder(o, ss, id, d)| && NewOrder(o, ss, id, d)[p] == id
            && NewOrder(o, ss, id, d)[p + 1] == d.before.value && First(NewOrder(o, ss, id, d), d.before.value) == p + 1
  {
    WithoutKeeps(o.order, id, d.before.value);
    InsertAtFirst(Without(o.order, id), id, d.before.value);
  }

  lemma {:induction false} BehindGroupIs(o: Organization, ss: seq<Session>, order: seq<Identity>, n: nat,
                                         target: string)
    requires n <= |order|
    ensures var i := BehindGroup(o, ss, order, n, target);
            || (&& 0 < i <= n && InGroup(o, ss, order[i - 1], target)
                && forall k :: i <= k < n ==> !InGroup(o, ss, order[k], target))
            || (i == |order| && forall k :: 0 <= k < n ==> !InGroup(o, ss, order[k], target))
  {
    if n != 0 && !InGroup(o, ss, order[n - 1], target) {
      BehindGroupIs(o, ss, order, n - 1, target);
    }
  }

  /** The place is right behind the last session of the group, or at the end if there is none. */
  ghost predicate StandsBehind(o: Organization, ss: seq<Session>, order: seq<Identity>, p: nat, target: string) {
    && p < |order|
    && (forall k :: p < k < |order| ==> !InGroup(o, ss, order[k], target))
    && (|| (p > 0 && InGroup(o, ss, order[p - 1], target))
        || (p == |order| - 1 && forall k :: 0 <= k < p ==> !InGroup(o, ss, order[k], target)))
  }

  lemma {:induction false} InsertedBehind(o: Organization, ss: seq<Session>, others: seq<Identity>, id: Identity,
                                          target: string)
    ensures var i := BehindGroup(o, ss, others, |others|, target);
            StandsBehind(o, ss, InsertAt(others, i, id), i, target)
  {
    var i := BehindGroup(o, ss, others, |others|, target);
    BehindGroupIs(o, ss, others, |others|, target);
    InsertAtRest(others, i, id);
    var order := InsertAt(others, i, id);
    forall k | i < k < |order|
      ensures !InGroup(o, ss, order[k], target)
    {
      assert order[k] == others[k - 1];
    }
  }

  /** Dropped on a heading, or on itself, the session goes behind every other session of the group: right behind
      the last one, or to the end of the order if there is none. */
  lemma {:induction false} LandsBehindGroup(o: Organization, ss: seq<Session>, id: Identity, d: Drop)
    requires d.before.None? || d.before.value == id
    ensures StandsBehind(o, ss, NewOrder(o, ss, id, d), First(NewOrder(o, ss, id, d), id), d.target)
  {
    var others := Without(o.order, id);
    InsertAtOnce(others, DropIndex(o, ss, others, id, d), id);
    InsertedBehind(o, ss, others, id, d.target);
  }

  lemma {:induction false} InsertAtRest(others: seq<Identity>, i: nat, id: Identity)
    requires i <= |others|
    ensures forall k :: 0 <= k < i ==> InsertAt(others, i, id)[k] == others[k]
    ensures forall k :: i < k <= |others| ==> InsertAt(others, i, id)[k] == others[k - 1]
  {
  }

  /** In custom mode the moved session joins the target group; no other session changes groups. */
  lemma {:induction false} OnlyMovedChangesGroup(o: Organization, ss: seq<Session>, id: Identity, d: Drop, s: Session)
    ensures s.identity != Some(id) ==> GroupOf(Dropped(o, ss, id, d), s) == GroupOf(o, s)
    ensures s.identity == Some(id) && o.mode == Custom && d.target != "" ==>
              GroupOf(Dropped(o, ss, id, d), s) == d.target
    ensures o.mode != Custom ==> GroupOf(Dropped(o, ss, id, d), s) == GroupOf(o, s)
  {
  }

  /** Memberships name existing custom groups, as a save demands. */
  ghost predicate MembershipsExist(o: Organization) {
    forall id :: id in o.membership ==> exists c :: c in o.groups && c.id == o.membership[id]
  }

  /** A drop that is carried out leaves memberships of existing groups only: the ungrouped have none. */
  lemma {:induction false} DropKeepsMemberships(o: Organization, ss: seq<Session>, d: Drop)
    requires MembershipsExist(o) && Verdict(o, ss, d) == Moved
    requires forall c :: c in o.groups ==> c.id != UNGROUPED
    ensures MembershipsExist(Dropped(o, ss, d.dragged.value, d))
  {
    var o1 := Dropped(o, ss, d.dragged.value, d);
    forall id | id in o1.membership
      ensures exists c :: c in o1.groups && c.id == o1.membership[id]
    {
      if id != d.dragged.value || o.mode != Custom {
        assert id in o.membership && o1.membership[id] == o.membership[id];
      }
    }
  }

  lemma {:induction false} FirstStays<T>(a: seq<T>, b: seq<T>, x: T)
    requires a <= b && x in a
    ensures First(b, x) == First(a, x)
  {
    assert b == a + b[|a|..];
    FirstOfPrefix(a, b[|a|..], x);
  }

  lemma {:induction false} AdjacentRows(v: View, a: seq<Session>, i: nat, j: nat, id: Identity, b: Identity)
    requires Sorted(By(v), a) && i < |a| && j < |a| && a[i].identity == Some(id) && a[j].identity == Some(b)
    requires First(v.org.order, b) == First(v.org.order, id) + 1 < |v.org.order|
    requires GroupRank(v, a[i]) == GroupRank(v, a[j]) && UnreadRank(v, a[i]) == UnreadRank(v, a[j])
    ensures i < j && forall k :: i < k < j ==> a[k].identity in {Some(id), Some(b)}
  {
  }

  /** Rows of the two identities in one group that unread promotion does not part. */
  ghost predicate Together(v: View, a: Session, b: Session, id: Identity, before: Option<Identity>) {
    && a.identity == Some(id) && b.identity == before
    && GroupRank(v, a) == GroupRank(v, b) && UnreadRank(v, a) == UnreadRank(v, b)
  }

  /** On the screen the moved row comes before the row it was dropped on, with nothing but further rows of these
      two identities between them, if the two are in one group and unread promotion does not part them. */
  lemma {:induction false} MovedRowIsShownBefore(o: Organization, ss: seq<Session>, id: Identity, d: Drop,
                                                 promote: bool, key: string, i: nat, j: nat)
    requires d.before.Some? && d.before.value != id && d.before.value in o.order
    requires i < |ss| && j < |ss|
    ensures var o1 := Dropped(o, ss, id, d);
            var a, v := Arranged(o1, ss, promote, key), NextView(o1, ss, promote, key);
            Together(v, a[i], a[j], id, d.before) ==>
              i < j && forall k :: i < k < j ==> a[k].identity in {Some(id), d.before}
  {
    var o1 := Dropped(o, ss, id, d);
    var a, v := Arranged(o1, ss, promote, key), NextView(o1, ss, promote, key);
    LandsBefore(o, ss, id, d);
    ArrangedIsSorted(o1, ss, promote, key);
    FirstStays(o1.order, v.org.order, id);
    FirstStays(o1.order, v.org.order, d.before.value);
    if Together(v, a[i], a[j], id, d.before) {
      AdjacentRows(v, a, i, j, id, d.before.value);
    }
  }
}
