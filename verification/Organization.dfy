/**
 How the session list is organized (applyOrganizationOrder in cmd/ducklord/main.go): the saved orders of
 sessions and groups, and the stable sort of the rows by them.
 */
module Organization {
  import opened Basics
  import opened Ordering
  import opened Sessions

  // ---------------------------------------------------------------- the organization of a list

  datatype Mode = Custom | Host | Type

  /** A custom group and the name it is displayed under. */
  datatype CustomGroup = CustomGroup(id: string, shown: string)

  datatype Organization = Organization(
    mode: Mode, membership: map<Identity, string>, groups: seq<CustomGroup>, order: seq<Identity>,
    groupOrders: map<Mode, seq<string>>, collapsed: map<Mode, seq<string>>)

  const UNGROUPED := "ungrouped"

  function GroupOf(o: Organization, s: Session): string {
    match o.mode
    case Host => s.client
    case Type => if s.shell then "shell" else "agent"
    case Custom =>
      if s.identity.Some? && s.identity.value in o.membership && o.membership[s.identity.value] != ""
      then o.membership[s.identity.value] else UNGROUPED
  }

  function GroupOrder(o: Organization): seq<string> {
    if o.mode in o.groupOrders then o.groupOrders[o.mode] else []
  }

  // ---------------------------------------------------------------- saved orders

  /** Appends the values that are not there yet, in order of appearance. */
  function Register<T(==)>(order: seq<T>, xs: seq<T>): seq<T>
    decreases |xs|
  {
    if xs == [] then order else Register(if xs[0] in order then order else order + [xs[0]], xs[1..])
  }

  /** The position of the first occurrence, or the length. */
  function First<T(==)>(order: seq<T>, x: T): (i: nat)
    ensures i <= |order|
    ensures i < |order| <==> x in order
    ensures i < |order| ==> order[i] == x
  {
    if order == [] then 0 else if order[0] == x then 0 else 1 + First(order[1..], x)
  }

  lemma {:induction false} FirstOfPrefix<T>(a: seq<T>, b: seq<T>, x: T)
    ensures First(a + b, x) == if x in a then First(a, x) else |a| + First(b, x)
    decreases |a|
  {
    if a == [] {
      assert a + b == b;
    } else {
      assert (a + b)[0] == a[0] && (a + b)[1..] == a[1..] + b;
      FirstOfPrefix(a[1..], b, x);
      assert x in a <==> x == a[0] || x in a[1..];
    }
  }

  lemma {:induction false} RegisterExtends<T>(order: seq<T>, xs: seq<T>)
    ensures order <= Register(order, xs)
    ensures forall x :: x in xs ==> x in Register(order, xs)
    ensures forall x :: x in Register(order, xs) ==> x in order || x in xs
    decreases |xs|
  {
    if xs != [] {
      var order1 := if xs[0] in order then order else order + [xs[0]];
      RegisterExtends(order1, xs[1..]);
      assert xs[0] in order1;
      PrefixMember(order1, Register(order, xs), xs[0]);
    }
  }

  lemma {:induction false} PrefixMember<T>(a: seq<T>, b: seq<T>, x: T)
    requires a <= b && x in a
    ensures x in b
  {
  }

  /** The ranks a map counts up are in the order of first occurrence. */
  ghost predicate Ranks<T(!new)>(rank: map<T, nat>, order: seq<T>) {
    && (forall x :: x in rank <==> x in order)
    && (forall x :: x in rank ==> rank[x] < |rank|)
    && (forall x, y :: x in rank && y in rank ==> (rank[x] < rank[y] <==> First(order, x) < First(order, y)))
  }

  lemma {:induction false} RanksGrow<T(!new)>(rank: map<T, nat>, order: seq<T>, x: T)
    requires Ranks(rank, order) && x !in rank
    ensures Ranks(rank[x := |rank|], order + [x])
  {
    var rank1, order1 := rank[x := |rank|], order + [x];
    assert |rank1| == |rank| + 1;
    forall y
      ensures First(order1, y) == if y in order then First(order, y) else |order| + First([x], y)
    {
      FirstOfPrefix(order, [x], y);
    }
    assert First([x], x) == 0;
  }

  lemma {:induction false} RanksKnown<T(!new)>(rank: map<T, nat>, order: seq<T>, x: T)
    requires Ranks(rank, order) && x in rank
    ensures Ranks(rank, order + [x])
  {
    forall y
      ensures First(order + [x], y) == if y in order then First(order, y) else |order| + First([x], y)
    {
      FirstOfPrefix(order, [x], y);
    }
  }

  /** The ranking loops: first the saved order, then what is new in it. */
  method RankAll<T(==, !new)>(saved: seq<T>, xs: seq<T>) returns (rank: map<T, nat>, order: seq<T>, changed: bool)
    ensures order == Register(saved, xs)
    ensures changed <==> order != saved
    ensures Ranks(rank, order)
  {
    rank := map[];
    for i := 0 to |saved|
      invariant Ranks(rank, saved[..i])
    {
      assert saved[..i + 1] == saved[..i] + [saved[i]];
      if saved[i] !in rank {
        RanksGrow(rank, saved[..i], saved[i]);
        rank := rank[saved[i] := |rank|];
      } else {
        RanksKnown(rank, saved[..i], saved[i]);
      }
    }
    assert saved[..|saved|] == saved;
    order, changed := saved, false;
    var rest := xs;
    for i := 0 to |xs|
      invariant Ranks(rank, order) && rest == xs[i..]
      invariant Register(order, rest) == Register(saved, xs)
      invariant |saved| <= |order| && (changed <==> |saved| < |order|) && (order == saved || |saved| < |order|)
    {
      if rest[0] !in rank {
        RanksGrow(rank, order, rest[0]);
        rank := rank[rest[0] := |rank|];
        order := order + [rest[0]];
        changed := true;
      }
      rest := rest[1..];
    }
  }

  // ---------------------------------------------------------------- the order of the rows

  datatype View = View(org: Organization, promote: bool, selected: string)

  function GroupRank(v: View, s: Session): nat {
    First(GroupOrder(v.org), GroupOf(v.org, s))
  }

  predicate InSelected(v: View, s: Session) {
    GroupRank(v, s) == First(GroupOrder(v.org), v.selected)
  }

  /** Unread rows come first in a group, except in the selected one. */
  function UnreadRank(v: View, s: Session): nat {
    if v.promote && !InSelected(v, s) && s.unread then 0 else 1
  }

  function SavedRank(v: View, s: Session): nat {
    if s.identity.Some? then First(v.org.order, s.identity.value) else |v.org.order| + 1
  }

  /** The comparison of applyOrganizationOrder, as a comparison of keys. */
  predicate Less(v: View, a: Session, b: Session) {
    if GroupRank(v, a) != GroupRank(v, b) then GroupRank(v, a) < GroupRank(v, b)
    else if UnreadRank(v, a) != UnreadRank(v, b) then UnreadRank(v, a) < UnreadRank(v, b)
    else if SavedRank(v, a) != SavedRank(v, b) then SavedRank(v, a) < SavedRank(v, b)
    else StringLess(Key(a), Key(b))
  }

  function By(v: View): (Session, Session) -> bool {
    (a, b) => Less(v, a, b)
  }

  lemma {:induction false} LessAsymmetric(v: View, a: Session, b: Session)
    requires Less(v, a, b)
    ensures !Less(v, b, a)
  {
    if StringLess(Key(a), Key(b)) {
      StringLessAsymmetric(Key(a), Key(b));
    }
  }

  lemma {:induction false} LessWeak(v: View, a: Session, b: Session, c: Session)
    requires Less(v, a, c)
    ensures Less(v, a, b) || Less(v, b, c)
  {
    if StringLess(Key(a), Key(c)) {
      StringLessWeak(Key(a), Key(b), Key(c));
    }
  }

  /** The comparison is a strict weak order, as sort.SliceStable demands. */
  lemma {:induction false} LessIsStrictWeak(v: View)
    ensures StrictWeak(By(v))
  {
    forall a, b | By(v)(a, b)
      ensures !By(v)(b, a)
    {
      LessAsymmetric(v, a, b);
    }
    forall a, b, c | By(v)(a, c)
      ensures By(v)(a, b) || By(v)(b, c)
    {
      LessWeak(v, a, b, c);
    }
  }

  /** A missing key reads as zero. */
  function Lookup<T>(rank: map<T, nat>, x: T): nat {
    if x in rank then rank[x] else 0
  }

  /** The comparison as the code writes it, on the rank maps. */
  predicate RankLess(o: Organization, promote: bool, selected: string,
                     sessionRank: map<Identity, nat>, groupRank: map<string, nat>, a: Session, b: Session)
  {
    var left, right := GroupOf(o, a), GroupOf(o, b);
    if Lookup(groupRank, left) != Lookup(groupRank, right) then Lookup(groupRank, left) < Lookup(groupRank, right)
    else if promote && left != selected && a.unread != b.unread then a.unread
    else if a.identity.Some? != b.identity.Some? then a.identity.Some?
    else if a.identity.Some? && Lookup(sessionRank, a.identity.value) != Lookup(sessionRank, b.identity.value)
    then Lookup(sessionRank, a.identity.value) < Lookup(sessionRank, b.identity.value)
    else StringLess(Key(a), Key(b))
  }

  lemma {:induction false} SameFirst<T>(order: seq<T>, x: T, y: T)
    requires x in order && First(order, x) == First(order, y)
    ensures x == y
  {
  }

  /** Every row's group, and its identity if it has one, is in the saved orders. */
  ghost predicate Known(o: Organization, s: Session) {
    GroupOf(o, s) in GroupOrder(o) && (s.identity.Some? ==> s.identity.value in o.order)
  }

  lemma {:induction false} RankLessIsLess(v: View, sessionRank: map<Identity, nat>, groupRank: map<string, nat>,
                                          a: Session, b: Session)
    requires Ranks(sessionRank, v.org.order) && Ranks(groupRank, GroupOrder(v.org))
    requires Known(v.org, a) && Known(v.org, b)
    ensures RankLess(v.org, v.promote, v.selected, sessionRank, groupRank, a, b) == Less(v, a, b)
  {
  }

  // ---------------------------------------------------------------- applying the order

  function Identities(ss: seq<Session>): seq<Identity> {
    if ss == [] then [] else (if ss[0].identity.Some? then [ss[0].identity.value] else []) + Identities(ss[1..])
  }

  function GroupIds(o: Organization, ss: seq<Session>): seq<string> {
    if ss == [] then [] else [GroupOf(o, ss[0])] + GroupIds(o, ss[1..])
  }

  /** The group of the selected row, "" if no row has the key. */
  function SelectedGroup(o: Organization, ss: seq<Session>, key: string): string {
    if ss == [] then "" else if Key(ss[0]) == key then GroupOf(o, ss[0]) else SelectedGroup(o, ss[1..], key)
  }

  /** New sessions and groups are appended to the saved orders. */
  function Registered(o: Organization, ss: seq<Session>): (r: Organization)
    ensures forall s :: GroupOf(r, s) == GroupOf(o, s)
    ensures GroupOrder(r) == Register(GroupOrder(o), GroupIds(o, ss))
  {
    o.(order := Register(o.order, Identities(ss)),
       groupOrders := o.groupOrders[o.mode := Register(GroupOrder(o), GroupIds(o, ss))])
  }

  function NextView(o: Organization, ss: seq<Session>, promote: bool, key: string): View {
    View(Registered(o, ss), promote, SelectedGroup(o, ss, key))
  }

  function Arranged(o: Organization, ss: seq<Session>, promote: bool, key: string): seq<Session> {
    SortBy(By(NextView(o, ss, promote, key)), ss)
  }

  class SessionList {
    var org: Organization
    var sessions: seq<Session>

    constructor (org: Organization, sessions: seq<Session>)
      ensures this.org == org && this.sessions == sessions
    {
      this.org, this.sessions := org, sessions;
    }

    /** applyOrganizationOrder outside the workspace preview. */
    method ApplyOrder(promote: bool, key: string) returns (changed: bool)
      modifies this
      ensures org == Registered(old(org), old(sessions))
      ensures sessions == Arranged(old(org), old(sessions), promote, key)
      ensures changed <==> org.order != old(org.order) || GroupOrder(org) != GroupOrder(old(org))
    {
      var o, ss := org, sessions;
      var selected := FindSelectedGroup(o, ss, key);
      var sessionRank, order, newSession := RankAll(o.order, Identities(ss));
      var groupRank, groups, newGroup := RankAll(GroupOrder(o), GroupIds(o, ss));
      org := o.(order := order, groupOrders := o.groupOrders[o.mode := groups]);
      changed := newSession || newGroup;
      var less := (a, b) => RankLess(o, promote, selected, sessionRank, groupRank, a, b);
      sessions := SortBy(less, ss);
      RankSort(o, ss, NextView(o, ss, promote, key), sessionRank, groupRank, less);
    }
  }

  method FindSelectedGroup(o: Organization, ss: seq<Session>, key: string) returns (selected: string)
    ensures selected == SelectedGroup(o, ss, key)
  {
    selected := "";
    var rest := ss;
    while rest != []
      invariant selected == "" && SelectedGroup(o, rest, key) == SelectedGroup(o, ss, key)
    {
      if Key(rest[0]) == key {
        return GroupOf(o, rest[0]);
      }
      rest := rest[1..];
    }
  }

  lemma {:induction false} RankSort(o: Organization, ss: seq<Session>, v: View, sessionRank: map<Identity, nat>,
                                    groupRank: map<string, nat>, less: (Session, Session) -> bool)
    requires v.org == Registered(o, ss)
    requires Ranks(sessionRank, v.org.order) && Ranks(groupRank, GroupOrder(v.org))
    requires forall a, b :: less(a, b) == RankLess(o, v.promote, v.selected, sessionRank, groupRank, a, b)
    ensures SortBy(less, ss) == SortBy(By(v), ss)
  {
    AllKnown(o, ss);
    forall a, b | a in ss && b in ss
      ensures less(a, b) == By(v)(a, b)
    {
      RankLessIsLess(v, sessionRank, groupRank, a, b);
    }
    SortByAgree(less, By(v), ss);
  }

  lemma {:induction false} IdentitiesMember(ss: seq<Session>, x: Session)
    requires x in ss && x.identity.Some?
    ensures x.identity.value in Identities(ss)
  {
    if x != ss[0] {
      IdentitiesMember(ss[1..], x);
    }
  }

  lemma {:induction false} GroupIdsMember(o: Organization, ss: seq<Session>, x: Session)
    requires x in ss
    ensures GroupOf(o, x) in GroupIds(o, ss)
  {
    if x != ss[0] {
      GroupIdsMember(o, ss[1..], x);
    }
  }

  lemma {:induction false} AllKnown(o: Organization, ss: seq<Session>)
    ensures forall x :: x in ss ==> Known(Registered(o, ss), x)
  {
    RegisterExtends(o.order, Identities(ss));
    RegisterExtends(GroupOrder(o), GroupIds(o, ss));
    forall x | x in ss
      ensures Known(Registered(o, ss), x)
    {
      GroupIdsMember(o, ss, x);
      if x.identity.Some? {
        IdentitiesMember(ss, x);
      }
    }
  }

  /** Arranging permutes the rows and sorts them; the saved orders are only appended to. */
  lemma {:induction false} ArrangedIsSorted(o: Organization, ss: seq<Session>, promote: bool, key: string)
    ensures multiset(Arranged(o, ss, promote, key)) == multiset(ss)
    ensures Sorted(By(NextView(o, ss, promote, key)), Arranged(o, ss, promote, key))
    ensures o.order <= Registered(o, ss).order && GroupOrder(o) <= GroupOrder(Registered(o, ss))
    ensures forall x :: x in Arranged(o, ss, promote, key) ==> Known(Registered(o, ss), x)
  {
    LessIsStrictWeak(NextView(o, ss, promote, key));
    SortBySorted(By(NextView(o, ss, promote, key)), ss);
    RegisterExtends(o.order, Identities(ss));
    RegisterExtends(GroupOrder(o), GroupIds(o, ss));
    AllKnown(o, ss);
    SameMembers(Arranged(o, ss, promote, key), ss);
  }

  lemma {:induction false} RanksAscend(v: View, a: seq<Session>, i: nat, j: nat)
    requires Sorted(By(v), a) && i <= j < |a|
    ensures GroupRank(v, a[i]) <= GroupRank(v, a[j])
  {
  }

  /** The rows of a group are next to one another. */
  lemma {:induction false} GroupsAreContiguous(o: Organization, ss: seq<Session>, promote: bool, key: string,
                                               i: nat, j: nat, k: nat)
    requires i <= j <= k < |ss|
    ensures var a := Arranged(o, ss, promote, key);
            GroupOf(o, a[i]) == GroupOf(o, a[k]) ==> GroupOf(o, a[j]) == GroupOf(o, a[i])
  {
    var v, a := NextView(o, ss, promote, key), Arranged(o, ss, promote, key);
    ArrangedIsSorted(o, ss, promote, key);
    RanksAscend(v, a, i, j);
    RanksAscend(v, a, j, k);
    assert Known(v.org, a[j]);
    if GroupOf(o, a[i]) == GroupOf(o, a[k]) {
      SameFirst(GroupOrder(v.org), GroupOf(o, a[j]), GroupOf(o, a[i]));
    }
  }

  // ---------------------------------------------------------------- a second call

  lemma {:induction false} RegisterIdentities(order: seq<Identity>, ss: seq<Session>)
    requires forall x :: x in ss && x.identity.Some? ==> x.identity.value in order
    ensures Register(order, Identities(ss)) == order
  {
    if ss != [] {
      RegisterIdentities(order, ss[1..]);
      if ss[0].identity.Some? {
        assert ss[0] in ss;
        assert Identities(ss)[1..] == Identities(ss[1..]);
      } else {
        assert Identities(ss) == Identities(ss[1..]);
      }
    }
  }

  lemma {:induction false} RegisterGroups(order: seq<string>, o: Organization, ss: seq<Session>)
    requires forall x :: x in ss ==> GroupOf(o, x) in order
    ensures Register(order, GroupIds(o, ss)) == order
  {
    if ss != [] {
      RegisterGroups(order, o, ss[1..]);
      assert ss[0] in ss;
      assert GroupIds(o, ss)[1..] == GroupIds(o, ss[1..]);
    }
  }

  lemma {:induction false} RegisteredTwice(o: Organization, a: seq<Session>)
    requires o.mode in o.groupOrders
    requires forall x :: x in a ==> Known(o, x)
    ensures Registered(o, a) == o
  {
    RegisterIdentities(o.order, a);
    RegisterGroups(GroupOrder(o), o, a);
    assert o.groupOrders[o.mode := GroupOrder(o)] == o.groupOrders;
  }

  /** A second call finds every session and group in the saved orders, so it reports no change; and with the
      same group selected it leaves every row where it is. */
  lemma {:induction false} SecondCallChangesNothing(o: Organization, ss: seq<Session>, promote: bool, key: string)
    ensures Registered(Registered(o, ss), Arranged(o, ss, promote, key)) == Registered(o, ss)
    ensures SelectedGroup(o, Arranged(o, ss, promote, key), key) == SelectedGroup(o, ss, key) ==>
              Arranged(Registered(o, ss), Arranged(o, ss, promote, key), promote, key) == Arranged(o, ss, promote, key)
  {
    var o1, a := Registered(o, ss), Arranged(o, ss, promote, key);
    ArrangedIsSorted(o, ss, promote, key);
    RegisteredTwice(o1, a);
    SelectedGroupAgrees(o, o1, a, key);
    SortByIdempotent(By(NextView(o, ss, promote, key)), a);
  }

  lemma {:induction false} SelectedGroupAgrees(o: Organization, o1: Organization, ss: seq<Session>, key: string)
    requires forall s :: GroupOf(o1, s) == GroupOf(o, s)
    ensures SelectedGroup(o1, ss, key) == SelectedGroup(o, ss, key)
  {
    if ss != [] {
      SelectedGroupAgrees(o, o1, ss[1..], key);
    }
  }

  lemma {:induction false} SelectedGroupIs(o: Organization, ss: seq<Session>, key: string)
    ensures || (SelectedGroup(o, ss, key) == "" && forall x :: x in ss ==> Key(x) != key)
            || (exists x :: x in ss && Key(x) == key && SelectedGroup(o, ss, key) == GroupOf(o, x))
  {
    if ss != [] {
      if Key(ss[0]) == key {
        assert ss[0] in ss && SelectedGroup(o, ss, key) == GroupOf(o, ss[0]);
      } else {
        SelectedGroupIs(o, ss[1..], key);
      }
    }
  }

  /** The selected group survives the arranging whenever rows of one key are of one group. */
  lemma {:induction false} SelectedGroupStays(o: Organization, ss: seq<Session>, promote: bool, key: string)
    requires forall x, y :: x in ss && y in ss && Key(x) == Key(y) ==> GroupOf(o, x) == GroupOf(o, y)
    ensures SelectedGroup(o, Arranged(o, ss, promote, key), key) == SelectedGroup(o, ss, key)
  {
    SameMembers(Arranged(o, ss, promote, key), ss);
    SelectedGroupIs(o, ss, key);
    SelectedGroupIs(o, Arranged(o, ss, promote, key), key);
  }

  // ---------------------------------------------------------------- unread flags

  function Quiet(s: Session): Session {
    s.(unread := false)
  }

  /** Rows of one group; the same row, but for its flag, where unread rows are not promoted. */
  predicate Alike(v: View, a: Session, b: Session) {
    GroupRank(v, a) == GroupRank(v, b) && ((v.promote && !InSelected(v, a)) || Quiet(a) == Quiet(b))
  }

  predicate AllAlike(v: View, a: seq<Session>, b: seq<Session>) {
    |a| == |b| && forall i :: 0 <= i < |a| ==> Alike(v, a[i], b[i])
  }

  /** Comparisons of alike rows only differ inside a promoted group, where all rows are alike. */
  lemma {:induction false} AlikeLess(v: View, a: Session, b: Session, x: Session, y: Session)
    requires Alike(v, a, b) && Alike(v, x, y)
    ensures Less(v, a, x) != Less(v, b, y) ==> Alike(v, x, b) && Alike(v, a, y) && Alike(v, a, x) && Alike(v, b, y)
  {
    if GroupRank(v, a) == GroupRank(v, x) && !(v.promote && !InSelected(v, a)) {
      SameQuiet(v, a, b);
      SameQuiet(v, x, y);
    }
  }

  lemma {:induction false} SameQuiet(v: View, a: Session, b: Session)
    requires Quiet(a) == Quiet(b)
    ensures Key(a) == Key(b) && SavedRank(v, a) == SavedRank(v, b) && GroupOf(v.org, a) == GroupOf(v.org, b)
  {
  }

  lemma {:induction false} AlikeJoin(v: View, a: Session, b: Session, s: seq<Session>, t: seq<Session>)
    requires Alike(v, a, b) && AllAlike(v, s, t)
    ensures AllAlike(v, [a] + s, [b] + t)
  {
  }

  lemma {:induction false} AlikeTail(v: View, s: seq<Session>, t: seq<Session>)
    requires AllAlike(v, s, t) && s != []
    ensures Alike(v, s[0], t[0]) && AllAlike(v, s[1..], t[1..])
  {
  }

  lemma {:induction false} SortedTail(v: View, s: seq<Session>)
    requires Sorted(By(v), s) && s != []
    ensures Sorted(By(v), s[1..])
  {
  }

  /** Inserting into a group keeps its place among the groups, wherever in the group it lands: the two
      insertions may diverge inside a promoted group and meet again behind it. */
  lemma {:induction false} InsertAlike(v: View, x: Session, y: Session, s: seq<Session>, t: seq<Session>)
    requires Alike(v, x, y) && AllAlike(v, s, t) && Sorted(By(v), s) && Sorted(By(v), t)
    ensures AllAlike(v, Insert(By(v), x, s), Insert(By(v), y, t))
    decreases |s|
  {
    if s == [] {
      AlikeJoin(v, x, y, s, t);
    } else {
      var s1, t1 := s[1..], t[1..];
      AlikeTail(v, s, t);
      SortedTail(v, s);
      SortedTail(v, t);
      AlikeLess(v, s[0], t[0], x, y);
      if By(v)(s[0], x) && By(v)(t[0], y) {
        InsertAlike(v, x, y, s1, t1);
        AlikeJoin(v, s[0], t[0], Insert(By(v), x, s1), Insert(By(v), y, t1));
      } else if By(v)(s[0], x) {
        InsertAlike(v, x, t[0], s1, t1);
        InsertHead(v, t);
        AlikeJoin(v, s[0], y, Insert(By(v), x, s1), t);
      } else if By(v)(t[0], y) {
        InsertAlike(v, s[0], y, s1, t1);
        InsertHead(v, s);
        AlikeJoin(v, x, t[0], s, Insert(By(v), y, t1));
      } else {
        AlikeJoin(v, x, y, s, t);
      }
    }
  }

  lemma {:induction false} InsertHead(v: View, s: seq<Session>)
    requires s != [] && Sorted(By(v), s)
    ensures Insert(By(v), s[0], s[1..]) == s
  {
  }

  lemma {:induction false} SortAlike(v: View, s: seq<Session>, t: seq<Session>)
    requires AllAlike(v, s, t) && StrictWeak(By(v))
    ensures AllAlike(v, SortBy(By(v), s), SortBy(By(v), t))
  {
    if s != [] {
      assert AllAlike(v, s[1..], t[1..]);
      SortAlike(v, s[1..], t[1..]);
      SortBySorted(By(v), s[1..]);
      SortBySorted(By(v), t[1..]);
      InsertAlike(v, s[0], t[0], SortBy(By(v), s[1..]), SortBy(By(v), t[1..]));
    }
  }

  lemma {:induction false} QuietRows(o: Organization, ss: seq<Session>, tt: seq<Session>, key: string)
    requires |ss| == |tt| && forall i :: 0 <= i < |ss| ==> Quiet(ss[i]) == Quiet(tt[i])
    ensures Identities(ss) == Identities(tt) && GroupIds(o, ss) == GroupIds(o, tt)
    ensures SelectedGroup(o, ss, key) == SelectedGroup(o, tt, key)
  {
    if ss != [] {
      assert Quiet(ss[0]) == Quiet(tt[0]);
      assert ss[0].identity == Quiet(ss[0]).identity && tt[0].identity == Quiet(tt[0]).identity;
      assert Key(ss[0]) == Key(Quiet(ss[0])) && Key(tt[0]) == Key(Quiet(tt[0]));
      assert GroupOf(o, ss[0]) == GroupOf(o, Quiet(ss[0])) && GroupOf(o, tt[0]) == GroupOf(o, Quiet(tt[0]));
      QuietRows(o, ss[1..], tt[1..], key);
    }
  }

  lemma {:induction false} QuietRowsAlike(v: View, ss: seq<Session>, tt: seq<Session>)
    requires |ss| == |tt| && forall i :: 0 <= i < |ss| ==> Quiet(ss[i]) == Quiet(tt[i])
    ensures AllAlike(v, ss, tt)
  {
  }

  lemma {:induction false} AlikeKnown(v: View, a: Session, b: Session)
    requires Alike(v, a, b) && Known(v.org, a)
    ensures GroupOf(v.org, a) == GroupOf(v.org, b)
    ensures !v.promote || GroupOf(v.org, a) == v.selected ==> Quiet(a) == Quiet(b)
  {
  }

  /** Whatever the unread flags are, every line of the list is a row of the same group, and the rows of the
      selected group (all rows, if unread rows are not promoted) are on the same lines. */
  lemma {:induction false} UnreadNeverMovesSelectedRows(o: Organization, ss: seq<Session>, tt: seq<Session>,
                                                        promote: bool, key: string, i: nat)
    requires |ss| == |tt| && forall i :: 0 <= i < |ss| ==> Quiet(ss[i]) == Quiet(tt[i])
    requires i < |ss|
    ensures GroupOf(o, Arranged(o, ss, promote, key)[i]) == GroupOf(o, Arranged(o, tt, promote, key)[i])
    ensures !promote || GroupOf(o, Arranged(o, ss, promote, key)[i]) == SelectedGroup(o, ss, key) ==>
              Quiet(Arranged(o, ss, promote, key)[i]) == Quiet(Arranged(o, tt, promote, key)[i])
  {
    var v := NextView(o, ss, promote, key);
    QuietRows(o, ss, tt, key);
    assert NextView(o, tt, promote, key) == v;
    QuietRowsAlike(v, ss, tt);
    LessIsStrictWeak(v);
    SortAlike(v, ss, tt);
    ArrangedIsSorted(o, ss, promote, key);
    var a, b := Arranged(o, ss, promote, key), Arranged(o, tt, promote, key);
    assert Alike(v, a[i], b[i]) && a[i] in a;
    AlikeKnown(v, a[i], b[i]);
  }

  // ---------------------------------------------------------------- the order within a group

  lemma {:induction false} LaterIsNotLess(o: Organization, ss: seq<Session>, promote: bool, key: string, i: nat, j: nat)
    requires i < j < |ss|
    ensures var v, a := NextView(o, ss, promote, key), Arranged(o, ss, promote, key);
            !Less(v, a[j], a[i]) && Known(v.org, a[i]) && Known(v.org, a[j])
  {
    var v, a := NextView(o, ss, promote, key), Arranged(o, ss, promote, key);
    ArrangedIsSorted(o, ss, promote, key);
    assert !By(v)(a[j], a[i]);
    assert a[i] in a && a[j] in a;
  }

  /** In a group that is not the selected one, unread rows come first when they are promoted. */
  lemma {:induction false} UnreadComeFirst(o: Organization, ss: seq<Session>, key: string, i: nat, j: nat)
    requires i < j < |ss|
    ensures var a := Arranged(o, ss, true, key);
            GroupOf(o, a[i]) == GroupOf(o, a[j]) != SelectedGroup(o, ss, key) && a[j].unread ==> a[i].unread
  {
    var v, a := NextView(o, ss, true, key), Arranged(o, ss, true, key);
    LaterIsNotLess(o, ss, true, key, i, j);
    if GroupOf(o, a[i]) == GroupOf(o, a[j]) != SelectedGroup(o, ss, key) && InSelected(v, a[i]) {
      SameFirst(GroupOrder(v.org), GroupOf(o, a[i]), v.selected);
    }
  }

  /** Rows of a group that unread promotion does not part follow the saved order; rows without an identity come last,
      by key. */
  lemma {:induction false} RowsFollowSavedOrder(o: Organization, ss: seq<Session>, promote: bool, key: string,
                                                i: nat, j: nat)
    requires i < j < |ss|
    ensures var a, order := Arranged(o, ss, promote, key), Registered(o, ss).order;
            GroupOf(o, a[i]) == GroupOf(o, a[j]) && a[i].unread == a[j].unread ==>
              && (a[j].identity.Some? ==>
                    a[i].identity.Some? && First(order, a[i].identity.value) <= First(order, a[j].identity.value))
              && (a[i].identity.None? ==> !StringLess(Key(a[j]), Key(a[i])))
  {
    LaterIsNotLess(o, ss, promote, key, i, j);
  }

  /** Which rows share a group. */
  lemma {:induction false} SameGroupIff(o: Organization, a: Session, b: Session)
    ensures o.mode == Host ==> (GroupOf(o, a) == GroupOf(o, b) <==> a.client == b.client)
    ensures o.mode == Type ==> (GroupOf(o, a) == GroupOf(o, b) <==> a.shell == b.shell)
    ensures o.mode == Custom && a.identity == b.identity ==> GroupOf(o, a) == GroupOf(o, b)
    ensures o.mode == Custom && a.identity.Some? && a.identity.value in o.membership
              && o.membership[a.identity.value] != ""
            ==> GroupOf(o, a) == o.membership[a.identity.value]
    ensures o.mode == Custom && (a.identity.Some? ==> a.identity.value !in o.membership) ==> GroupOf(o, a) == UNGROUPED
    ensures o.mode == Custom ==> GroupOf(o, a) != ""
  {
    assert "shell"[0] != "agent"[0];
  }
}
