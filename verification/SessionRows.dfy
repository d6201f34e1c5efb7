/**
 The rows of the session list (sessionListRows in cmd/ducklord/main.go): a heading for every labelled group and,
 unless it is collapsed, a line for each of its sessions.
 */
module SessionRows {
  import opened Basics
  import opened Sessions
  import opened Organization

  /** `index` is the position of the session in the arranged list. */
  datatype ListRow = Heading(id: string, shown: string) | Line(id: string, index: nat)

  // ---------------------------------------------------------------- labels and members

  function FirstShown(groups: seq<CustomGroup>, id: string): string {
    if groups == [] then "Ungrouped" else if groups[0].id == id then groups[0].shown else FirstShown(groups[1..], id)
  }

  function LastShown(groups: seq<CustomGroup>, n: nat, id: string): string
    requires n <= |groups|
  {
    if n == 0 then (if id == UNGROUPED then "Ungrouped" else "")
    else if groups[n - 1].id == id then groups[n - 1].shown
    else LastShown(groups, n - 1, id)
  }

  /** organizationGroupLabel, which only depends on the group of the session. */
  function SessionLabel(o: Organization, id: string): string {
    if o.mode != Custom then id else if id == UNGROUPED then "Ungrouped" else FirstShown(o.groups, id)
  }

  /** The groups of the first n sessions, each once, in order of appearance. */
  function Seen(o: Organization, ss: seq<Session>, n: nat): seq<string>
    requires n <= |ss|
  {
    if n == 0 then []
    else
      var ids := Seen(o, ss, n - 1);
      if GroupOf(o, ss[n - 1]) in ids then ids else ids + [GroupOf(o, ss[n - 1])]
  }

  function Label(o: Organization, ss: seq<Session>, n: nat, id: string): string
    requires n <= |ss|
  {
    var preset := if o.mode == Custom then LastShown(o.groups, |o.groups|, id) else "";
    if preset == "" && id in Seen(o, ss, n) then SessionLabel(o, id) else preset
  }

  function Members(o: Organization, ss: seq<Session>, n: nat, id: string): seq<nat>
    requires n <= |ss|
  {
    if n == 0 then []
    else if GroupOf(o, ss[n - 1]) == id then Members(o, ss, n - 1, id) + [n - 1]
    else Members(o, ss, n - 1, id)
  }

  function Collapsed(o: Organization): seq<string> {
    if o.mode in o.collapsed then o.collapsed[o.mode] else []
  }

  function Lines(id: string, ms: seq<nat>): seq<ListRow> {
    seq(|ms|, i requires 0 <= i < |ms| => Line(id, ms[i]))
  }

  function Section(o: Organization, ss: seq<Session>, id: string): seq<ListRow> {
    [Heading(id, Label(o, ss, |ss|, id))] + (if id in Collapsed(o) then [] else Lines(id, Members(o, ss, |ss|, id)))
  }

  /** The sections of the groups that have a label, each once, in order of first occurrence. */
  function Sections(o: Organization, ss: seq<Session>, ids: seq<string>, emitted: set<string>): seq<ListRow> {
    if ids == [] then []
    else if ids[0] in emitted || Label(o, ss, |ss|, ids[0]) == "" then Sections(o, ss, ids[1..], emitted)
    else Section(o, ss, ids[0]) + Sections(o, ss, ids[1..], emitted + {ids[0]})
  }

  function HeadingOrder(o: Organization, ss: seq<Session>): seq<string> {
    GroupOrder(o) + Seen(o, ss, |ss|)
  }

  function Listing(o: Organization, ss: seq<Session>): seq<ListRow> {
    Sections(o, ss, HeadingOrder(o, ss), {})
  }

  // ---------------------------------------------------------------- computing the rows

  function Text(labels: map<string, string>, id: string): string {
    if id in labels then labels[id] else ""
  }

  function Listed(members: map<string, seq<nat>>, id: string): seq<nat> {
    if id in members then members[id] else []
  }

  method PresetLabels(o: Organization) returns (labels: map<string, string>)
    ensures forall id :: Text(labels, id) == if o.mode == Custom then LastShown(o.groups, |o.groups|, id) else ""
  {
    labels := map[];
    if o.mode == Custom {
      labels := labels[UNGROUPED := "Ungrouped"];
      for i := 0 to |o.groups|
        invariant forall id :: Text(labels, id) == LastShown(o.groups, i, id)
      {
        labels := labels[o.groups[i].id := o.groups[i].shown];
      }
    }
  }

  ghost predicate HoldsLabels(labels: map<string, string>, o: Organization, ss: seq<Session>, n: nat)
    requires n <= |ss|
  {
    forall id :: Text(labels, id) == Label(o, ss, n, id)
  }

  ghost predicate HoldsMembers(members: map<string, seq<nat>>, o: Organization, ss: seq<Session>, n: nat)
    requires n <= |ss|
  {
    forall id :: Listed(members, id) == Members(o, ss, n, id)
  }

  lemma {:induction false} LabelStep(o: Organization, ss: seq<Session>, i: nat, id: string)
    requires i < |ss|
    ensures Label(o, ss, i + 1, id) ==
            if id == GroupOf(o, ss[i]) && Label(o, ss, i, id) == "" then SessionLabel(o, id) else Label(o, ss, i, id)
  {
    assert id in Seen(o, ss, i + 1) <==> id in Seen(o, ss, i) || id == GroupOf(o, ss[i]);
  }

  lemma {:induction false} LabelsStep(labels: map<string, string>, o: Organization, ss: seq<Session>, i: nat)
    requires i < |ss| && HoldsLabels(labels, o, ss, i)
    ensures var id := GroupOf(o, ss[i]);
            HoldsLabels(if Text(labels, id) == "" then labels[id := SessionLabel(o, id)] else labels, o, ss, i + 1)
  {
    var id := GroupOf(o, ss[i]);
    var next := if Text(labels, id) == "" then labels[id := SessionLabel(o, id)] else labels;
    forall other
      ensures Text(next, other) == Label(o, ss, i + 1, other)
    {
      LabelStep(o, ss, i, other);
      assert Text(labels, other) == Label(o, ss, i, other);
    }
  }

  lemma {:induction false} MembersStep(members: map<string, seq<nat>>, o: Organization, ss: seq<Session>, i: nat)
    requires i < |ss| && HoldsMembers(members, o, ss, i)
    ensures var id := GroupOf(o, ss[i]); HoldsMembers(members[id := Listed(members, id) + [i]], o, ss, i + 1)
  {
    var id := GroupOf(o, ss[i]);
    var next := members[id := Listed(members, id) + [i]];
    forall other
      ensures Listed(next, other) == Members(o, ss, i + 1, other)
    {
      assert Listed(members, other) == Members(o, ss, i, other);
    }
  }

  lemma {:induction false} SeenStep(o: Organization, ss: seq<Session>, i: nat, seen: set<string>, order: seq<string>)
    requires i < |ss| && HoldsSeen(seen, o, ss, i) && order == GroupOrder(o) + Seen(o, ss, i)
    ensures var id := GroupOf(o, ss[i]);
            && HoldsSeen(seen + {id}, o, ss, i + 1)
            && (if id in seen then order else order + [id]) == GroupOrder(o) + Seen(o, ss, i + 1)
  {
  }

  ghost predicate HoldsSeen(seen: set<string>, o: Organization, ss: seq<Session>, n: nat)
    requires n <= |ss|
  {
    forall id :: id in seen <==> id in Seen(o, ss, n)
  }

  /** One session of the loop. */
  method CollectOne(o: Organization, ss: seq<Session>, i: nat, labels: map<string, string>,
                    members: map<string, seq<nat>>)
    returns (labels': map<string, string>, members': map<string, seq<nat>>)
    requires i < |ss| && HoldsLabels(labels, o, ss, i) && HoldsMembers(members, o, ss, i)
    ensures HoldsLabels(labels', o, ss, i + 1) && HoldsMembers(members', o, ss, i + 1)
  {
    var id := GroupOf(o, ss[i]);
    LabelsStep(labels, o, ss, i);
    MembersStep(members, o, ss, i);
    labels' := if Text(labels, id) == "" then labels[id := SessionLabel(o, id)] else labels;
    members' := members[id := Listed(members, id) + [i]];
  }

  method CollectGroups(o: Organization, ss: seq<Session>)
    returns (labels: map<string, string>, members: map<string, seq<nat>>, order: seq<string>)
    ensures HoldsLabels(labels, o, ss, |ss|) && HoldsMembers(members, o, ss, |ss|) && order == HeadingOrder(o, ss)
  {
    labels := PresetLabels(o);
    members := map[];
    order := GroupOrder(o);
    var seen: set<string> := {};
    for i := 0 to |ss|
      invariant HoldsLabels(labels, o, ss, i) && HoldsMembers(members, o, ss, i)
      invariant order == GroupOrder(o) + Seen(o, ss, i)
      invariant HoldsSeen(seen, o, ss, i)
    {
      SeenStep(o, ss, i, seen, order);
      labels, members := CollectOne(o, ss, i, labels, members);
      var id := GroupOf(o, ss[i]);
      if id !in seen {
        order := order + [id];
      }
      seen := seen + {id};
    }
  }

  method AppendLines(rows: seq<ListRow>, id: string, ms: seq<nat>) returns (r: seq<ListRow>)
    ensures r == rows + Lines(id, ms)
  {
    r := rows;
    for i := 0 to |ms|
      invariant r == rows + Lines(id, ms)[..i]
    {
      r := r + [Line(id, ms[i])];
    }
  }

  /** sessionListRows. */
  method ListRows(o: Organization, ss: seq<Session>) returns (rows: seq<ListRow>)
    ensures rows == Listing(o, ss)
  {
    var labels, members, order := CollectGroups(o, ss);
    rows := [];
    var emitted: set<string>, rest := {}, order;
    while rest != []
      invariant rows + Sections(o, ss, rest, emitted) == Listing(o, ss)
    {
      var id := rest[0];
      if id !in emitted && Text(labels, id) != "" {
        emitted := emitted + {id};
        Assoc(rows, Section(o, ss, id), Sections(o, ss, rest[1..], emitted));
        rows := AppendSection(o, ss, rows, id, labels, members);
      }
      rest := rest[1..];
    }
  }

  method AppendSection(o: Organization, ss: seq<Session>, rows: seq<ListRow>, id: string,
                       labels: map<string, string>, members: map<string, seq<nat>>) returns (r: seq<ListRow>)
    requires HoldsLabels(labels, o, ss, |ss|) && HoldsMembers(members, o, ss, |ss|)
    ensures r == rows + Section(o, ss, id)
  {
    r := rows + [Heading(id, Text(labels, id))];
    if id !in Collapsed(o) {
      r := AppendLines(r, id, Listed(members, id));
    }
  }

  // ---------------------------------------------------------------- what is listed

  lemma {:induction false} SeenIs(o: Organization, ss: seq<Session>, n: nat, k: nat)
    requires k < n <= |ss|
    ensures GroupOf(o, ss[k]) in Seen(o, ss, n)
  {
    if k < n - 1 {
      SeenIs(o, ss, n - 1, k);
    }
  }

  lemma {:induction false} MembersCount(o: Organization, ss: seq<Session>, n: nat, id: string, k: nat)
    requires n <= |ss|
    ensures multiset(Members(o, ss, n, id))[k] == if k < n && GroupOf(o, ss[k]) == id then 1 else 0
  {
    if n != 0 {
      MembersCount(o, ss, n - 1, id, k);
    }
  }

  lemma {:induction false} LinesCount(id: string, ms: seq<nat>, g: string, k: nat)
    ensures multiset(Lines(id, ms))[Line(g, k)] == if g == id then multiset(ms)[k] else 0
    decreases |ms|
  {
    if ms != [] {
      var n := |ms| - 1;
      LinesCount(id, ms[..n], g, k);
      assert Lines(id, ms) == Lines(id, ms[..n]) + [Line(id, ms[n])];
      assert ms == ms[..n] + [ms[n]];
    }
  }

  lemma {:induction false} LinesHoldNoHeading(id: string, ms: seq<nat>, g: string, shown: string)
    ensures multiset(Lines(id, ms))[Heading(g, shown)] == 0
  {
  }

  predicate Visible(o: Organization, ss: seq<Session>, id: string) {
    Label(o, ss, |ss|, id) != "" && id !in Collapsed(o)
  }

  lemma {:induction false} SectionCount(o: Organization, ss: seq<Session>, id: string, g: string, k: nat)
    ensures multiset(Section(o, ss, id))[Line(g, k)] ==
            if g == id && id !in Collapsed(o) && k < |ss| && GroupOf(o, ss[k]) == g then 1 else 0
    ensures forall shown :: multiset(Section(o, ss, id))[Heading(g, shown)] ==
                            if g == id && shown == Label(o, ss, |ss|, id) then 1 else 0
  {
    MembersCount(o, ss, |ss|, id, k);
    LinesCount(id, Members(o, ss, |ss|, id), g, k);
    forall shown
      ensures multiset(Section(o, ss, id))[Heading(g, shown)]
           == if g == id && shown == Label(o, ss, |ss|, id) then 1 else 0
    {
      LinesHoldNoHeading(id, Members(o, ss, |ss|, id), g, shown);
    }
  }

  lemma {:induction false} SectionsCount(o: Organization, ss: seq<Session>, ids: seq<string>, emitted: set<string>,
                                         g: string, k: nat)
    ensures multiset(Sections(o, ss, ids, emitted))[Line(g, k)] ==
            if g in ids && g !in emitted && Visible(o, ss, g) && k < |ss| && GroupOf(o, ss[k]) == g then 1 else 0
    ensures forall shown :: multiset(Sections(o, ss, ids, emitted))[Heading(g, shown)] ==
                            if g in ids && g !in emitted && shown == Label(o, ss, |ss|, g) && shown != "" then 1 else 0
    decreases |ids|
  {
    if ids != [] {
      if ids[0] in emitted || Label(o, ss, |ss|, ids[0]) == "" {
        SectionsCount(o, ss, ids[1..], emitted, g, k);
      } else {
        SectionsCount(o, ss, ids[1..], emitted + {ids[0]}, g, k);
        SectionCount(o, ss, ids[0], g, k);
      }
    }
  }

  /** Every session of a labelled, uncollapsed group is listed exactly once, under its own group, and no other
      line is listed; every labelled group has exactly one heading. */
  lemma {:induction false} EachSessionListedOnce(o: Organization, ss: seq<Session>, g: string, k: nat)
    ensures multiset(Listing(o, ss))[Line(g, k)] ==
            if k < |ss| && GroupOf(o, ss[k]) == g && Visible(o, ss, g) then 1 else 0
    ensures forall shown :: multiset(Listing(o, ss))[Heading(g, shown)] ==
                            if g in HeadingOrder(o, ss) && shown == Label(o, ss, |ss|, g) && shown != "" then 1 else 0
  {
    SectionsCount(o, ss, HeadingOrder(o, ss), {}, g, k);
    if k < |ss| && GroupOf(o, ss[k]) == g {
      SeenIs(o, ss, |ss|, k);
    }
  }

  lemma {:induction false} FirstShownIs(groups: seq<CustomGroup>, id: string)
    requires forall c :: c in groups ==> c.shown != ""
    ensures FirstShown(groups, id) != ""
  {
    if groups != [] {
      assert groups[0] in groups;
      FirstShownIs(groups[1..], id);
    }
  }

  /** With displayed names for all custom groups, the only sessions without a label are those of a nameless
      host in host mode. */
  lemma {:induction false} UnlabelledIff(o: Organization, ss: seq<Session>, k: nat)
    requires k < |ss| && forall c :: c in o.groups ==> c.shown != ""
    ensures Label(o, ss, |ss|, GroupOf(o, ss[k])) == "" <==> o.mode == Host && ss[k].client == ""
  {
    SeenIs(o, ss, |ss|, k);
    FirstShownIs(o.groups, GroupOf(o, ss[k]));
  }

  lemma {:induction false} ShownAre(groups: seq<CustomGroup>, k: nat, n: nat)
    requires k < n <= |groups| && forall i, j :: 0 <= i < j < |groups| ==> groups[i].id != groups[j].id
    ensures LastShown(groups, n, groups[k].id) == groups[k].shown
  {
    if k < n - 1 {
      ShownAre(groups, k, n - 1);
    }
  }

  /** A heading shows the name of its group: that of the custom group, or the host or kind itself. */
  lemma {:induction false} HeadingShowsGroup(o: Organization, ss: seq<Session>, g: string)
    requires forall i, j :: 0 <= i < j < |o.groups| ==> o.groups[i].id != o.groups[j].id
    ensures o.mode != Custom && g in Seen(o, ss, |ss|) ==> Label(o, ss, |ss|, g) == g
    ensures o.mode == Custom ==>
              forall k :: 0 <= k < |o.groups| && o.groups[k].id == g && o.groups[k].shown != "" ==>
                Label(o, ss, |ss|, g) == o.groups[k].shown
  {
    forall k | o.mode == Custom && 0 <= k < |o.groups| && o.groups[k].id == g && o.groups[k].shown != ""
      ensures Label(o, ss, |ss|, g) == o.groups[k].shown
    {
      ShownAre(o.groups, k, |o.groups|);
    }
  }

  // ---------------------------------------------------------------- the order of the lines

  ghost predicate Ascending(rows: seq<ListRow>) {
    forall i, j :: 0 <= i < j < |rows| && rows[i].Line? && rows[j].Line? ==> rows[i].index < rows[j].index
  }

  /** Sessions of the groups still to come stand in the order of the groups. */
  ghost predicate InGroupOrder(o: Organization, ss: seq<Session>, ids: seq<string>, emitted: set<string>) {
    forall j, k :: 0 <= j <= k < |ss| && Pending(o, ss, emitted, j) && Pending(o, ss, emitted, k) ==>
      First(ids, GroupOf(o, ss[j])) <= First(ids, GroupOf(o, ss[k]))
  }

  predicate Pending(o: Organization, ss: seq<Session>, emitted: set<string>, k: nat)
    requires k < |ss|
  {
    GroupOf(o, ss[k]) !in emitted && Label(o, ss, |ss|, GroupOf(o, ss[k])) != ""
  }

  lemma {:induction false} MembersAscend(o: Organization, ss: seq<Session>, n: nat, id: string)
    requires n <= |ss|
    ensures forall i, j :: 0 <= i < j < |Members(o, ss, n, id)| ==> Members(o, ss, n, id)[i] < Members(o, ss, n, id)[j]
    ensures forall i :: 0 <= i < |Members(o, ss, n, id)| ==> Members(o, ss, n, id)[i] < n
  {
    if n != 0 {
      MembersAscend(o, ss, n - 1, id);
    }
  }

  lemma {:induction false} LineIn(o: Organization, ss: seq<Session>, ids: seq<string>, emitted: set<string>, i: nat)
    requires i < |Sections(o, ss, ids, emitted)| && Sections(o, ss, ids, emitted)[i].Line?
    ensures var row := Sections(o, ss, ids, emitted)[i];
            row.index < |ss| && GroupOf(o, ss[row.index]) == row.id && Pending(o, ss, emitted, row.index)
                && row.id in ids
  {
    var rows := Sections(o, ss, ids, emitted);
    SectionsCount(o, ss, ids, emitted, rows[i].id, rows[i].index);
    assert rows[i] in multiset(rows);
  }

  lemma {:induction false} SectionLine(o: Organization, ss: seq<Session>, id: string, i: nat)
    requires i < |Section(o, ss, id)| && Section(o, ss, id)[i].Line?
    ensures var row := Section(o, ss, id)[i]; row.id == id && row.index < |ss| && GroupOf(o, ss[row.index]) == id
  {
    var row := Section(o, ss, id)[i];
    SectionCount(o, ss, id, row.id, row.index);
    assert row in multiset(Section(o, ss, id));
  }

  lemma {:induction false} SectionAscends(o: Organization, ss: seq<Session>, id: string)
    ensures Ascending(Section(o, ss, id))
  {
    MembersAscend(o, ss, |ss|, id);
  }

  lemma {:induction false} AscendingJoin(a: seq<ListRow>, b: seq<ListRow>)
    requires Ascending(a) && Ascending(b)
    requires forall i, j :: 0 <= i < |a| && 0 <= j < |b| && a[i].Line? && b[j].Line? ==> a[i].index < b[j].index
    ensures Ascending(a + b)
  {
  }

  lemma {:induction false} InGroupOrderTail(o: Organization, ss: seq<Session>, ids: seq<string>, emitted: set<string>,
                                            now: set<string>)
    requires ids != [] && InGroupOrder(o, ss, ids, emitted)
    requires now == emitted + {ids[0]} || (now == emitted && (ids[0] in emitted || Label(o, ss, |ss|, ids[0]) == ""))
    ensures InGroupOrder(o, ss, ids[1..], now)
  {
  }

  lemma {:induction false} SectionsAscend(o: Organization, ss: seq<Session>, ids: seq<string>, emitted: set<string>)
    requires InGroupOrder(o, ss, ids, emitted)
    ensures Ascending(Sections(o, ss, ids, emitted))
    decreases |ids|
  {
    if ids != [] {
      if ids[0] in emitted || Label(o, ss, |ss|, ids[0]) == "" {
        InGroupOrderTail(o, ss, ids, emitted, emitted);
        SectionsAscend(o, ss, ids[1..], emitted);
      } else {
        var now := emitted + {ids[0]};
        InGroupOrderTail(o, ss, ids, emitted, now);
        SectionsAscend(o, ss, ids[1..], now);
        SectionAscends(o, ss, ids[0]);
        var a, b := Section(o, ss, ids[0]), Sections(o, ss, ids[1..], now);
        forall i, j | 0 <= i < |a| && 0 <= j < |b| && a[i].Line? && b[j].Line?
          ensures a[i].index < b[j].index
        {
          SectionLine(o, ss, ids[0], i);
          LineIn(o, ss, ids[1..], now, j);
          assert Pending(o, ss, emitted, a[i].index) && Pending(o, ss, emitted, b[j].index);
        }
        AscendingJoin(a, b);
      }
    }
  }

  lemma {:induction false} ArrangedInGroupOrder(o: Organization, ss: seq<Session>, promote: bool, key: string)
    ensures var o1, a := Registered(o, ss), Arranged(o, ss, promote, key);
            InGroupOrder(o1, a, HeadingOrder(o1, a), {})
  {
    var v, a := NextView(o, ss, promote, key), Arranged(o, ss, promote, key);
    var o1 := v.org;
    ArrangedIsSorted(o, ss, promote, key);
    forall j, k | 0 <= j <= k < |a|
      ensures First(HeadingOrder(o1, a), GroupOf(o1, a[j])) <= First(HeadingOrder(o1, a), GroupOf(o1, a[k]))
    {
      RanksAscend(v, a, j, k);
      assert Known(o1, a[j]) && Known(o1, a[k]);
      FirstOfPrefix(GroupOrder(o1), Seen(o1, a, |a|), GroupOf(o1, a[j]));
      FirstOfPrefix(GroupOrder(o1), Seen(o1, a, |a|), GroupOf(o1, a[k]));
    }
  }

  /** After the rows have been arranged, the list shows them from top to bottom in the order they are in. */
  lemma {:induction false} ListingFollowsArrangement(o: Organization, ss: seq<Session>, promote: bool, key: string)
    ensures Ascending(Listing(Registered(o, ss), Arranged(o, ss, promote, key)))
  {
    var o1, a := Registered(o, ss), Arranged(o, ss, promote, key);
    ArrangedInGroupOrder(o, ss, promote, key);
    SectionsAscend(o1, a, HeadingOrder(o1, a), {});
  }
}
