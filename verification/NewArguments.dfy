/**
 The arguments of the `!new` chat command (ParseNewArgs in internal/cccommand/validate.go): one slug and
 the options --cwd, --project and --topic, each with a value.
 */
module NewArguments {
  import opened Basics

  datatype NewArgs = NewArgs(slug: string, cwd: string, project: string, topic: string)

  datatype Key = Cwd | ProjectKey | Topic

  datatype Error =
    | Unsupported(arg: string) | Repeated(arg: string) | NeedsValue(arg: string)
    | Unexpected(arg: string) | MissingSlug | CwdAndProject

  datatype Result = Ok(args: NewArgs) | Err(error: Error)

  /** unicode.IsSpace. */
  predicate IsSpace(c: char) {
    || '\t' <= c <= '\r' || c == ' ' || c == '\U{85}' || c == '\U{A0}' || c == '\U{1680}'
    || '\U{2000}' <= c <= '\U{200A}' || c == '\U{2028}' || c == '\U{2029}' || c == '\U{202F}'
    || c == '\U{205F}' || c == '\U{3000}'
  }

  /** strings.TrimSpace leaves nothing. */
  predicate IsBlank(s: string) {
    forall i :: 0 <= i < |s| ==> IsSpace(s[i])
  }

  predicate IsLong(s: string) {
    "--" <= s
  }

  function Flag(k: Key): string {
    match k
    case Cwd => "--cwd"
    case ProjectKey => "--project"
    case Topic => "--topic"
  }

  function KeyOf(arg: string): Option<Key> {
    if arg == "--cwd" then Some(Cwd) else if arg == "--project" then Some(ProjectKey)
    else if arg == "--topic" then Some(Topic) else None
  }

  function Get(a: NewArgs, k: Key): string {
    match k case Cwd => a.cwd case ProjectKey => a.project case Topic => a.topic
  }

  function Set(a: NewArgs, k: Key, v: string): NewArgs {
    match k case Cwd => a.(cwd := v) case ProjectKey => a.(project := v) case Topic => a.(topic := v)
  }

  predicate IsValue(v: string) {
    !IsBlank(v) && !IsLong(v)
  }

  predicate LooksLikeOption(s: string) {
    "-" <= s
  }

  const EMPTY := NewArgs("", "", "", "")

  function Finish(a: NewArgs): Result {
    if a.slug == "" then Err(MissingSlug)
    else if a.cwd != "" && a.project != "" then Err(CwdAndProject)
    else Ok(a)
  }

  function ParseFrom(a: NewArgs, seen: set<Key>, args: seq<string>): Result
    decreases |args|
  {
    if args == [] then Finish(a)
    else if IsLong(args[0]) then
      var k := KeyOf(args[0]);
      if k.None? then Err(Unsupported(args[0]))
      else if k.value in seen then Err(Repeated(args[0]))
      else if |args| < 2 || !IsValue(args[1]) then Err(NeedsValue(args[0]))
      else ParseFrom(Set(a, k.value, args[1]), seen + {k.value}, args[2..])
    else if LooksLikeOption(args[0]) then Err(Unsupported(args[0]))
    else if a.slug != "" then Err(Unexpected(args[0]))
    else ParseFrom(a.(slug := args[0]), seen, args[1..])
  }

  function Parse(args: seq<string>): Result {
    ParseFrom(EMPTY, {}, args)
  }

  /** ParseNewArgs. */
  method ParseNewArgs(args: seq<string>) returns (r: Result)
    ensures r == Parse(args)
  {
    var parsed, seen: set<Key> := EMPTY, {};
    var i := 0;
    while i < |args|
      invariant 0 <= i <= |args|
      invariant Parse(args) == ParseFrom(parsed, seen, args[i..])
    {
      var arg := args[i];
      assert args[i..][0] == arg && args[i..][1..] == args[i + 1..];
      if IsLong(arg) {
        var k := KeyOf(arg);
        if k.None? {
          return Err(Unsupported(arg));
        }
        if k.value in seen {
          return Err(Repeated(arg));
        }
        if |args| <= i + 1 || IsBlank(args[i + 1]) || IsLong(args[i + 1]) {
          return Err(NeedsValue(arg));
        }
        assert args[i..][2..] == args[i + 2..];
        seen := seen + {k.value};
        parsed := Set(parsed, k.value, args[i + 1]);
        i := i + 2;
        continue;
      }
      if LooksLikeOption(arg) {
        return Err(Unsupported(arg));
      }
      if parsed.slug != "" {
        return Err(Unexpected(arg));
      }
      parsed := parsed.(slug := arg);
      i := i + 1;
    }
    r := Finish(parsed);
  }

  // ---------------------------------------------------------------- the canonical printer

  ghost predicate Valid(a: NewArgs) {
    && a.slug != "" && !LooksLikeOption(a.slug)
    && (forall k: Key :: Get(a, k) == "" || IsValue(Get(a, k)))
    && !(a.cwd != "" && a.project != "")
  }

  function PrintOption(a: NewArgs, k: Key): seq<string> {
    if Get(a, k) == "" then [] else [Flag(k), Get(a, k)]
  }

  function Print(a: NewArgs): seq<string> {
    [a.slug] + PrintOption(a, Cwd) + PrintOption(a, ProjectKey) + PrintOption(a, Topic)
  }

  // ---------------------------------------------------------------- option groups

  /** An argument list is made of groups: an option with its value, or a word. */
  datatype Group = Opt(key: Key, value: string) | Word(text: string)

  predicate WellFormed(g: Group) {
    match g
    case Opt(_, v) => IsValue(v)
    case Word(w) => !LooksLikeOption(w)
  }

  ghost predicate AllWellFormed(gs: seq<Group>) {
    forall i :: 0 <= i < |gs| ==> WellFormed(gs[i])
  }

  function Spell(g: Group): seq<string> {
    match g
    case Opt(k, v) => [Flag(k), v]
    case Word(w) => [w]
  }

  function Flat(gs: seq<Group>): seq<string> {
    if gs == [] then [] else Spell(gs[0]) + Flat(gs[1..])
  }

  datatype Progress = Failed | At(args: NewArgs, seen: set<Key>)

  function Take(p: Progress, g: Group): Progress {
    match p
    case Failed => Failed
    case At(a, seen) =>
      match g
      case Opt(k, v) => if k in seen then Failed else At(Set(a, k, v), seen + {k})
      case Word(w) => if a.slug != "" then Failed else At(a.(slug := w), seen)
  }

  function TakeAll(p: Progress, gs: seq<Group>): Progress
    decreases |gs|
  {
    if gs == [] then p else Take(TakeAll(p, gs[..|gs| - 1]), gs[|gs| - 1])
  }

  lemma {:induction false} TakeFirst(p: Progress, gs: seq<Group>)
    requires gs != []
    ensures TakeAll(p, gs) == TakeAll(Take(p, gs[0]), gs[1..])
    decreases |gs|
  {
    var front, last := gs[..|gs| - 1], gs[|gs| - 1];
    if front == [] {
      assert gs == [gs[0]];
      assert TakeAll(p, front) == p;
    } else {
      TakeFirst(p, front);
      assert front[1..] == gs[1..][..|gs[1..]| - 1];
    }
  }

  function FinishProgress(p: Progress): Option<NewArgs> {
    if p.At? && Finish(p.args).Ok? then Some(p.args) else None
  }

  function Accepted(r: Result): Option<NewArgs> {
    if r.Ok? then Some(r.args) else None
  }

  lemma {:induction false} FlagIsLong(k: Key)
    ensures IsLong(Flag(k)) && KeyOf(Flag(k)) == Some(k)
  {
  }

  lemma {:induction false} WordIsShort(w: string)
    requires !LooksLikeOption(w)
    ensures !IsLong(w)
  {
  }

  lemma {:induction false} FailedStays(gs: seq<Group>)
    ensures TakeAll(Failed, gs) == Failed
    decreases |gs|
  {
    if gs != [] {
      FailedStays(gs[..|gs| - 1]);
    }
  }

  /** Parsing the words of the groups is taking the groups one by one. */
  lemma {:induction false} ParseTakes(a: NewArgs, seen: set<Key>, gs: seq<Group>)
    requires AllWellFormed(gs)
    ensures Accepted(ParseFrom(a, seen, Flat(gs))) == FinishProgress(TakeAll(At(a, seen), gs))
    decreases |gs|
  {
    if gs != [] {
      TakeFirst(At(a, seen), gs);
      var rest, words := Flat(gs[1..]), Flat(gs);
      match gs[0]
      case Opt(k, v) =>
        FlagIsLong(k);
        assert words[0] == Flag(k) && words[1] == v && words[2..] == rest;
        if k in seen {
          FailedStays(gs[1..]);
        } else {
          ParseTakes(Set(a, k, v), seen + {k}, gs[1..]);
        }
      case Word(w) =>
        WordIsShort(w);
        assert words[0] == w && words[1..] == rest;
        if a.slug != "" {
          FailedStays(gs[1..]);
        } else {
          ParseTakes(a.(slug := w), seen, gs[1..]);
        }
    }
  }

  // ---------------------------------------------------------------- order does not matter

  lemma {:induction false} GetSet(a: NewArgs, k: Key, v: string, j: Key)
    ensures Get(Set(a, k, v), j) == (if j == k then v else Get(a, j)) && Set(a, k, v).slug == a.slug
  {
  }

  /** How often a group occurs when the bag sets these fields. */
  ghost function Expected(a: NewArgs, seen: set<Key>, g: Group): nat {
    match g
    case Opt(k, v) => if k in seen && v == Get(a, k) then 1 else 0
    case Word(w) => if w != "" && w == a.slug then 1 else 0
  }

  /** The groups of the bag set exactly these fields, each once. Empty words set nothing. */
  ghost predicate Sets(bag: multiset<Group>, a: NewArgs, seen: set<Key>) {
    && (forall g :: g != Word("") ==> bag[g] == Expected(a, seen, g))
    && (forall k :: k !in seen ==> Get(a, k) == "")
  }

  lemma {:induction false} SetsOpt(bag: multiset<Group>, a: NewArgs, seen: set<Key>, k: Key, v: string)
    requires Sets(bag, a, seen) && k !in seen
    ensures Sets(bag[Opt(k, v) := bag[Opt(k, v)] + 1], Set(a, k, v), seen + {k})
  {
  }

  lemma {:induction false} SetsWord(bag: multiset<Group>, a: NewArgs, seen: set<Key>, w: string)
    requires Sets(bag, a, seen) && a.slug == ""
    ensures Sets(bag[Word(w) := bag[Word(w)] + 1], a.(slug := w), seen)
  {
  }

  lemma {:induction false} UnsetOpt(bag: multiset<Group>, a: NewArgs, seen: set<Key>, k: Key, v: string)
    requires Sets(bag[Opt(k, v) := bag[Opt(k, v)] + 1], a, seen)
    ensures k in seen && v == Get(a, k)
    ensures Sets(bag, Set(a, k, ""), seen - {k})
    ensures Set(Set(a, k, ""), k, v) == a
  {
    var bag1, a0, seen0 := bag[Opt(k, v) := bag[Opt(k, v)] + 1], Set(a, k, ""), seen - {k};
    assert bag1[Opt(k, v)] == Expected(a, seen, Opt(k, v));
    forall g | g != Word("")
      ensures bag[g] == Expected(a0, seen0, g)
    {
      assert bag1[g] == Expected(a, seen, g);
      if g.Opt? {
        GetSet(a, k, "", g.key);
      } else {
        GetSet(a, k, "", k);
      }
    }
    forall j | j !in seen0
      ensures Get(a0, j) == ""
    {
      GetSet(a, k, "", j);
    }
  }

  lemma {:induction false} UnsetWord(bag: multiset<Group>, a: NewArgs, seen: set<Key>, w: string)
    requires Sets(bag[Word(w) := bag[Word(w)] + 1], a, seen) && w != ""
    ensures w == a.slug && Sets(bag, a.(slug := ""), seen)
  {
    var bag1, a0 := bag[Word(w) := bag[Word(w)] + 1], a.(slug := "");
    assert bag1[Word(w)] == Expected(a, seen, Word(w));
    assert forall k :: Get(a0, k) == Get(a, k);
    forall g | g != Word("")
      ensures bag[g] == Expected(a0, seen, g)
    {
      assert bag1[g] == Expected(a, seen, g);
    }
  }

  /** An empty word does not stop the search for the slug, but a word after the slug is an error, so an empty
      word has to come before it. */
  ghost predicate EmptyWordsFirst(gs: seq<Group>) {
    forall i, j :: 0 <= i < j < |gs| && gs[j] == Word("") && gs[i].Word? ==> gs[i] == Word("")
  }

  lemma {:induction false} BagOf(front: seq<Group>, g: Group)
    ensures multiset(front + [g]) == multiset(front)[g := multiset(front)[g] + 1]
  {
  }

  lemma {:induction false} TakeSound(gs: seq<Group>)
    requires AllWellFormed(gs)
    ensures var p := TakeAll(At(EMPTY, {}), gs);
            p.At? ==> Sets(multiset(gs), p.args, p.seen) && EmptyWordsFirst(gs)
    decreases |gs|
  {
    if gs != [] {
      var front, g := gs[..|gs| - 1], gs[|gs| - 1];
      assert gs == front + [g];
      TakeSound(front);
      BagOf(front, g);
      var p := TakeAll(At(EMPTY, {}), front);
      if Take(p, g).At? {
        match g
        case Opt(k, v) =>
          SetsOpt(multiset(front), p.args, p.seen, k, v);
        case Word(w) =>
          SetsWord(multiset(front), p.args, p.seen, w);
          NoWords(front, p.args, p.seen);
      }
    }
  }

  lemma {:induction false} NoWords(gs: seq<Group>, a: NewArgs, seen: set<Key>)
    requires Sets(multiset(gs), a, seen) && a.slug == ""
    ensures forall i :: 0 <= i < |gs| && gs[i].Word? ==> gs[i] == Word("")
  {
    forall i | 0 <= i < |gs| && gs[i].Word?
      ensures gs[i] == Word("")
    {
      assert gs[i] in multiset(gs);
    }
  }

  lemma {:induction false} TakeLast(front: seq<Group>, g: Group)
    ensures TakeAll(At(EMPTY, {}), front + [g]) == Take(TakeAll(At(EMPTY, {}), front), g)
  {
  }

  /** The state before the last group, and why taking the group leads to (a, seen). */
  lemma {:induction false} Unset(front: seq<Group>, g: Group, a: NewArgs, seen: set<Key>)
    returns (a0: NewArgs, seen0: set<Key>)
    requires WellFormed(g) && Sets(multiset(front + [g]), a, seen) && EmptyWordsFirst(front + [g])
    ensures Sets(multiset(front), a0, seen0) && Take(At(a0, seen0), g) == At(a, seen)
  {
    BagOf(front, g);
    match g
    case Opt(k, v) =>
      UnsetOpt(multiset(front), a, seen, k, v);
      a0, seen0 := Set(a, k, ""), seen - {k};
      assert seen0 + {k} == seen;
    case Word(w) =>
      if w == "" {
        assert (front + [g])[..|front|] == front;
        EmptyWordLast(front + [g], a, seen);
        a0, seen0 := a, seen;
      } else {
        UnsetWord(multiset(front), a, seen, w);
        a0, seen0 := a.(slug := ""), seen;
      }
  }

  lemma {:induction false} TakeComplete(gs: seq<Group>, a: NewArgs, seen: set<Key>)
    requires AllWellFormed(gs) && Sets(multiset(gs), a, seen) && EmptyWordsFirst(gs)
    ensures TakeAll(At(EMPTY, {}), gs) == At(a, seen)
    decreases |gs|
  {
    if gs == [] {
      SetsNothing(a, seen);
    } else {
      var front, g := gs[..|gs| - 1], gs[|gs| - 1];
      assert gs == front + [g];
      var a0, seen0 := Unset(front, g, a, seen);
      TakeComplete(front, a0, seen0);
      TakeLast(front, g);
    }
  }

  lemma {:induction false} SetsNothing(a: NewArgs, seen: set<Key>)
    requires Sets(multiset([]), a, seen)
    ensures a == EMPTY && seen == {}
  {
    var bag: multiset<Group> := multiset([]);
    forall k
      ensures k !in seen
    {
      assert bag[Opt(k, Get(a, k))] == Expected(a, seen, Opt(k, Get(a, k)));
    }
    assert bag[Word(a.slug)] == 0;
    assert Get(a, Cwd) == "" && Get(a, ProjectKey) == "" && Get(a, Topic) == "";
  }

  lemma {:induction false} EmptyWordLast(gs: seq<Group>, a: NewArgs, seen: set<Key>)
    requires gs != [] && gs[|gs| - 1] == Word("") && Sets(multiset(gs), a, seen) && EmptyWordsFirst(gs)
    ensures a.slug == "" && Sets(multiset(gs[..|gs| - 1]), a, seen)
  {
    var front := gs[..|gs| - 1];
    assert gs == front + [Word("")];
    BagOf(front, Word(""));
    assert multiset(gs)[Word(a.slug)] == Expected(a, seen, Word(a.slug)) || a.slug == "";
  }

  /** What is accepted, and with which result, is a property of the bag of groups, except that empty words
      must not follow the slug. */
  lemma {:induction false} AcceptedIff(gs: seq<Group>, a: NewArgs)
    requires AllWellFormed(gs)
    ensures Parse(Flat(gs)) == Ok(a) <==>
              Finish(a).Ok? && EmptyWordsFirst(gs) && exists seen :: Sets(multiset(gs), a, seen)
  {
    ParseTakes(EMPTY, {}, gs);
    TakeSound(gs);
    var p := TakeAll(At(EMPTY, {}), gs);
    if Finish(a).Ok? && EmptyWordsFirst(gs) && exists seen :: Sets(multiset(gs), a, seen) {
      var seen :| Sets(multiset(gs), a, seen);
      TakeComplete(gs, a, seen);
    }
  }

  /** Without empty words, the result does not depend on the order of the option groups or on the position
      of the slug. */
  lemma {:induction false} OrderDoesNotMatter(gs: seq<Group>, hs: seq<Group>)
    requires AllWellFormed(gs) && multiset(gs) == multiset(hs) && Word("") !in gs
    ensures Accepted(Parse(Flat(gs))) == Accepted(Parse(Flat(hs)))
  {
    forall i | 0 <= i < |hs|
      ensures WellFormed(hs[i]) && hs[i] != Word("")
    {
      assert hs[i] in multiset(gs);
    }
    assert Word("") !in hs;
    var r, s := Parse(Flat(gs)), Parse(Flat(hs));
    if r.Ok? {
      AcceptedIff(gs, r.args);
      AcceptedIff(hs, r.args);
    }
    if s.Ok? {
      AcceptedIff(hs, s.args);
      AcceptedIff(gs, s.args);
    }
  }

  lemma {:induction false} Rearranged(gs: seq<Group>, hs: seq<Group>)
    requires AllWellFormed(gs) && multiset(gs) == multiset(hs)
    ensures AllWellFormed(hs)
  {
    forall i | 0 <= i < |hs|
      ensures WellFormed(hs[i])
    {
      assert hs[i] in multiset(gs);
    }
  }

  /** A slug is among the words of every accepted list. */
  lemma {:induction false} SlugIsGiven(gs: seq<Group>, a: NewArgs)
    requires AllWellFormed(gs) && Parse(Flat(gs)) == Ok(a)
    ensures a.slug != "" && Word(a.slug) in gs
  {
    AcceptedIff(gs, a);
    var seen :| Sets(multiset(gs), a, seen);
    assert multiset(gs)[Word(a.slug)] == Expected(a, seen, Word(a.slug));
    assert Word(a.slug) in multiset(gs);
  }

  /** The i-th group moved to the end. */
  function MovedLast(gs: seq<Group>, i: nat): seq<Group>
    requires i < |gs|
  {
    gs[..i] + gs[i + 1..] + [gs[i]]
  }

  lemma {:induction false} MovedLastIsRearranged(gs: seq<Group>, i: nat)
    requires i < |gs|
    ensures multiset(MovedLast(gs, i)) == multiset(gs)
  {
    assert gs == gs[..i] + [gs[i]] + gs[i + 1..];
  }

  /** An empty word behind the slug is an error. */
  lemma {:induction false} EmptyWordLastFails(hs: seq<Group>, a: NewArgs)
    requires AllWellFormed(hs) && hs != [] && hs[|hs| - 1] == Word("")
    ensures Parse(Flat(hs)) != Ok(a)
  {
    if Parse(Flat(hs)) == Ok(a) {
      SlugIsGiven(hs, a);
      AcceptedIff(hs, a);
    }
  }

  /** All rearrangements of an accepted list give its result exactly when it holds no empty word. */
  lemma {:induction false} OrderDoesNotMatterIff(gs: seq<Group>, a: NewArgs)
    requires AllWellFormed(gs) && Parse(Flat(gs)) == Ok(a)
    ensures (forall hs :: multiset(hs) == multiset(gs) ==> Parse(Flat(hs)) == Ok(a)) <==> Word("") !in gs
  {
    if Word("") in gs {
      var i :| 0 <= i < |gs| && gs[i] == Word("");
      var hs := MovedLast(gs, i);
      MovedLastIsRearranged(gs, i);
      Rearranged(gs, hs);
      EmptyWordLastFails(hs, a);
    } else {
      forall hs | multiset(hs) == multiset(gs)
        ensures Parse(Flat(hs)) == Ok(a)
      {
        OrderDoesNotMatter(gs, hs);
      }
    }
  }

  /** The empty word in front of the slug is skipped, behind it it is refused. */
  lemma {:induction false} EmptyWordExample()
    ensures Parse(["", "s"]) == Ok(EMPTY.(slug := "s"))
    ensures Parse(["s", ""]) == Err(Unexpected(""))
  {
    assert ["", "s"][1..] == ["s"] && ["s", ""][1..] == [""] && ["s"][1..] == [] && [""][1..] == [];
    assert "s"[0] != "-"[0];
    assert !IsLong("") && !IsLong("s") && !LooksLikeOption("") && !LooksLikeOption("s");
  }

  // ---------------------------------------------------------------- round trips

  function PrintGroups(a: NewArgs): seq<Group> {
    [Word(a.slug)]
      + (if a.cwd == "" then [] else [Opt(Cwd, a.cwd)])
      + (if a.project == "" then [] else [Opt(ProjectKey, a.project)])
      + (if a.topic == "" then [] else [Opt(Topic, a.topic)])
  }

  lemma {:induction false} FlatConcat(a: seq<Group>, b: seq<Group>)
    ensures Flat(a + b) == Flat(a) + Flat(b)
    decreases |a|
  {
    if a == [] {
      assert a + b == b;
    } else {
      FlatConcat(a[1..], b);
      assert (a + b)[1..] == a[1..] + b;
      Assoc(Spell(a[0]), Flat(a[1..]), Flat(b));
    }
  }

  lemma {:induction false} FlatOne(g: Group)
    ensures Flat([g]) == Spell(g)
  {
  }

  lemma {:induction false} PrintIsFlat(a: NewArgs)
    ensures Flat(PrintGroups(a)) == Print(a)
  {
    var w := [Word(a.slug)];
    var c := if a.cwd == "" then [] else [Opt(Cwd, a.cwd)];
    var p := if a.project == "" then [] else [Opt(ProjectKey, a.project)];
    var t := if a.topic == "" then [] else [Opt(Topic, a.topic)];
    FlatConcat(w + c + p, t);
    FlatConcat(w + c, p);
    FlatConcat(w, c);
    FlatOne(Word(a.slug));
    FlatOne(Opt(Cwd, a.cwd));
    FlatOne(Opt(ProjectKey, a.project));
    FlatOne(Opt(Topic, a.topic));
  }

  /** The parser undoes the printer for every valid argument set. */
  lemma {:induction false} PrintThenParse(a: NewArgs)
    requires Valid(a)
    ensures Parse(Print(a)) == Ok(a)
  {
    var gs := PrintGroups(a);
    PrintIsFlat(a);
    assert a.cwd == Get(a, Cwd) && a.project == Get(a, ProjectKey) && a.topic == Get(a, Topic);
    assert AllWellFormed(gs);
    ParseTakes(EMPTY, {}, gs);
    TakePrinted(a);
  }

  lemma {:induction false} TakePrinted(a: NewArgs)
    requires Valid(a)
    ensures var p := TakeAll(At(EMPTY, {}), PrintGroups(a)); p.At? && p.args == a
  {
    var gs := PrintGroups(a);
    var p0 := At(EMPTY, {});
    TakeFirst(p0, gs);
    var gs1, p1 := gs[1..], Take(p0, gs[0]);
    var gs2, p2 := gs1, p1;
    if a.cwd != "" {
      TakeFirst(p1, gs1);
      gs2, p2 := gs1[1..], Take(p1, gs1[0]);
    }
    var gs3, p3 := gs2, p2;
    if a.project != "" {
      TakeFirst(p2, gs2);
      gs3, p3 := gs2[1..], Take(p2, gs2[0]);
    }
    if a.topic != "" {
      TakeFirst(p3, gs3);
      assert gs3[1..] == [];
    } else {
      assert gs3 == [];
    }
  }

  ghost predicate Clean(a: NewArgs) {
    && !LooksLikeOption(a.slug)
    && forall k: Key :: Get(a, k) == "" || IsValue(Get(a, k))
  }

  lemma {:induction false} CleanSet(a: NewArgs, k: Key, v: string)
    requires Clean(a) && IsValue(v)
    ensures Clean(Set(a, k, v))
  {
    forall j: Key
      ensures Get(Set(a, k, v), j) == "" || IsValue(Get(Set(a, k, v), j))
    {
      GetSet(a, k, v, j);
    }
    GetSet(a, k, v, k);
  }

  lemma {:induction false} ParseIsClean(a: NewArgs, seen: set<Key>, args: seq<string>)
    requires Clean(a)
    ensures ParseFrom(a, seen, args).Ok? ==> Valid(ParseFrom(a, seen, args).args)
    decreases |args|
  {
    if args == [] {
    } else if IsLong(args[0]) {
      var k := KeyOf(args[0]);
      if k.Some? && k.value !in seen && |args| >= 2 && IsValue(args[1]) {
        CleanSet(a, k.value, args[1]);
        ParseIsClean(Set(a, k.value, args[1]), seen + {k.value}, args[2..]);
      }
    } else if !LooksLikeOption(args[0]) && a.slug == "" {
      assert Clean(a.(slug := args[0])) by {
        forall k: Key
          ensures Get(a.(slug := args[0]), k) == Get(a, k)
        {
        }
      }
      ParseIsClean(a.(slug := args[0]), seen, args[1..]);
    }
  }

  /** Printing what was accepted and parsing it again gives the same result. */
  lemma {:induction false} ReparseIsStable(args: seq<string>)
    ensures Parse(args).Ok? ==> Valid(Parse(args).args) && Parse(Print(Parse(args).args)) == Parse(args)
  {
    ParseIsClean(EMPTY, {}, args);
    if Parse(args).Ok? {
      PrintThenParse(Parse(args).args);
    }
  }

  /** Every accepted argument list is made of well-formed groups. */
  lemma {:induction false} AcceptedAreGroups(a: NewArgs, seen: set<Key>, args: seq<string>) returns (gs: seq<Group>)
    requires ParseFrom(a, seen, args).Ok?
    ensures AllWellFormed(gs) && Flat(gs) == args
    decreases |args|
  {
    if args == [] {
      gs := [];
    } else if IsLong(args[0]) {
      var k := KeyOf(args[0]).value;
      var rest := AcceptedAreGroups(Set(a, k, args[1]), seen + {k}, args[2..]);
      gs := [Opt(k, args[1])] + rest;
      FlatConcat([Opt(k, args[1])], rest);
      FlatOne(Opt(k, args[1]));
      assert args == [args[0], args[1]] + args[2..];
    } else {
      var rest := AcceptedAreGroups(a.(slug := args[0]), seen, args[1..]);
      gs := [Word(args[0])] + rest;
      FlatConcat([Word(args[0])], rest);
      FlatOne(Word(args[0]));
      assert args == [args[0]] + args[1..];
    }
  }

  // ---------------------------------------------------------------- errors

  /** The first word that cannot be taken decides the error, whatever follows it. */
  lemma {:induction false} FirstBadWordDecides(a: NewArgs, seen: set<Key>, word: string, rest: seq<string>)
    ensures var r := ParseFrom(a, seen, [word] + rest);
            && (IsLong(word) && word != "--cwd" && word != "--project" && word != "--topic" ==>
                r == Err(Unsupported(word)))
            && (!IsLong(word) && LooksLikeOption(word) ==> r == Err(Unsupported(word)))
            && (!LooksLikeOption(word) && a.slug != "" ==> r == Err(Unexpected(word)))
  {
    WordIsLongOption(word);
  }

  lemma {:induction false} WordIsLongOption(word: string)
    ensures IsLong(word) ==> LooksLikeOption(word)
  {
    if IsLong(word) {
      assert "--"[0] == word[0] && "-"[0] == "--"[0];
    }
  }

  /** An option that was given, or that has no value of its own, is refused. */
  lemma {:induction false} BadOptionIsRefused(a: NewArgs, seen: set<Key>, k: Key, rest: seq<string>)
    ensures var r := ParseFrom(a, seen, [Flag(k)] + rest);
            && (k in seen ==> r == Err(Repeated(Flag(k))))
            && (k !in seen && (rest == [] || IsBlank(rest[0]) || IsLong(rest[0])) ==> r == Err(NeedsValue(Flag(k))))
  {
    FlagIsLong(k);
    var args := [Flag(k)] + rest;
    assert args[0] == Flag(k) && (rest != [] ==> args[1] == rest[0]);
  }

  /** A list without a slug, and one with both a directory and a project, are refused at the end. */
  lemma {:induction false} IncompleteIsRefused(a: NewArgs, seen: set<Key>)
    ensures a.slug == "" ==> ParseFrom(a, seen, []) == Err(MissingSlug)
    ensures a.slug != "" && a.cwd != "" && a.project != "" ==> ParseFrom(a, seen, []) == Err(CwdAndProject)
  {
  }

  /** Which of the first characters are blanks. */
  lemma {:induction false} BlanksAre(c: char)
    requires c <= '\U{FF}'
    ensures IsSpace(c) <==> c in ['\t', '\n', '\U{0B}', '\U{0C}', '\r', ' ', '\U{85}', '\U{A0}']
  {
  }
}
