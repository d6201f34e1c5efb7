/**
 Importing a project (importedProjectName and commitProjectImport in cmd/ducklord/project_transfer_ui.go):
 notebooks are backed up, overwritten one by one, and restored if any later step fails; the activity
 state is replaced in memory only after it was saved.
 */
module ProjectImport {
  import opened Basics

  // ---------------------------------------------------------------- a fresh name

  function Digit(d: nat): char
    requires d < 10
  {
    ['0', '1', '2', '3', '4', '5', '6', '7', '8', '9'][d]
  }

  function Decimal(n: nat): (s: string)
    ensures s != ""
  {
    if n < 10 then [Digit(n)] else Decimal(n / 10) + [Digit(n % 10)]
  }

  lemma {:induction false} DecimalInjective(a: nat, b: nat)
    requires Decimal(a) == Decimal(b)
    ensures a == b
    decreases a
  {
    var s, t := Decimal(a), Decimal(b);
    assert s[|s| - 1] == Digit(a % 10) && t[|t| - 1] == Digit(b % 10);
    if a < 10 {
      assert |t| == 1;
      assert b < 10;
    } else {
      assert |s| > 1;
      assert b >= 10;
      assert Decimal(a / 10) == s[..|s| - 1] && Decimal(b / 10) == t[..|t| - 1];
      DecimalInjective(a / 10, b / 10);
    }
  }

  /** The i-th name tried, counting from one. */
  function Candidate(name: string, i: nat): string {
    name + " (imported" + (if i > 1 then " " + Decimal(i) else "") + ")"
  }

  lemma {:induction false} CandidateInjective(name: string, i: nat, j: nat)
    requires 1 <= i && 1 <= j
    ensures Candidate(name, i) == Candidate(name, j) ==> i == j
  {
    var x := if i > 1 then " " + Decimal(i) else "";
    var y := if j > 1 then " " + Decimal(j) else "";
    var front := name + " (imported";
    assert Candidate(name, i) == front + x + ")" && Candidate(name, j) == front + y + ")";
    assert x == Candidate(name, i)[|front|..|front| + |x|];
    assert y == Candidate(name, j)[|front|..|front| + |y|];
    if Candidate(name, i) == Candidate(name, j) && i > 1 {
      assert x[1..] == Decimal(i) && y[1..] == Decimal(j);
      DecimalInjective(i, j);
    }
  }

  lemma {:induction false} SubsetSize<T>(a: set<T>, b: set<T>)
    requires a <= b
    ensures |a| <= |b|
  {
    assert b == a + (b - a);
  }

  ghost function Tried(name: string, i: nat): set<string> {
    set j: nat | 1 <= j < i :: Candidate(name, j)
  }

  lemma {:induction false} TriedNext(name: string, i: nat)
    requires 1 <= i
    ensures Candidate(name, i) !in Tried(name, i)
    ensures Tried(name, i + 1) == Tried(name, i) + {Candidate(name, i)}
  {
    forall j: nat | 1 <= j < i
      ensures Candidate(name, j) != Candidate(name, i)
    {
      CandidateInjective(name, i, j);
    }
  }

  /** The name itself if it is free, and otherwise the first of the candidates that is. */
  ghost predicate FirstFree(name: string, existing: set<string>, r: string) {
    && r !in existing
    && (name !in existing ==> r == name)
    && (name in existing ==>
          exists i :: 1 <= i <= |existing| + 1 && r == Candidate(name, i)
                      && forall j :: 1 <= j < i ==> Candidate(name, j) in existing)
  }

  lemma {:induction false} CandidatesAre(name: string)
    ensures Candidate(name, 1) == name + " (imported)"
    ensures Candidate(name, 2) == name + " (imported 2)"
    ensures Candidate(name, 13) == name + " (imported 13)"
  {
    assert Decimal(2) == "2" && Decimal(1) == "1" && Decimal(13) == Decimal(1) + "3";
    assert name + " (imported" + "" + ")" == name + " (imported)";
    assert name + " (imported" + (" " + "2") + ")" == name + " (imported 2)";
    assert name + " (imported" + (" " + "13") + ")" == name + " (imported 13)";
  }

  /** importedProjectName: the search ends for every finite set of names, at the first free candidate. */
  method ImportedName(name: string, existing: set<string>) returns (r: string)
    ensures FirstFree(name, existing, r)
  {
    if name !in existing {
      return name;
    }
    var i := 1;
    ghost var tried: set<string> := {};
    while true
      invariant 1 <= i && |tried| == i - 1 && tried <= existing
      invariant tried == Tried(name, i)
      decreases |existing| + 1 - i
    {
      SubsetSize(tried, existing);
      var candidate := Candidate(name, i);
      if candidate !in existing {
        return candidate;
      }
      TriedNext(name, i);
      tried := tried + {candidate};
      SubsetSize(tried, existing);
      i := i + 1;
    }
  }

  // ---------------------------------------------------------------- notebooks

  datatype Scope = OfProject | OfSession
  datatype Notebook = Notebook(scope: Scope, identity: string)

  type Notes = map<Notebook, string>

  /** A notebook as it was before the import; None if it did not exist. */
  datatype Backup = Backup(book: Notebook, text: Option<string>)

  datatype Entry = Entry(book: Notebook, text: string)

  function Lookup(notes: Notes, book: Notebook): Option<string> {
    if book in notes then Some(notes[book]) else None
  }

  function Save(notes: Notes, e: Entry, o: WriteOutcome): Notes {
    if o.FailedBefore? then notes else notes[e.book := e.text]
  }

  /** RestoreScopedNotes: writes the old text back, or unlinks a notebook that did not exist. */
  function Restore(notes: Notes, b: Backup, o: WriteOutcome): Notes {
    if o.FailedBefore? then notes
    else if b.text.Some? then notes[b.book := b.text.value] else notes - {b.book}
  }

  /** A save or restore that fails after the rename has taken effect all the same. */
  lemma {:induction false} TakesEffectIff(notes: Notes, e: Entry, b: Backup, o: WriteOutcome)
    ensures Lookup(Save(notes, e, o), e.book) == if o == FailedBefore then Lookup(notes, e.book) else Some(e.text)
    ensures Lookup(Restore(notes, b, o), b.book) == if o == FailedBefore then Lookup(notes, b.book) else b.text
  {
  }

  /** The outcome of the i-th operation; those not mentioned succeed. */
  function At(outcomes: seq<WriteOutcome>, i: nat): WriteOutcome {
    if i < |outcomes| then outcomes[i] else Written
  }

  ghost predicate Backed(notes: Notes, backups: seq<Backup>) {
    forall i :: 0 <= i < |backups| ==> backups[i].text == Lookup(notes, backups[i].book)
  }

  ghost predicate Touches(backups: seq<Backup>, book: Notebook) {
    exists i :: 0 <= i < |backups| && backups[i].book == book
  }

  /** Some restore of the notebook takes effect. */
  ghost predicate Recovered(backups: seq<Backup>, outcomes: seq<WriteOutcome>, book: Notebook) {
    exists i :: 0 <= i < |backups| && backups[i].book == book && !At(outcomes, i).FailedBefore?
  }

  /** rollback: restores every backup, going on after errors. */
  method Rollback(original: Notes, current: Notes, backups: seq<Backup>, outcomes: seq<WriteOutcome>)
    returns (notes: Notes, clean: bool)
    requires Backed(original, backups)
    ensures forall book :: Recovered(backups, outcomes, book) ==> Lookup(notes, book) == Lookup(original, book)
    ensures forall book :: !Recovered(backups, outcomes, book) ==> Lookup(notes, book) == Lookup(current, book)
    ensures clean <==> forall j :: 0 <= j < |backups| ==> At(outcomes, j).Written?
    ensures clean ==> forall book :: Touches(backups, book) ==> Lookup(notes, book) == Lookup(original, book)
  {
    notes, clean := current, true;
    for i := 0 to |backups|
      invariant forall book :: Recovered(backups[..i], outcomes, book) ==> Lookup(notes, book) == Lookup(original, book)
      invariant forall book :: !Recovered(backups[..i], outcomes, book) ==> Lookup(notes, book) == Lookup(current, book)
      invariant clean <==> forall j :: 0 <= j < i ==> At(outcomes, j).Written?
    {
      notes := Restore(notes, backups[i], At(outcomes, i));
      if !At(outcomes, i).Written? {
        clean := false;
      }
      RecoveredStep(backups, outcomes, i);
    }
    assert backups[..|backups|] == backups;
    if clean {
      forall book | Touches(backups, book)
        ensures Lookup(notes, book) == Lookup(original, book)
      {
        var i :| 0 <= i < |backups| && backups[i].book == book;
        assert !At(outcomes, i).FailedBefore?;
        assert Recovered(backups, outcomes, book);
      }
    }
  }

  lemma {:induction false} RecoveredStep(backups: seq<Backup>, outcomes: seq<WriteOutcome>, i: nat)
    requires i < |backups|
    ensures forall book :: Recovered(backups[..i + 1], outcomes, book) <==>
              Recovered(backups[..i], outcomes, book) || (backups[i].book == book && !At(outcomes, i).FailedBefore?)
  {
    forall book
      ensures Recovered(backups[..i + 1], outcomes, book) <==>
              Recovered(backups[..i], outcomes, book) || (backups[i].book == book && !At(outcomes, i).FailedBefore?)
    {
      if Recovered(backups[..i], outcomes, book) {
        var k :| 0 <= k < |backups[..i]| && backups[..i][k].book == book && !At(outcomes, k).FailedBefore?;
        assert backups[..i + 1][k].book == book;
      }
      if backups[i].book == book && !At(outcomes, i).FailedBefore? {
        assert backups[..i + 1][i].book == book;
      }
      if Recovered(backups[..i + 1], outcomes, book) {
        var k :| 0 <= k < |backups[..i + 1]| && backups[..i + 1][k].book == book && !At(outcomes, k).FailedBefore?;
        if k < i {
          assert backups[..i][k].book == book;
        }
      }
    }
  }

  /** Only the notebooks of the entries differ. */
  ghost predicate Untouched(original: Notes, notes: Notes, entries: seq<Entry>) {
    forall book :: (forall i :: 0 <= i < |entries| ==> entries[i].book != book) ==>
      Lookup(notes, book) == Lookup(original, book)
  }

  /** Writes the notebooks in order and stops at the first failure. */
  method SaveAll(original: Notes, entries: seq<Entry>, outcomes: seq<WriteOutcome>) returns (notes: Notes, ok: bool)
    ensures ok <==> forall i :: 0 <= i < |entries| ==> At(outcomes, i).Written?
    ensures ok ==> notes == Overwrite(original, entries)
    ensures Untouched(original, notes, entries)
  {
    notes := original;
    for i := 0 to |entries|
      invariant forall j :: 0 <= j < i ==> At(outcomes, j).Written?
      invariant notes == Overwrite(original, entries[..i])
      invariant Untouched(original, notes, entries)
    {
      notes := Save(notes, entries[i], At(outcomes, i));
      assert entries[..i + 1][..i] == entries[..i];
      if !At(outcomes, i).Written? {
        return notes, false;
      }
    }
    assert entries[..|entries|] == entries;
    ok := true;
  }

  /** Later entries for the same notebook win. */
  function Overwrite(notes: Notes, entries: seq<Entry>): Notes {
    if entries == [] then notes
    else
      var last := entries[|entries| - 1];
      Overwrite(notes, entries[..|entries| - 1])[last.book := last.text]
  }

  // ---------------------------------------------------------------- the import

  datatype Project = Project(id: string, name: string)
  datatype Activity = Activity(projects: seq<Project>, bookmarks: seq<string>)

  /** What the import can change: the notebooks, the saved activity state and the one in memory. */
  datatype Store = Store(notes: Notes, disk: Activity, memory: Activity)

  /** The decoded transfer file; the identity of a session may be invalid. */
  datatype Transfer = Transfer(project: Project, projectNotes: string,
                               sessionNotes: seq<(Option<string>, string)>, bookmarks: seq<string>)

  /** How the operations turn out; `readable` tells whether a notebook can be backed up. */
  datatype Plan = Plan(newId: string, bookmarksValid: bool, readable: Notebook -> bool,
                       saves: seq<WriteOutcome>, commit: WriteOutcome, restores: seq<WriteOutcome>)

  datatype Result = Success | Rejected | RolledBack(clean: bool)

  ghost function Names(a: Activity): set<string> {
    set i | 0 <= i < |a.projects| :: a.projects[i].name
  }

  /** The notebooks of the transfer, in the order in which they are written. */
  function Entries(id: string, projectNotes: string, sessionNotes: seq<(Option<string>, string)>): (es: seq<Entry>)
    ensures |es| == 1 + |sessionNotes|
  {
    [Entry(Notebook(OfProject, id), projectNotes)] +
    seq(|sessionNotes|, i requires 0 <= i < |sessionNotes| =>
          Entry(Notebook(OfSession, if sessionNotes[i].0.Some? then sessionNotes[i].0.value else ""),
              sessionNotes[i].1))
  }

  method CollectNames(projects: seq<Project>) returns (names: set<string>, ids: set<string>)
    ensures names == set i | 0 <= i < |projects| :: projects[i].name
    ensures ids == set i | 0 <= i < |projects| :: projects[i].id
  {
    names, ids := {}, {};
    for k := 0 to |projects|
      invariant names == set i | 0 <= i < k :: projects[i].name
      invariant ids == set i | 0 <= i < k :: projects[i].id
    {
      names, ids := names + {projects[k].name}, ids + {projects[k].id};
    }
  }

  method BackUp(notes: Notes, entries: seq<Entry>, readable: Notebook -> bool) returns (backups: seq<Backup>, ok: bool)
    ensures Backed(notes, backups)
    ensures ok <==> forall i :: 0 <= i < |entries| ==> readable(entries[i].book)
    ensures ok ==> |backups| == |entries| && forall i :: 0 <= i < |entries| ==> backups[i].book == entries[i].book
  {
    backups := [];
    for i := 0 to |entries|
      invariant |backups| == i && Backed(notes, backups)
      invariant forall j :: 0 <= j < i ==> readable(entries[j].book) && backups[j].book == entries[j].book
    {
      if !readable(entries[i].book) {
        return backups, false;
      }
      backups := backups + [Backup(entries[i].book, Lookup(notes, entries[i].book))];
    }
    ok := true;
  }

  lemma {:induction false} SameNotes(a: Notes, b: Notes)
    requires forall book :: Lookup(a, book) == Lookup(b, book)
    ensures a == b
  {
    forall book
      ensures book in a <==> book in b
      ensures book in a && book in b ==> a[book] == b[book]
    {
      assert Lookup(a, book) == Lookup(b, book);
    }
    assert a.Keys == b.Keys;
  }

  function ChosenId(s: Store, t: Transfer, plan: Plan): string {
    if t.project.id == "" || (exists i :: 0 <= i < |s.memory.projects| && s.memory.projects[i].id == t.project.id)
    then plan.newId else t.project.id
  }

  function ImportEntries(s: Store, t: Transfer, plan: Plan): seq<Entry> {
    Entries(ChosenId(s, t, plan), t.projectNotes, t.sessionNotes)
  }

  /** Everything that is checked before anything is written. */
  ghost predicate Admissible(s: Store, t: Transfer, plan: Plan) {
    && plan.bookmarksValid
    && (forall i :: 0 <= i < |t.sessionNotes| ==> t.sessionNotes[i].0.Some?)
    && (forall i :: 0 <= i < |ImportEntries(s, t, plan)| ==> plan.readable(ImportEntries(s, t, plan)[i].book))
  }

  ghost predicate AllSaved(t: Transfer, plan: Plan) {
    forall i :: 0 <= i < 1 + |t.sessionNotes| ==> At(plan.saves, i).Written?
  }

  ghost predicate AllRestored(t: Transfer, plan: Plan) {
    forall i :: 0 <= i < 1 + |t.sessionNotes| ==> At(plan.restores, i).Written?
  }

  /** The activity state with the project added under a name that was free. */
  ghost predicate Extended(before: Activity, after: Activity, t: Transfer, id: string) {
    && |after.projects| == |before.projects| + 1
    && after.projects[..|before.projects|] == before.projects
    && after.projects[|before.projects|].id == id
    && FirstFree(t.project.name, Names(before), after.projects[|before.projects|].name)
    && after.bookmarks == before.bookmarks + t.bookmarks
  }

  /** Rolls the saves back: whatever else fails, a notebook whose restore takes effect is as it was. */
  method UndoSaves(original: Notes, saved: Notes, entries: seq<Entry>, backups: seq<Backup>,
                   outcomes: seq<WriteOutcome>)
    returns (notes: Notes, clean: bool)
    requires Backed(original, backups) && |backups| == |entries|
    requires forall i :: 0 <= i < |entries| ==> backups[i].book == entries[i].book
    requires Untouched(original, saved, entries)
    ensures clean <==> forall j :: 0 <= j < |entries| ==> At(outcomes, j).Written?
    ensures clean ==> notes == original
    ensures forall i :: 0 <= i < |entries| && !At(outcomes, i).FailedBefore? ==>
              Lookup(notes, entries[i].book) == Lookup(original, entries[i].book)
  {
    notes, clean := Rollback(original, saved, backups, outcomes);
    if clean {
      UndoneNotes(original, saved, notes, entries, backups);
    }
    forall i | 0 <= i < |entries| && !At(outcomes, i).FailedBefore?
      ensures Lookup(notes, entries[i].book) == Lookup(original, entries[i].book)
    {
      assert backups[i].book == entries[i].book;
      assert Recovered(backups, outcomes, entries[i].book);
    }
  }

  ghost function Ids(a: Activity): set<string> {
    set i | 0 <= i < |a.projects| :: a.projects[i].id
  }

  /** The project keeps its id unless it has none or it is taken; given a new id that is free, the id is free. */
  lemma {:induction false} ChosenIdIsFree(s: Store, t: Transfer, plan: Plan)
    ensures t.project.id != "" && t.project.id !in Ids(s.memory) ==> ChosenId(s, t, plan) == t.project.id
    ensures plan.newId !in Ids(s.memory) ==> ChosenId(s, t, plan) !in Ids(s.memory)
    ensures plan.newId != "" ==> ChosenId(s, t, plan) != ""
  {
    if exists i :: 0 <= i < |s.memory.projects| && s.memory.projects[i].id == t.project.id {
      var i :| 0 <= i < |s.memory.projects| && s.memory.projects[i].id == t.project.id;
      assert s.memory.projects[i].id in Ids(s.memory);
    }
  }

  lemma {:induction false} LastEntryWins(notes: Notes, entries: seq<Entry>, i: nat)
    requires i < |entries| && forall j :: i < j < |entries| ==> entries[j].book != entries[i].book
    ensures Lookup(Overwrite(notes, entries), entries[i].book) == Some(entries[i].text)
  {
    if i < |entries| - 1 {
      var front := entries[..|entries| - 1];
      assert forall j :: 0 <= j < |front| ==> front[j] == entries[j];
      LastEntryWins(notes, front, i);
    }
  }

  /** After an import the notebook of the project holds the project's notes, and that of every session its own; of
      several notes for one session the last. */
  lemma {:induction false} ImportedNotes(s: Store, t: Transfer, plan: Plan, i: nat)
    requires i < |t.sessionNotes| && t.sessionNotes[i].0.Some?
    ensures var notes := Overwrite(s.notes, ImportEntries(s, t, plan));
            && Lookup(notes, Notebook(OfProject, ChosenId(s, t, plan))) == Some(t.projectNotes)
            && ((forall j :: i < j < |t.sessionNotes| ==>
                t.sessionNotes[j].0 != t.sessionNotes[i].0 && t.sessionNotes[j].0.Some?)
                ==> Lookup(notes, Notebook(OfSession, t.sessionNotes[i].0.value)) == Some(t.sessionNotes[i].1))
  {
    var es := ImportEntries(s, t, plan);
    assert es[0] == Entry(Notebook(OfProject, ChosenId(s, t, plan)), t.projectNotes);
    assert forall j :: 0 < j < |es| ==> es[j].book.scope == OfSession;
    LastEntryWins(s.notes, es, 0);
    assert es[i + 1] == Entry(Notebook(OfSession, t.sessionNotes[i].0.value), t.sessionNotes[i].1);
    if forall j :: i < j < |t.sessionNotes| ==>
        t.sessionNotes[j].0 != t.sessionNotes[i].0 && t.sessionNotes[j].0.Some? {
      forall j | i + 1 < j < |es|
        ensures es[j].book != es[i + 1].book
      {
        assert t.sessionNotes[j - 1].0 != t.sessionNotes[i].0;
      }
      LastEntryWins(s.notes, es, i + 1);
    }
  }

  /** Saves the notebooks and then the state, and rolls back if one of them fails. */
  method WriteImport(s: Store, entries: seq<Entry>, backups: seq<Backup>, next: Activity, plan: Plan)
    returns (result: Result, s': Store)
    requires Backed(s.notes, backups) && |backups| == |entries|
    requires forall i :: 0 <= i < |entries| ==> backups[i].book == entries[i].book
    ensures result == Success || result.RolledBack?
    ensures result == Success <==>
              (forall i :: 0 <= i < |entries| ==> At(plan.saves, i).Written?) && plan.commit.Written?
    ensures result == Success ==> s' == Store(Overwrite(s.notes, entries), next, next)
    ensures result.RolledBack? ==>
              && s'.memory == s.memory
              && (result.clean <==> forall i :: 0 <= i < |entries| ==> At(plan.restores, i).Written?)
              && (result.clean ==> s'.notes == s.notes)
              && (forall i :: 0 <= i < |entries| && !At(plan.restores, i).FailedBefore? ==>
                    Lookup(s'.notes, entries[i].book) == Lookup(s.notes, entries[i].book))
              && s'.disk == (if (forall i :: 0 <= i < |entries| ==> At(plan.saves, i).Written?)
                  && plan.commit.FailedAfter?
                             then next else s.disk)
  {
    var notes, saved := SaveAll(s.notes, entries, plan.saves);
    if saved && plan.commit.Written? {
      return Success, Store(notes, next, next);
    }
    var restored, clean := UndoSaves(s.notes, notes, entries, backups, plan.restores);
    result := RolledBack(clean);
    s' := Store(restored, if saved && plan.commit.FailedAfter? then next else s.disk, s.memory);
  }

  /** commitProjectImport. */
  method CommitImport(s: Store, t: Transfer, plan: Plan) returns (result: Result, s': Store)
    ensures result == Success <==> Admissible(s, t, plan) && AllSaved(t, plan) && plan.commit.Written?
    ensures result == Rejected <==> !Admissible(s, t, plan)
    ensures !plan.bookmarksValid || (exists i :: 0 <= i < |t.sessionNotes| && t.sessionNotes[i].0.None?) ==>
              result == Rejected
    ensures result == Success ==>
              && s'.memory == s'.disk && Extended(s.memory, s'.memory, t, ChosenId(s, t, plan))
              && s'.notes == Overwrite(s.notes, ImportEntries(s, t, plan))
    // all or nothing for the notebooks and the state in memory
    ensures result == Rejected ==> s' == s
    ensures result != Success ==> s'.memory == s.memory
    ensures result.RolledBack? ==> (result.clean <==> AllRestored(t, plan))
    ensures result == RolledBack(true) ==> s'.notes == s.notes
    // whatever else fails, a notebook whose restore takes effect is as it was
    ensures result.RolledBack? ==>
              forall i :: 0 <= i < |ImportEntries(s, t, plan)| && !At(plan.restores, i).FailedBefore? ==>
                var book := ImportEntries(s, t, plan)[i].book; Lookup(s'.notes, book) == Lookup(s.notes, book)
    // the saved state runs ahead of memory exactly when its own write fails after the rename
    ensures result.RolledBack? ==>
              if AllSaved(t, plan) && plan.commit.FailedAfter? then Extended(s.memory, s'.disk, t, ChosenId(s, t, plan))
              else s'.disk == s.disk
  {
    var names, ids := CollectNames(s.memory.projects);
    var name := ImportedName(t.project.name, names);
    var id := if t.project.id in ids || t.project.id == "" then plan.newId else t.project.id;
    assert id == ChosenId(s, t, plan);
    var valid := plan.bookmarksValid && forall i :: 0 <= i < |t.sessionNotes| ==> t.sessionNotes[i].0.Some?;
    if !valid {
      return Rejected, s;
    }
    var next := Activity(s.memory.projects + [Project(id, name)], s.memory.bookmarks + t.bookmarks);
    var entries := Entries(id, t.projectNotes, t.sessionNotes);
    assert entries == ImportEntries(s, t, plan);
    var backups, readable := BackUp(s.notes, entries, plan.readable);
    if !readable {
      return Rejected, s;
    }
    result, s' := WriteImport(s, entries, backups, next, plan);
  }

  /** A first project whose state is renamed into place and then fails to sync: the import reports an error and
      rolls back cleanly, but the project is on disk. */
  method DiskAheadExample() returns (result: Result, s': Store)
    ensures result == RolledBack(true)
    ensures s'.memory == Activity([], []) && s'.notes == map[] && |s'.disk.projects| == 1
  {
    var nothing := Activity([], []);
    var s := Store(map[], nothing, nothing);
    var t := Transfer(Project("p", "Project"), "", [], []);
    var plan := Plan("q", true, _ => true, [Written], FailedAfter, [Written]);
    assert ImportEntries(s, t, plan) == Entries(ChosenId(s, t, plan), "", []);
    result, s' := CommitImport(s, t, plan);
  }

  /** Restoring every backup undoes every save, also when two entries name the same notebook. */
  lemma {:induction false} UndoneNotes(original: Notes, saved: Notes, restored: Notes, entries: seq<Entry>,
                                       backups: seq<Backup>)
    requires |backups| == |entries| && forall i :: 0 <= i < |entries| ==> backups[i].book == entries[i].book
    requires forall book :: Touches(backups, book) ==> Lookup(restored, book) == Lookup(original, book)
    requires Untouched(original, saved, entries)
    requires forall book :: !Touches(backups, book) ==> Lookup(restored, book) == Lookup(saved, book)
    ensures restored == original
  {
    forall book
      ensures Lookup(restored, book) == Lookup(original, book)
    {
      if !Touches(backups, book) {
        assert forall i :: 0 <= i < |entries| ==> entries[i].book != book;
      }
    }
    SameNotes(restored, original);
  }
}
