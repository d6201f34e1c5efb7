/**
 Replacing the Ducklord executable (promoteDucklordBinary in cmd/ducklord/update.go): the old
 executable is hard-linked to `.previous` before the staged download is renamed over it.

 Names refer to inodes and inodes hold complete contents. rename() follows POSIX.1-2017: when both
 names are links to the same file it does nothing and succeeds.
 */
module Promotion {
  import opened Basics

  type Path = string
  type Contents = seq<byte>

  datatype FileSystem = FileSystem(names: map<Path, nat>, data: map<nat, Contents>)

  /** Which system calls fail for reasons of their own, such as permissions. */
  datatype Faults = Faults(remove: bool, link: bool, record: bool, cleanup: bool, install: bool)

  function Previous(executable: Path): Path {
    executable + ".previous"
  }

  function BackupStage(executable: Path): Path {
    Previous(executable) + ".new"
  }

  function Remove(fs: FileSystem, p: Path): FileSystem {
    fs.(names := fs.names - {p})
  }

  function Link(fs: FileSystem, from: Path, to: Path): FileSystem
    requires from in fs.names && to !in fs.names
  {
    fs.(names := fs.names[to := fs.names[from]])
  }

  function Rename(fs: FileSystem, from: Path, to: Path): FileSystem
    requires from in fs.names
  {
    if to in fs.names && fs.names[to] == fs.names[from] then fs
    else fs.(names := (fs.names - {from})[to := fs.names[from]])
  }

  /** The states after each system call, the last one being where the function returns, and whether it
      returns without an error. A crash leaves any one of these states. */
  function Promote(fs: FileSystem, executable: Path, staged: Path, faults: Faults): (bool, seq<FileSystem>) {
    var backup, previous := BackupStage(executable), Previous(executable);
    if faults.remove && backup in fs.names then (false, [fs])
    else
      var fs1 := Remove(fs, backup);
      if faults.link || executable !in fs1.names || backup in fs1.names then (false, [fs, fs1])
      else
        var fs2 := Link(fs1, executable, backup);
        if faults.record then
          (false, [fs, fs1, fs2, if faults.cleanup then fs2 else Remove(fs2, backup)])
        else
          var fs3 := Rename(fs2, backup, previous);
          if faults.install || staged !in fs3.names then (false, [fs, fs1, fs2, fs3])
          else (true, [fs, fs1, fs2, fs3, Rename(fs3, staged, executable)])
  }

  /** promoteDucklordBinary. */
  method PromoteBinary(fs: FileSystem, executable: Path, staged: Path, faults: Faults)
    returns (ok: bool, final: FileSystem, trace: seq<FileSystem>)
    ensures (ok, trace) == Promote(fs, executable, staged, faults)
    ensures trace != [] && trace[0] == fs && final == trace[|trace| - 1]
    ensures Staged(fs, executable, staged) ==>
              && (forall i :: 0 <= i < |trace| ==>
                    trace[i].data == fs.data && Sound(trace[i], executable, fs.names[executable], fs.names[staged]))
              && final.names[executable] == fs.names[if ok then staged else executable]
  {
    if Staged(fs, executable, staged) {
      EveryStepIsSound(fs, executable, staged, faults);
    }
    var previous := executable + ".previous";
    var backup := previous + ".new";
    if faults.remove && backup in fs.names {
      return false, fs, [fs];
    }
    var removed := Remove(fs, backup);
    if faults.link || executable !in removed.names || backup in removed.names {
      return false, removed, [fs, removed];
    }
    var linked := Link(removed, executable, backup);
    if faults.record {
      final := if faults.cleanup then linked else Remove(linked, backup);
      return false, final, [fs, removed, linked, final];
    }
    var recorded := Rename(linked, backup, previous);
    if faults.install || staged !in recorded.names {
      return false, recorded, [fs, removed, linked, recorded];
    }
    final := Rename(recorded, staged, executable);
    return true, final, [fs, removed, linked, recorded, final];
  }

  // ---------------------------------------------------------------- one promotion

  /** The download is a separate file next to the executable. */
  ghost predicate Staged(fs: FileSystem, executable: Path, staged: Path) {
    && staged != executable && staged != Previous(executable) && staged != BackupStage(executable)
    && executable in fs.names && staged in fs.names
  }

  ghost predicate NamesDiffer(executable: Path) {
    executable != Previous(executable) && Previous(executable) != BackupStage(executable)
        && executable != BackupStage(executable)
  }

  lemma {:induction false} NamesAlwaysDiffer(executable: Path)
    ensures NamesDiffer(executable)
  {
  }

  /** The executable is the old file, or the new one with the old one kept as `.previous`. */
  ghost predicate Sound(fs: FileSystem, executable: Path, before: nat, after: nat) {
    && executable in fs.names
    && (fs.names[executable] == before ||
        (fs.names[executable] == after && Previous(executable) in fs.names && fs.names[Previous(executable)] == before))
  }

  /** After a crash at any step the executable is complete and recoverable, no contents were touched, and an
      error return leaves the old executable live, also when `.previous` is already a link to it. */
  lemma {:induction false} EveryStepIsSound(fs: FileSystem, executable: Path, staged: Path, faults: Faults)
    requires Staged(fs, executable, staged)
    ensures var (ok, trace) := Promote(fs, executable, staged, faults);
            && trace != [] && trace[0] == fs
            && (forall i :: 0 <= i < |trace| ==>
                  trace[i].data == fs.data && Sound(trace[i], executable, fs.names[executable], fs.names[staged]))
            && (!ok ==> forall i :: 0 <= i < |trace| ==> trace[i].names[executable] == fs.names[executable])
            && (ok ==> trace[|trace| - 1].names[executable] == fs.names[staged])
  {
    NamesAlwaysDiffer(executable);
  }

  /** Nothing an earlier crash can leave behind stands in the way of a later promotion: it succeeds unless
      a system call fails for its own reasons. */
  lemma {:induction false} SucceedsIff(fs: FileSystem, executable: Path, staged: Path, faults: Faults)
    requires Staged(fs, executable, staged)
    ensures Promote(fs, executable, staged, faults).0 <==>
              !(faults.remove && BackupStage(executable) in fs.names) && !faults.link && !faults.record
                  && !faults.install
  {
  }

  /** A promotion that succeeds leaves its staging name behind exactly when `.previous` was a link to the executable
      already, since renaming between two links to one file does nothing. */
  lemma {:induction false} StagingIsLeftIff(fs: FileSystem, executable: Path, staged: Path)
    requires Staged(fs, executable, staged)
    ensures var (ok, trace) := Promote(fs, executable, staged, Faults(false, false, false, false, false));
            && ok && trace != []
            && (BackupStage(executable) in trace[|trace| - 1].names <==>
                  Previous(executable) in fs.names && fs.names[Previous(executable)] == fs.names[executable])
  {
    NamesAlwaysDiffer(executable);
  }

  /** When the backup cannot be recorded its staging name is removed again, unless that fails too. */
  lemma {:induction false} StagingIsCleaned(fs: FileSystem, executable: Path, staged: Path, cleanup: bool)
    requires Staged(fs, executable, staged)
    ensures var (ok, trace) := Promote(fs, executable, staged, Faults(false, false, true, cleanup, false));
            && !ok && trace != []
            && (BackupStage(executable) in trace[|trace| - 1].names <==> cleanup)
  {
    NamesAlwaysDiffer(executable);
  }

  lemma {:induction false} NamesAre()
    ensures Previous("ducklord") == "ducklord.previous" && BackupStage("ducklord") == "ducklord.previous.new"
  {
  }

  // ---------------------------------------------------------------- a history of promotions

  /** An update: a download into a new file, then a promotion that returns or crashes after `survived` steps. */
  datatype Attempt = Attempt(staged: Path, inode: nat, contents: Contents, faults: Faults, survived: nat)

  function Download(fs: FileSystem, a: Attempt): FileSystem {
    FileSystem(fs.names[a.staged := a.inode], fs.data[a.inode := a.contents])
  }

  function AfterAttempt(fs: FileSystem, executable: Path, a: Attempt): FileSystem {
    var (ok, trace) := Promote(Download(fs, a), executable, a.staged, a.faults);
    if a.survived < |trace| then trace[a.survived] else if trace != [] then trace[|trace| - 1] else fs
  }

  ghost predicate Possible(fs: FileSystem, executable: Path, a: Attempt) {
    && a.inode !in fs.data && a.staged !in fs.names
    && a.staged != executable && a.staged != Previous(executable) && a.staged != BackupStage(executable)
  }

  ghost predicate AllPossible(fs: FileSystem, executable: Path, attempts: seq<Attempt>)
    decreases |attempts|
  {
    attempts == [] ||
    (Possible(fs, executable, attempts[0])
        && AllPossible(AfterAttempt(fs, executable, attempts[0]), executable, attempts[1..]))
  }

  function AfterAll(fs: FileSystem, executable: Path, attempts: seq<Attempt>): FileSystem
    decreases |attempts|
  {
    if attempts == [] then fs else AfterAll(AfterAttempt(fs, executable, attempts[0]), executable, attempts[1..])
  }

  ghost predicate Runnable(fs: FileSystem, executable: Path) {
    executable in fs.names && fs.names[executable] in fs.data
  }

  function Live(fs: FileSystem, executable: Path): Contents {
    if executable in fs.names && fs.names[executable] in fs.data then fs.data[fs.names[executable]] else []
  }

  /** One attempt leaves either the version that was live, or the downloaded one with the version that was
      live under `.previous`. */
  lemma {:induction false} AttemptIsSafe(fs: FileSystem, executable: Path, a: Attempt)
    requires Runnable(fs, executable) && Possible(fs, executable, a)
    ensures var fs' := AfterAttempt(fs, executable, a);
            && Runnable(fs', executable)
            && (|| Live(fs', executable) == Live(fs, executable)
                || (Live(fs', executable) == a.contents && Live(fs', Previous(executable)) == Live(fs, executable)))
  {
    var fs0 := Download(fs, a);
    EveryStepIsSound(fs0, executable, a.staged, a.faults);
    var (ok, trace) := Promote(fs0, executable, a.staged, a.faults);
    var fs' := AfterAttempt(fs, executable, a);
    assert exists i :: 0 <= i < |trace| && fs' == trace[i] by {
      if a.survived < |trace| {
        assert fs' == trace[a.survived];
      } else {
        assert fs' == trace[|trace| - 1];
      }
    }
    assert fs'.data == fs0.data;
  }

  ghost predicate IsVersion(c: Contents, original: Contents, attempts: seq<Attempt>) {
    c == original || exists i :: 0 <= i < |attempts| && attempts[i].contents == c
  }

  /** After every history of successful, failed and crashed updates the executable exists and holds one
      complete version. */
  lemma {:induction false} AlwaysRunnable(fs: FileSystem, executable: Path, attempts: seq<Attempt>)
    requires Runnable(fs, executable) && AllPossible(fs, executable, attempts)
    ensures var fs' := AfterAll(fs, executable, attempts);
            Runnable(fs', executable) && IsVersion(Live(fs', executable), Live(fs, executable), attempts)
    decreases |attempts|
  {
    if attempts != [] {
      AttemptIsSafe(fs, executable, attempts[0]);
      var fs1 := AfterAttempt(fs, executable, attempts[0]);
      AlwaysRunnable(fs1, executable, attempts[1..]);
      var c := Live(AfterAll(fs, executable, attempts), executable);
      if c != Live(fs1, executable) {
        var i :| 0 <= i < |attempts[1..]| && attempts[1..][i].contents == c;
        assert attempts[i + 1].contents == c;
      } else if c != Live(fs, executable) {
        assert attempts[0].contents == c;
      }
    }
  }
}
