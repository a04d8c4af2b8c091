/** The deletion loops of `removal()`: the file list is passed to
    `os.remove`, the directory list to `shutil.rmtree`, the empty-directory
    list to `os.rmdir`, one path at a time. A failure is swallowed and the
    loop goes on. Whether the operating system lets a deletion through
    (permissions, locks) is not visible in the program: it is supplied as one
    boolean per attempt. `RunPass` and `Execute` state the loops as functions
    of the filesystem; the `Disk` class and `Removal` carry them out in
    place. */
module Executor {
  import opened Paths
  import opened FileSystems
  import opened Planner

  /** The three deletion primitives. */
  datatype Op = Unlink | RemoveTree | RemoveEmptyDir

  /** When a deletion goes through: `os.remove` needs an existing
      non-directory, `shutil.rmtree` an existing directory, `os.rmdir` an
      existing directory with no entries; and the system must permit it. */
  predicate Succeeds(op: Op, fs: FileSystem, p: Path, permitted: bool) {
    && permitted
    && match op
       case Unlink => IsFile(fs, p)
       case RemoveTree => IsDir(fs, p)
       case RemoveEmptyDir => IsDir(fs, p) && Listdir(fs, p) == []
  }

  /** The filesystem after a successful deletion. */
  function Apply(op: Op, fs: FileSystem, p: Path): FileSystem {
    if op == RemoveTree then RemoveSubtree(fs, p) else RemoveEntry(fs, p)
  }

  /** The filesystem after one loop, and the paths it reports removed. */
  datatype Pass = Pass(fs: FileSystem, removed: seq<Path>)

  /** One best-effort loop: every path is attempted in list order; a success
      deletes and is recorded, a failure changes nothing. */
  function RunPass(op: Op, fs: FileSystem, paths: seq<Path>, permits: seq<bool>): Pass
    requires |permits| == |paths|
  {
    if paths == [] then Pass(fs, [])
    else
      var n := |paths| - 1;
      var pre := RunPass(op, fs, paths[..n], permits[..n]);
      if Succeeds(op, pre.fs, paths[n], permits[n]) then Pass(Apply(op, pre.fs, paths[n]), pre.removed + [paths[n]])
      else pre
  }

  /** Whether the system permits each attempt, one list per loop. */
  datatype Oracle = Oracle(files: seq<bool>, dirs: seq<bool>, emptyDirs: seq<bool>)

  predicate Fits(oracle: Oracle, plan: Plan) {
    |oracle.files| == |plan.files| && |oracle.dirs| == |plan.dirs| && |oracle.emptyDirs| == |plan.emptyDirs|
  }

  /** The end state of `removal()`: `removed_files`, and `removed_dirs`
      holding the removed directories followed by the removed empty ones. */
  datatype Outcome = Outcome(fs: FileSystem, removedFiles: seq<Path>, removedDirs: seq<Path>)

  /** The three loops run one after the other on the same filesystem, each
      attempting the paths of its list. */
  function Execute(fs: FileSystem, plan: Plan, oracle: Oracle): Outcome
    requires Fits(oracle, plan)
  {
    DirLoops(RunPass(Unlink, fs, plan.files, oracle.files), plan, oracle)
  }

  /** The directory loop and the empty-directory loop, run on what the file
      loop left. */
  function DirLoops(files: Pass, plan: Plan, oracle: Oracle): Outcome
    requires Fits(oracle, plan)
  {
    var dirs := RunPass(RemoveTree, files.fs, plan.dirs, oracle.dirs);
    var empty := RunPass(RemoveEmptyDir, dirs.fs, plan.emptyDirs, oracle.emptyDirs);
    Outcome(empty.fs, files.removed, dirs.removed + empty.removed)
  }

  /** The path the file loop as written hands to `os.remove`: the backup
      root joined onto the entry, although every entry is already a full
      path. */
  function FileLoopPathAsWritten(pathBackup: Path, file: Path): Path {
    Join(pathBackup, file)
  }

  /** The file loop as written: each entry is joined onto the backup root
      before the attempt, and on success the entry itself is recorded. */
  function RunFilePass(fs: FileSystem, pathBackup: Path, files: seq<Path>, permits: seq<bool>): Pass
    requires |permits| == |files|
  {
    if files == [] then Pass(fs, [])
    else
      var n := |files| - 1;
      var pre := RunFilePass(fs, pathBackup, files[..n], permits[..n]);
      var target := FileLoopPathAsWritten(pathBackup, files[n]);
      if Succeeds(Unlink, pre.fs, target, permits[n]) then Pass(RemoveEntry(pre.fs, target), pre.removed + [files[n]])
      else pre
  }

  /** `removal()` as written: the joined file loop, then the two directory
      loops. */
  function ExecuteAsWritten(fs: FileSystem, pathBackup: Path, plan: Plan, oracle: Oracle): Outcome
    requires Fits(oracle, plan)
  {
    DirLoops(RunFilePass(fs, pathBackup, plan.files, oracle.files), plan, oracle)
  }

  // ---------------------------------------------------------------------------
  // The filesystem as the program changes it

  /** The live filesystem: the deletions change it in place. */
  class Disk {
    var kinds: map<Path, Kind>
    var order: seq<Path>

    function State(): FileSystem
      reads this
    {
      FileSystem(kinds, order)
    }

    ghost predicate Valid()
      reads this
    {
      FileSystems.Valid(State())
    }

    constructor (fs: FileSystem)
      requires FileSystems.Valid(fs)
      ensures Valid() && State() == fs
    {
      kinds := fs.kinds;
      order := fs.order;
    }

    /** `os.remove(p)`. */
    method Remove(p: Path, permitted: bool) returns (ok: bool)
      requires Valid()
      modifies this
      ensures Valid()
      ensures ok == Succeeds(Unlink, old(State()), p, permitted)
      ensures State() == if ok then RemoveEntry(old(State()), p) else old(State())
    {
      ok := permitted && p in kinds && kinds[p] == File;
      if ok {
        RemoveEntryValid(State(), p);
        kinds := kinds - {p};
        order := DropPath(order, p);
      }
    }

    /** `shutil.rmtree(p)`: the directory and everything below it. */
    method RmTree(p: Path, permitted: bool) returns (ok: bool)
      requires Valid()
      modifies this
      ensures Valid()
      ensures ok == Succeeds(RemoveTree, old(State()), p, permitted)
      ensures State() == if ok then RemoveSubtree(old(State()), p) else old(State())
    {
      ok := permitted && p in kinds && kinds[p] == Dir;
      if ok {
        RemoveSubtreeValid(State(), p);
        kinds := map q | q in kinds && !Under(q, p) :: kinds[q];
        order := DropUnder(order, p);
      }
    }

    /** `os.rmdir(p)`: only a directory without entries. */
    method RmDir(p: Path, permitted: bool) returns (ok: bool)
      requires Valid()
      modifies this
      ensures Valid()
      ensures ok == Succeeds(RemoveEmptyDir, old(State()), p, permitted)
      ensures State() == if ok then RemoveEntry(old(State()), p) else old(State())
    {
      ok := permitted && p in kinds && kinds[p] == Dir && Listdir(State(), p) == [];
      if ok {
        RemoveEntryValid(State(), p);
        kinds := kinds - {p};
        order := DropPath(order, p);
      }
    }
  }

  /** One attempt with the primitive of the loop it belongs to. */
  method Attempt(disk: Disk, op: Op, p: Path, permitted: bool) returns (ok: bool)
    requires disk.Valid()
    modifies disk
    ensures disk.Valid()
    ensures ok == Succeeds(op, old(disk.State()), p, permitted)
    ensures disk.State() == if ok then Apply(op, old(disk.State()), p) else old(disk.State())
  {
    match op
    case Unlink => ok := disk.Remove(p, permitted);
    case RemoveTree => ok := disk.RmTree(p, permitted);
    case RemoveEmptyDir => ok := disk.RmDir(p, permitted);
  }

  /** One of the three loops: every path is attempted, each success is
      appended to the report, each failure is passed over. */
  method RemoveAll(disk: Disk, op: Op, paths: seq<Path>, permits: seq<bool>) returns (removed: seq<Path>)
    requires disk.Valid() && |permits| == |paths|
    modifies disk
    ensures disk.Valid()
    ensures Pass(disk.State(), removed) == RunPass(op, old(disk.State()), paths, permits)
  {
    ghost var fs0 := disk.State();
    removed := [];
    var k := 0;
    while k < |paths|
      invariant 0 <= k <= |paths|
      invariant disk.Valid()
      invariant Pass(disk.State(), removed) == RunPass(op, fs0, paths[..k], permits[..k])
    {
      assert paths[..k + 1][..k] == paths[..k];
      assert permits[..k + 1][..k] == permits[..k];
      var ok := Attempt(disk, op, paths[k], permits[k]);
      if ok {
        removed := removed + [paths[k]];
      }
      k := k + 1;
    }
    assert paths[..k] == paths;
    assert permits[..k] == permits;
  }

  /** The file loop as written: every entry is joined onto the backup root
      and attempted with `os.remove`; the entry is appended to the report
      when the removal goes through. */
  method RemoveFiles(disk: Disk, pathBackup: Path, files: seq<Path>, permits: seq<bool>) returns (removed: seq<Path>)
    requires disk.Valid() && |permits| == |files|
    modifies disk
    ensures disk.Valid()
    ensures Pass(disk.State(), removed) == RunFilePass(old(disk.State()), pathBackup, files, permits)
  {
    ghost var fs0 := disk.State();
    removed := [];
    var k := 0;
    while k < |files|
      invariant 0 <= k <= |files|
      invariant disk.Valid()
      invariant Pass(disk.State(), removed) == RunFilePass(fs0, pathBackup, files[..k], permits[..k])
    {
      assert files[..k + 1][..k] == files[..k];
      assert permits[..k + 1][..k] == permits[..k];
      var fullPath := Join(pathBackup, files[k]);
      var ok := disk.Remove(fullPath, permits[k]);
      if ok {
        removed := removed + [files[k]];
      }
      k := k + 1;
    }
    assert files[..k] == files;
    assert permits[..k] == permits;
  }

  /** `removal()` without its printing and log writing: the file loop, the
      directory loop, then the empty-directory loop. */
  method Removal(disk: Disk, pathBackup: Path, plan: Plan, oracle: Oracle) returns (removedFiles: seq<Path>, removedDirs: seq<Path>)
    requires disk.Valid() && Fits(oracle, plan)
    modifies disk
    ensures disk.Valid()
    ensures Outcome(disk.State(), removedFiles, removedDirs) == ExecuteAsWritten(old(disk.State()), pathBackup, plan, oracle)
  {
    removedFiles := RemoveFiles(disk, pathBackup, plan.files, oracle.files);
    var trees := RemoveAll(disk, RemoveTree, plan.dirs, oracle.dirs);
    var empties := RemoveAll(disk, RemoveEmptyDir, plan.emptyDirs, oracle.emptyDirs);
    removedDirs := trees + empties;
  }

  // ---------------------------------------------------------------------------
  // Properties of one loop

  /** A loop never creates a path and never changes the kind of one that
      survives. */
  lemma {:induction false} PassShrinks(op: Op, fs: FileSystem, paths: seq<Path>, permits: seq<bool>)
    requires |permits| == |paths|
    ensures var r := RunPass(op, fs, paths, permits);
      forall q :: q in r.fs.kinds ==> q in fs.kinds && r.fs.kinds[q] == fs.kinds[q]
  {
    if paths != [] {
      var n := |paths| - 1;
      PassShrinks(op, fs, paths[..n], permits[..n]);
    }
  }

  /** Only listed paths are reported, each as often as it succeeded. */
  lemma {:induction false} PassReportsListed(op: Op, fs: FileSystem, paths: seq<Path>, permits: seq<bool>)
    requires |permits| == |paths|
    ensures var r := RunPass(op, fs, paths, permits);
      |r.removed| <= |paths| && forall q :: q in r.removed ==> q in paths
  {
    if paths != [] {
      var n := |paths| - 1;
      PassReportsListed(op, fs, paths[..n], permits[..n]);
      assert paths == paths[..n] + [paths[n]];
    }
  }

  /** A reported path no longer exists when the loop ends. */
  lemma {:induction false} PassReportedGone(op: Op, fs: FileSystem, paths: seq<Path>, permits: seq<bool>, q: Path)
    requires |permits| == |paths|
    requires q in RunPass(op, fs, paths, permits).removed
    ensures q !in RunPass(op, fs, paths, permits).fs.kinds
  {
    var n := |paths| - 1;
    var pre := RunPass(op, fs, paths[..n], permits[..n]);
    if q in pre.removed {
      PassReportedGone(op, fs, paths[..n], permits[..n], q);
      PassShrinks(op, pre.fs, [paths[n]], [permits[n]]);
      assert RunPass(op, pre.fs, [paths[n]], [permits[n]]).fs == RunPass(op, fs, paths, permits).fs;
    }
  }

  /** Whatever a loop deletes lies under a path it reports removed: a
      recursive removal takes the tree below it, the other two only the path
      itself. */
  lemma {:induction false} PassDeletesUnderReported(op: Op, fs: FileSystem, paths: seq<Path>, permits: seq<bool>, q: Path)
    requires |permits| == |paths|
    requires q in fs.kinds && q !in RunPass(op, fs, paths, permits).fs.kinds
    ensures exists p :: p in RunPass(op, fs, paths, permits).removed && (if op == RemoveTree then Under(q, p) else q == p)
  {
    var n := |paths| - 1;
    var pre := RunPass(op, fs, paths[..n], permits[..n]);
    var r := RunPass(op, fs, paths, permits);
    if q !in pre.fs.kinds {
      PassDeletesUnderReported(op, fs, paths[..n], permits[..n], q);
      var p :| p in pre.removed && (if op == RemoveTree then Under(q, p) else q == p);
      assert p in r.removed;
    } else {
      assert paths[n] in r.removed;
    }
  }

  /** With `os.remove` and `os.rmdir` the deleted paths are exactly the
      reported ones. */
  lemma {:induction false} EntryPassExact(op: Op, fs: FileSystem, paths: seq<Path>, permits: seq<bool>, q: Path)
    requires |permits| == |paths| && op != RemoveTree
    ensures var r := RunPass(op, fs, paths, permits);
      q in r.fs.kinds <==> q in fs.kinds && q !in r.removed
  {
    if paths != [] {
      var n := |paths| - 1;
      EntryPassExact(op, fs, paths[..n], permits[..n], q);
    }
  }

  /** A permitted `os.remove` of a listed path succeeds exactly when the
      path is an existing file at the start, whatever comes before it in a
      list without repetitions: the removals do not interfere. */
  lemma {:induction false} UnlinkIndependent(fs: FileSystem, paths: seq<Path>, permits: seq<bool>, k: nat)
    requires |permits| == |paths| && Distinct(paths) && k < |paths|
    ensures paths[k] in RunPass(Unlink, fs, paths, permits).removed <==> permits[k] && IsFile(fs, paths[k])
  {
    var n := |paths| - 1;
    var pre := RunPass(Unlink, fs, paths[..n], permits[..n]);
    assert Distinct(paths[..n]);
    PassReportsListed(Unlink, fs, paths[..n], permits[..n]);
    if k < n {
      UnlinkIndependent(fs, paths[..n], permits[..n], k);
    } else {
      assert paths[n] !in paths[..n];
      EntryPassExact(Unlink, fs, paths[..n], permits[..n], paths[n]);
      PassShrinks(Unlink, fs, paths[..n], permits[..n]);
    }
  }

  /** The first attempt on a path in an `os.remove` loop succeeds exactly
      when it is permitted and the path is a file at the start, whatever the
      loop did before: earlier removals touch only other paths. */
  lemma UnlinkFirstAttempt(fs: FileSystem, paths: seq<Path>, permits: seq<bool>, k: nat)
    requires |permits| == |paths| && k < |paths| && paths[k] !in paths[..k]
    ensures Succeeds(Unlink, RunPass(Unlink, fs, paths[..k], permits[..k]).fs, paths[k], permits[k])
        <==> permits[k] && IsFile(fs, paths[k])
  {
    PassReportsListed(Unlink, fs, paths[..k], permits[..k]);
    EntryPassExact(Unlink, fs, paths[..k], permits[..k], paths[k]);
    PassShrinks(Unlink, fs, paths[..k], permits[..k]);
  }

  /** Once a tree is removed, a later `rmtree` of a path inside it fails:
      the directory is gone. */
  lemma {:induction false} TreeRemovedBlocksInside(fs: FileSystem, paths: seq<Path>, permits: seq<bool>, p: Path, q: Path)
    requires |permits| == |paths|
    requires p in RunPass(RemoveTree, fs, paths, permits).removed && Under(q, p)
    ensures q !in RunPass(RemoveTree, fs, paths, permits).fs.kinds
  {
    var n := |paths| - 1;
    var pre := RunPass(RemoveTree, fs, paths[..n], permits[..n]);
    if p in pre.removed {
      TreeRemovedBlocksInside(fs, paths[..n], permits[..n], p, q);
      PassShrinks(RemoveTree, pre.fs, [paths[n]], [permits[n]]);
      assert RunPass(RemoveTree, pre.fs, [paths[n]], [permits[n]]).fs == RunPass(RemoveTree, fs, paths, permits).fs;
    }
  }

  /** The nested-directory consequence: a directory listed after a
      directory containing it that was already removed is never reported. */
  lemma NestedTreeNotReported(fs: FileSystem, paths: seq<Path>, permits: seq<bool>, i: nat, j: nat)
    requires |permits| == |paths| && i < j < |paths|
    requires paths[i] in RunPass(RemoveTree, fs, paths[..j], permits[..j]).removed
    requires Under(paths[j], paths[i])
    ensures !Succeeds(RemoveTree, RunPass(RemoveTree, fs, paths[..j], permits[..j]).fs, paths[j], permits[j])
  {
    TreeRemovedBlocksInside(fs, paths[..j], permits[..j], paths[i], paths[j]);
  }

  function Without<T>(s: seq<T>, k: nat): (r: seq<T>)
    requires k < |s|
    ensures |r| == |s| - 1
  {
    s[..k] + s[k + 1..]
  }

  /** Best effort: an attempt the system refuses is the same as an entry
      that was never listed; the loop carries on with the rest. */
  lemma {:induction false} RefusedIsSkipped(op: Op, fs: FileSystem, paths: seq<Path>, permits: seq<bool>, k: nat)
    requires |permits| == |paths| && k < |paths| && !permits[k]
    ensures RunPass(op, fs, paths, permits) == RunPass(op, fs, Without(paths, k), Without(permits, k))
  {
    var n := |paths| - 1;
    if k == n {
      assert Without(paths, k) == paths[..n];
      assert Without(permits, k) == permits[..n];
    } else {
      RefusedIsSkipped(op, fs, paths[..n], permits[..n], k);
      var ps, bs := Without(paths, k), Without(permits, k);
      assert ps[..n - 1] == Without(paths[..n], k);
      assert bs[..n - 1] == Without(permits[..n], k);
      assert ps[n - 1] == paths[n] && bs[n - 1] == permits[n];
    }
  }

  // ---------------------------------------------------------------------------
  // Properties of the whole removal

  /** Every path reported in either list no longer exists at the end: a
      later loop deletes but never recreates. */
  lemma ExecuteReportedGone(fs: FileSystem, plan: Plan, oracle: Oracle, q: Path)
    requires Fits(oracle, plan)
    requires var o := Execute(fs, plan, oracle); q in o.removedFiles || q in o.removedDirs
    ensures q !in Execute(fs, plan, oracle).fs.kinds
  {
    var files := RunPass(Unlink, fs, plan.files, oracle.files);
    var dirs := RunPass(RemoveTree, files.fs, plan.dirs, oracle.dirs);
    var empty := RunPass(RemoveEmptyDir, dirs.fs, plan.emptyDirs, oracle.emptyDirs);
    PassShrinks(RemoveTree, files.fs, plan.dirs, oracle.dirs);
    PassShrinks(RemoveEmptyDir, dirs.fs, plan.emptyDirs, oracle.emptyDirs);
    if q in files.removed {
      PassReportedGone(Unlink, fs, plan.files, oracle.files, q);
    } else if q in dirs.removed {
      PassReportedGone(RemoveTree, files.fs, plan.dirs, oracle.dirs, q);
    } else {
      PassReportedGone(RemoveEmptyDir, dirs.fs, plan.emptyDirs, oracle.emptyDirs, q);
    }
  }

  /** The reports are drawn from the plan: removed files from the file list,
      removed directories from the two directory lists. */
  lemma ExecuteReportsPlanned(fs: FileSystem, plan: Plan, oracle: Oracle)
    requires Fits(oracle, plan)
    ensures var o := Execute(fs, plan, oracle);
      && (forall q :: q in o.removedFiles ==> q in plan.files)
      && (forall q :: q in o.removedDirs ==> q in plan.dirs || q in plan.emptyDirs)
  {
    var files := RunPass(Unlink, fs, plan.files, oracle.files);
    var dirs := RunPass(RemoveTree, files.fs, plan.dirs, oracle.dirs);
    PassReportsListed(Unlink, fs, plan.files, oracle.files);
    PassReportsListed(RemoveTree, files.fs, plan.dirs, oracle.dirs);
    PassReportsListed(RemoveEmptyDir, dirs.fs, plan.emptyDirs, oracle.emptyDirs);
  }

  /** Nothing is deleted that does not lie under a path of the plan. */
  lemma ExecuteDeletesOnlyPlanned(fs: FileSystem, plan: Plan, oracle: Oracle, q: Path)
    requires Fits(oracle, plan)
    requires q in fs.kinds && q !in Execute(fs, plan, oracle).fs.kinds
    ensures exists p :: plan.Holds(p) && Under(q, p)
  {
    var files := RunPass(Unlink, fs, plan.files, oracle.files);
    var dirs := RunPass(RemoveTree, files.fs, plan.dirs, oracle.dirs);
    var empty := RunPass(RemoveEmptyDir, dirs.fs, plan.emptyDirs, oracle.emptyDirs);
    PassReportsListed(Unlink, fs, plan.files, oracle.files);
    PassReportsListed(RemoveTree, files.fs, plan.dirs, oracle.dirs);
    PassReportsListed(RemoveEmptyDir, dirs.fs, plan.emptyDirs, oracle.emptyDirs);
    if q !in files.fs.kinds {
      PassDeletesUnderReported(Unlink, fs, plan.files, oracle.files, q);
      var p :| p in files.removed && q == p;
      assert plan.Holds(p) && Under(q, p);
    } else if q !in dirs.fs.kinds {
      PassDeletesUnderReported(RemoveTree, files.fs, plan.dirs, oracle.dirs, q);
      var p :| p in dirs.removed && Under(q, p);
      assert plan.Holds(p);
    } else {
      PassDeletesUnderReported(RemoveEmptyDir, dirs.fs, plan.emptyDirs, oracle.emptyDirs, q);
      var p :| p in empty.removed && q == p;
      assert plan.Holds(p) && Under(q, p);
    }
  }

  // ---------------------------------------------------------------------------
  // The path the file loop attempts

  /** When joining leaves every entry unchanged, the written file loop is
      the loop over the planned paths. */
  lemma {:induction false} FilePassAgrees(fs: FileSystem, pathBackup: Path, files: seq<Path>, permits: seq<bool>)
    requires |permits| == |files|
    requires forall f :: f in files ==> FileLoopPathAsWritten(pathBackup, f) == f
    ensures RunFilePass(fs, pathBackup, files, permits) == RunPass(Unlink, fs, files, permits)
  {
    if files != [] {
      var n := |files| - 1;
      assert files[n] in files;
      FilePassAgrees(fs, pathBackup, files[..n], permits[..n]);
    }
  }

  /** The same for the whole removal. */
  lemma ExecuteAgrees(fs: FileSystem, pathBackup: Path, plan: Plan, oracle: Oracle)
    requires Fits(oracle, plan)
    requires forall f :: f in plan.files ==> FileLoopPathAsWritten(pathBackup, f) == f
    ensures ExecuteAsWritten(fs, pathBackup, plan, oracle) == Execute(fs, plan, oracle)
  {
    FilePassAgrees(fs, pathBackup, plan.files, oracle.files);
  }

  /** With an absolute backup root every entry of the planned file list is
      itself absolute, so joining the root onto it gives it back: the written
      loop attempts exactly the planned paths. */
  lemma PlanFilesAbsolute(fs: FileSystem, pathSrc: Path, pathBackup: Path, srcDrive: string, backupDrive: string, p: Path)
    requires IsAbsolute(pathBackup)
    requires PlanOf(fs, pathSrc, pathBackup, srcDrive, backupDrive).Ok?
    requires p in PlanOf(fs, pathSrc, pathBackup, srcDrive, backupDrive).value.files
    ensures FileLoopPathAsWritten(pathBackup, p) == p
  {
    PlanConfined(fs, pathSrc, pathBackup, srcDrive, backupDrive, p);
    assert p[..|pathBackup| + 1] == pathBackup + [Sep];
    assert p[0] == pathBackup[0];
    assert |pathBackup| >= 3 ==> p[1] == pathBackup[1] && p[2] == pathBackup[2];
  }

  /** Hence with an absolute backup root the removal as written is the
      removal of the planned paths. */
  lemma AbsoluteRootAgrees(fs: FileSystem, pathSrc: Path, pathBackup: Path, srcDrive: string, backupDrive: string, oracle: Oracle)
    requires IsAbsolute(pathBackup)
    requires PlanOf(fs, pathSrc, pathBackup, srcDrive, backupDrive).Ok?
    requires Fits(oracle, PlanOf(fs, pathSrc, pathBackup, srcDrive, backupDrive).value)
    ensures var plan := PlanOf(fs, pathSrc, pathBackup, srcDrive, backupDrive).value;
      ExecuteAsWritten(fs, pathBackup, plan, oracle) == Execute(fs, plan, oracle)
  {
    var plan := PlanOf(fs, pathSrc, pathBackup, srcDrive, backupDrive).value;
    forall f | f in plan.files ensures FileLoopPathAsWritten(pathBackup, f) == f {
      PlanFilesAbsolute(fs, pathSrc, pathBackup, srcDrive, backupDrive, f);
    }
    ExecuteAgrees(fs, pathBackup, plan, oracle);
  }

  /** The relative backup root `b` holding the stale file `b/x` and the
      common directory `b/b` with its stale file `x`. */
  function TwoStaleFiles(): FileSystem {
    FileSystem(map["b" := Dir, "b/x" := File, "b/b" := Dir, "b/b/x" := File], ["b", "b/x", "b/b", "b/b/x"])
  }

  /** On that backup the written loop deletes `b/b/x` for the entry `b/x`
      and reports `b/x` removed, which still exists; the entry `b/b/x`
      becomes `b/b/b/x` and fails. Attempting the planned paths deletes
      both. */
  lemma RelativeRootDeletesWrongFile()
    ensures Valid(TwoStaleFiles())
    ensures var r := RunFilePass(TwoStaleFiles(), "b", ["b/x", "b/b/x"], [true, true]);
      && r.removed == ["b/x"]
      && "b/x" in r.fs.kinds
      && "b/b/x" !in r.fs.kinds
    ensures RunPass(Unlink, TwoStaleFiles(), ["b/x", "b/b/x"], [true, true]).removed == ["b/x", "b/b/x"]
  {
    var fs := TwoStaleFiles();
    TwoStaleFilesValid();
    assert IsFile(fs, "b/x") && IsFile(fs, "b/b/x") && "b/b/b/x" !in fs.kinds;
    WrittenLoopOnTwoStaleFiles(fs);
    PlannedLoopOnTwoStaleFiles(fs);
  }

  lemma TwoStaleFilesValid()
    ensures Valid(TwoStaleFiles())
  {
    var fs := TwoStaleFiles();
    assert Distinct(fs.order) by {
      forall i, j | 0 <= i < j < 4 ensures fs.order[i] != fs.order[j] {
        assert |fs.order[i]| != |fs.order[j]| || fs.order[i][|fs.order[i]| - 1] != fs.order[j][|fs.order[j]| - 1];
      }
    }
    assert forall p :: p in fs.kinds <==> p in fs.order;
  }

  /** On any backup where `b/x` and `b/b/x` are files and `b/b/b/x` does
      not exist, the written loop over those two entries removes `b/b/x`
      only and reports `b/x`. */
  lemma WrittenLoopOnTwoStaleFiles(fs: FileSystem)
    requires IsFile(fs, "b/x") && IsFile(fs, "b/b/x") && "b/b/b/x" !in fs.kinds
    ensures var r := RunFilePass(fs, "b", ["b/x", "b/b/x"], [true, true]);
      && r.removed == ["b/x"]
      && "b/x" in r.fs.kinds
      && "b/b/x" !in r.fs.kinds
  {
    var files, permits := ["b/x", "b/b/x"], [true, true];
    assert files[..1] == ["b/x"] && permits[..1] == [true];
    assert files[..1][..0] == [] && permits[..1][..0] == [];
    ExampleJoins();
    assert RunFilePass(fs, "b", files[..1][..0], permits[..1][..0]) == Pass(fs, []);
    assert [] + [files[..1][0]] == ["b/x"];
    var first := RunFilePass(fs, "b", files[..1], permits[..1]);
    assert first.removed == ["b/x"] && first.fs.kinds.Keys == fs.kinds.Keys - {"b/b/x"};
    assert FileLoopPathAsWritten("b", "b/b/x") !in first.fs.kinds;
  }

  lemma ExampleJoins()
    ensures FileLoopPathAsWritten("b", "b/x") == "b/b/x"
    ensures FileLoopPathAsWritten("b", "b/b/x") == "b/b/b/x"
  {
    assert !IsAbsolute("b/x") && !IsAbsolute("b/b/x");
  }

  /** Attempting the planned paths instead removes both files. */
  lemma PlannedLoopOnTwoStaleFiles(fs: FileSystem)
    requires IsFile(fs, "b/x") && IsFile(fs, "b/b/x")
    ensures RunPass(Unlink, fs, ["b/x", "b/b/x"], [true, true]).removed == ["b/x", "b/b/x"]
  {
    var files, permits := ["b/x", "b/b/x"], [true, true];
    assert files[..1] == ["b/x"] && permits[..1] == [true];
    assert files[..1][..0] == [] && permits[..1][..0] == [];
    assert RunPass(Unlink, fs, files[..1][..0], permits[..1][..0]) == Pass(fs, []);
    assert [] + [files[..1][0]] == ["b/x"];
    var first := RunPass(Unlink, fs, files[..1], permits[..1]);
    assert first.removed == ["b/x"] && first.fs.kinds.Keys == fs.kinds.Keys - {"b/x"};
    assert "b/b/x" in first.fs.kinds;
  }
}
