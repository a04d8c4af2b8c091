/** One run of the cleaner: plan with `compare()`, and only when some list is
    non-empty run `removal()` and decide whether the log is written. The
    command line, the console output and the clock are left to the caller:
    the roots, the drives, the log file name and the time stamp are
    parameters. */
module Cleaner {
  import opened Paths
  import opened FileSystems
  import opened Planner
  import opened Executor

  /** How a run ends. */
  datatype Report =
    | Failed(error: Error)
    | NothingToRemove
    | Removed(removedFiles: seq<Path>, removedDirs: seq<Path>, log: seq<string>)

  // ---------------------------------------------------------------------------
  // The log

  /** The guard as written: a name was given and its directory part is an
      existing directory. */
  predicate ShouldLogAsWritten(fs: FileSystem, logFile: Path) {
    logFile != "" && IsDir(fs, Dirname(logFile))
  }

  /** A log file named without a directory part is never written as the
      guard stands: its directory part is the empty string, which names no
      directory. */
  lemma BareLogNameNeverWritten(fs: FileSystem, logFile: Path)
    requires Valid(fs) && Sep !in logFile
    ensures !ShouldLogAsWritten(fs, logFile)
  {
    BareNameHasNoDirname(logFile);
  }

  /** A log file given as a directory followed by a name is written exactly
      when that directory exists. */
  lemma LogGuardOnJoin(fs: FileSystem, dir: Path, name: string)
    requires ValidName(name) && dir != [] && dir[|dir| - 1] != Sep
    ensures ShouldLogAsWritten(fs, dir + [Sep] + name) <==> IsDir(fs, dir)
  {
    DirnameOfJoin(dir, name);
  }

  /** The guard with an empty directory part read as the current directory,
      which exists. */
  predicate ShouldLog(fs: FileSystem, logFile: Path) {
    logFile != "" && (Dirname(logFile) == [] || IsDir(fs, Dirname(logFile)))
  }

  /** The corrected guard writes a log named without a directory part, and
      agrees with the written guard on every other name. */
  lemma ShouldLogCorrected(fs: FileSystem, logFile: Path)
    ensures logFile != "" && Sep !in logFile ==> ShouldLog(fs, logFile)
    ensures Dirname(logFile) != [] ==> (ShouldLog(fs, logFile) <==> ShouldLogAsWritten(fs, logFile))
  {
    if Sep !in logFile {
      BareNameHasNoDirname(logFile);
    }
  }

  const Rule: string := "-------------------------------- "

  /** The lines appended to the log: a dated block of removed files when
      there is one, then a dated block of removed directories when there is
      one. */
  function LogLines(time: string, removedFiles: seq<Path>, removedDirs: seq<Path>): (lines: seq<string>)
    ensures forall q :: q in removedFiles || q in removedDirs ==> q in lines
    ensures lines == [] <==> removedFiles == [] && removedDirs == []
    ensures |lines| == |removedFiles| + |removedDirs|
      + (if removedFiles == [] then 0 else 2) + (if removedDirs == [] then 0 else 2)
  {
    (if |removedFiles| >= 1 then ["-- Files deleted on: " + time + " --"] + removedFiles + [Rule] else [])
    + (if |removedDirs| >= 1 then ["-- Directories deleted on: " + time + " --"] + removedDirs + [Rule] else [])
  }

  // ---------------------------------------------------------------------------
  // The run

  /** The whole program on the live filesystem, as written: a root that is
      not a directory fails the run, an empty plan ends it without touching
      anything, any other plan is carried out by the written loops and
      logged when the written guard allows. */
  method CleanBackup(disk: Disk, pathSrc: Path, pathBackup: Path, srcDrive: string, backupDrive: string,
                     oracle: Oracle, logFile: Path, time: string)
    returns (report: Report)
    requires disk.Valid()
    requires var r := PlanOf(disk.State(), pathSrc, pathBackup, srcDrive, backupDrive); r.Ok? ==> Fits(oracle, r.value)
    modifies disk
    ensures disk.Valid()
    ensures match PlanOf(old(disk.State()), pathSrc, pathBackup, srcDrive, backupDrive)
      case Err(e) => report == Failed(e) && disk.State() == old(disk.State())
      case Ok(plan) =>
        if plan.IsEmpty() then report == NothingToRemove && disk.State() == old(disk.State())
        else
          var o := ExecuteAsWritten(old(disk.State()), pathBackup, plan, oracle);
          && disk.State() == o.fs
          && report == Removed(o.removedFiles, o.removedDirs,
                               if ShouldLogAsWritten(o.fs, logFile) then LogLines(time, o.removedFiles, o.removedDirs) else [])
  {
    var result := Compare(disk.State(), pathSrc, pathBackup, srcDrive, backupDrive);
    if result.Err? {
      return Failed(result.error);
    }
    var plan := result.value;
    if |plan.files| >= 1 || |plan.dirs| >= 1 || |plan.emptyDirs| >= 1 {
      var removedFiles, removedDirs := Removal(disk, pathBackup, plan, oracle);
      var log := [];
      if ShouldLogAsWritten(disk.State(), logFile) {
        log := LogLines(time, removedFiles, removedDirs);
      }
      report := Removed(removedFiles, removedDirs, log);
    } else {
      report := NothingToRemove;
    }
  }

  /** End to end, for an absolute backup root: a run deletes nothing
      outside the backup root, not the root itself, and nothing inside a
      directory whose name holds the marker and that the source root also
      lists. */
  lemma CleanConfined(fs: FileSystem, pathSrc: Path, pathBackup: Path, srcDrive: string, backupDrive: string,
                      oracle: Oracle, q: Path)
    requires IsAbsolute(pathBackup)
    requires PlanOf(fs, pathSrc, pathBackup, srcDrive, backupDrive).Ok?
    requires Fits(oracle, PlanOf(fs, pathSrc, pathBackup, srcDrive, backupDrive).value)
    requires q in fs.kinds
    requires q !in ExecuteAsWritten(fs, pathBackup, PlanOf(fs, pathSrc, pathBackup, srcDrive, backupDrive).value, oracle).fs.kinds
    ensures StartsWith(q, pathBackup + [Sep])
    ensures forall d :: d in Listdir(fs, pathSrc) && Contains(d, AppData) ==> !Under(q, Join(pathBackup, d))
  {
    var plan := PlanOf(fs, pathSrc, pathBackup, srcDrive, backupDrive).value;
    AbsoluteRootAgrees(fs, pathSrc, pathBackup, srcDrive, backupDrive, oracle);
    ExecuteDeletesOnlyPlanned(fs, plan, oracle, q);
    var p :| plan.Holds(p) && Under(q, p);
    var g := PlanEntry(fs, pathSrc, pathBackup, srcDrive, backupDrive, p);
    UnderTrans(q, p, Join(pathBackup, g));
    InsideEntry(fs, pathSrc, pathBackup, g, q);
  }

  /** For an absolute backup root every path a run reports removed is gone
      at the end and was planned. */
  lemma CleanReportsTruthfully(fs: FileSystem, pathSrc: Path, pathBackup: Path, srcDrive: string, backupDrive: string,
                               oracle: Oracle, q: Path)
    requires IsAbsolute(pathBackup)
    requires PlanOf(fs, pathSrc, pathBackup, srcDrive, backupDrive).Ok?
    requires Fits(oracle, PlanOf(fs, pathSrc, pathBackup, srcDrive, backupDrive).value)
    requires var o := ExecuteAsWritten(fs, pathBackup, PlanOf(fs, pathSrc, pathBackup, srcDrive, backupDrive).value, oracle);
      q in o.removedFiles || q in o.removedDirs
    ensures var plan := PlanOf(fs, pathSrc, pathBackup, srcDrive, backupDrive).value;
      q !in ExecuteAsWritten(fs, pathBackup, plan, oracle).fs.kinds && plan.Holds(q)
  {
    var plan := PlanOf(fs, pathSrc, pathBackup, srcDrive, backupDrive).value;
    AbsoluteRootAgrees(fs, pathSrc, pathBackup, srcDrive, backupDrive, oracle);
    ExecuteReportedGone(fs, plan, oracle, q);
    ExecuteReportsPlanned(fs, plan, oracle);
  }
}
