/** The pruning planner of `compare()`: which backup entries become stale
    files, stale directories (removed with their contents) and empty
    directories. `PlanOf` states the plan as a function of the filesystem;
    `Compare` builds it the way the program does, by editing and appending
    to three lists. */
module Planner {
  import opened Paths
  import opened FileSystems

  /** The three removal lists: `file_rm_list`, `dir_rm_list`,
      `empty_dir_rm_list`. */
  datatype Plan = Plan(files: seq<Path>, dirs: seq<Path>, emptyDirs: seq<Path>) {
    function Append(other: Plan): Plan {
      Plan(files + other.files, dirs + other.dirs, emptyDirs + other.emptyDirs)
    }

    predicate IsEmpty() {
      files == [] && dirs == [] && emptyDirs == []
    }

    /** `p` is queued for removal by one of the three lists. */
    predicate Holds(p: Path) {
      p in files || p in dirs || p in emptyDirs
    }
  }

  const NoPlan := Plan([], [], [])

  /** A root that cannot be listed makes the comparison fail. */
  datatype Error = TraversalError(path: Path)

  datatype Result<T> = Ok(value: T) | Err(error: Error)

  /** Common directories whose name contains this marker are never walked. */
  const AppData: string := "%APPDATA%"

  // ---------------------------------------------------------------------------
  // The top-level comparison

  /** `dircmp.right_only`: backup names absent from the source listing. */
  function RightOnly(left: seq<string>, right: seq<string>): (r: seq<string>)
    ensures forall n :: n in r <==> n in right && n !in left
  {
    if right == [] then []
    else (if right[0] in left then [] else [right[0]]) + RightOnly(left, right[1..])
  }

  /** `dircmp.common_dirs`: names listed on both sides that are directories
      on both sides, in source listing order. A name that is a directory on
      one side only is in neither this list nor `RightOnly`. */
  function CommonDirs(fs: FileSystem, src: Path, bak: Path, left: seq<string>, right: seq<string>): (r: seq<string>)
    ensures forall n :: n in r <==> n in left && n in right && IsDir(fs, Join(src, n)) && IsDir(fs, Join(bak, n))
  {
    if left == [] then []
    else
      var n := left[0];
      (if n in right && IsDir(fs, Join(src, n)) && IsDir(fs, Join(bak, n)) then [n] else [])
      + CommonDirs(fs, src, bak, left[1..], right)
  }

  /** Where one backup-only top-level name goes: a non-empty directory to the
      directory list, an empty one to the empty-directory list, anything else
      to the file list; always as its full backup path. */
  function TopEntry(fs: FileSystem, bak: Path, f: string): Plan {
    var full := Join(bak, f);
    if IsDir(fs, full) then
      if Listdir(fs, full) != [] then Plan([], [full], []) else Plan([], [], [full])
    else Plan([full], [], [])
  }

  function TopPlan(fs: FileSystem, bak: Path, names: seq<string>): Plan {
    if names == [] then NoPlan
    else TopPlan(fs, bak, names[..|names| - 1]).Append(TopEntry(fs, bak, names[|names| - 1]))
  }

  // ---------------------------------------------------------------------------
  // The walk of the common directories

  /** The files of a walked directory whose mapped source file is not a file. */
  function StaleFiles(fs: FileSystem, root: Path, src: Path, names: seq<string>): seq<Path> {
    if names == [] then []
    else
      var f := names[|names| - 1];
      StaleFiles(fs, root, src, names[..|names| - 1])
      + (if IsFile(fs, Join(src, f)) then [] else [Join(root, f)])
  }

  /** The three-way decision for one walked directory. */
  function PlanVisit(fs: FileSystem, v: Visit, backupDrive: string, srcDrive: string): Plan {
    var src := Replace(v.root, backupDrive, srcDrive);
    if |v.files| > 0 && IsDir(fs, src) then Plan(StaleFiles(fs, v.root, src, v.files), [], [])
    else if Listdir(fs, v.root) == [] then Plan([], [], [v.root])
    else if |v.files| > 0 && !IsDir(fs, src) then Plan([], [v.root], [])
    else NoPlan
  }

  function PlanVisits(fs: FileSystem, vs: seq<Visit>, backupDrive: string, srcDrive: string): Plan {
    if vs == [] then NoPlan
    else PlanVisits(fs, vs[..|vs| - 1], backupDrive, srcDrive).Append(PlanVisit(fs, vs[|vs| - 1], backupDrive, srcDrive))
  }

  /** What one common directory contributes: nothing when excluded, otherwise
      the decisions for every directory of its walk. */
  function PlanCommonDir(fs: FileSystem, bak: Path, d: string, backupDrive: string, srcDrive: string): Plan {
    if Contains(d, AppData) then NoPlan
    else PlanVisits(fs, Walk(fs, Join(bak, d)), backupDrive, srcDrive)
  }

  function PlanCommon(fs: FileSystem, bak: Path, ds: seq<string>, backupDrive: string, srcDrive: string): Plan {
    if ds == [] then NoPlan
    else PlanCommon(fs, bak, ds[..|ds| - 1], backupDrive, srcDrive).Append(PlanCommonDir(fs, bak, ds[|ds| - 1], backupDrive, srcDrive))
  }

  /** The whole plan: the top-level entries first, then the walk's, in each
      of the three lists. */
  function PlanOf(fs: FileSystem, pathSrc: Path, pathBackup: Path, srcDrive: string, backupDrive: string): Result<Plan> {
    if !IsDir(fs, pathSrc) then Err(TraversalError(pathSrc))
    else if !IsDir(fs, pathBackup) then Err(TraversalError(pathBackup))
    else
      var left := Listdir(fs, pathSrc);
      var right := Listdir(fs, pathBackup);
      Ok(TopPlan(fs, pathBackup, RightOnly(left, right))
         .Append(PlanCommon(fs, pathBackup, CommonDirs(fs, pathSrc, pathBackup, left, right), backupDrive, srcDrive)))
  }

  // ---------------------------------------------------------------------------
  // The program's procedure

  /** `list.index`: the first position of `x`, or `|s|` when it is absent. */
  function IndexOf(s: seq<Path>, x: Path): (i: nat)
    ensures i <= |s|
    ensures i < |s| ==> s[i] == x
    ensures x !in s[..i]
  {
    if s == [] then 0
    else if s[0] == x then 0
    else
      var j := IndexOf(s[1..], x);
      assert s[..j + 1] == [s[0]] + s[1..][..j];
      j + 1
  }

  lemma {:induction false} IndexOfFirst(pre: seq<Path>, x: Path, post: seq<Path>)
    requires x !in pre
    ensures IndexOf(pre + [x] + post, x) == |pre|
  {
    if pre != [] {
      IndexOfFirst(pre[1..], x, post);
      assert (pre + [x] + post)[1..] == pre[1..] + [x] + post;
    }
  }

  /** `compare()`: lists both roots, classifies the backup-only names, then
      walks every common directory that is not excluded. */
  method Compare(fs: FileSystem, pathSrc: Path, pathBackup: Path, srcDrive: string, backupDrive: string)
    returns (result: Result<Plan>)
    ensures result == PlanOf(fs, pathSrc, pathBackup, srcDrive, backupDrive)
  {
    if !IsDir(fs, pathSrc) {
      return Err(TraversalError(pathSrc));
    }
    if !IsDir(fs, pathBackup) {
      return Err(TraversalError(pathBackup));
    }
    var left := Listdir(fs, pathSrc);
    var right := Listdir(fs, pathBackup);
    var rightOnly := RightOnly(left, right);
    forall f | f in rightOnly ensures ValidName(f) {
      ListInIff(fs.order, pathBackup, f);
    }
    var fileRm, dirRm, emptyRm := ClassifyTopLevel(fs, pathBackup, rightOnly);

    var commonDirs := CommonDirs(fs, pathSrc, pathBackup, left, right);
    fileRm, dirRm, emptyRm := WalkCommonDirs(fs, pathBackup, commonDirs, backupDrive, srcDrive, fileRm, dirRm, emptyRm);
    return Ok(Plan(fileRm, dirRm, emptyRm));
  }

  /** The second loop of `compare()`: every common directory whose name does
      not contain the marker is walked, appending to the three lists. */
  method WalkCommonDirs(fs: FileSystem, pathBackup: Path, commonDirs: seq<string>, backupDrive: string, srcDrive: string,
                        fileRm0: seq<Path>, dirRm0: seq<Path>, emptyRm0: seq<Path>)
    returns (fileRm: seq<Path>, dirRm: seq<Path>, emptyRm: seq<Path>)
    ensures Plan(fileRm, dirRm, emptyRm) == Plan(fileRm0, dirRm0, emptyRm0).Append(PlanCommon(fs, pathBackup, commonDirs, backupDrive, srcDrive))
  {
    fileRm, dirRm, emptyRm := fileRm0, dirRm0, emptyRm0;
    var k := 0;
    while k < |commonDirs|
      invariant 0 <= k <= |commonDirs|
      invariant Plan(fileRm, dirRm, emptyRm) == Plan(fileRm0, dirRm0, emptyRm0).Append(PlanCommon(fs, pathBackup, commonDirs[..k], backupDrive, srcDrive))
    {
      PlanCommonSnoc(fs, pathBackup, commonDirs, k, backupDrive, srcDrive);
      fileRm, dirRm, emptyRm := WalkCommonDir(fs, pathBackup, commonDirs[k], backupDrive, srcDrive, fileRm, dirRm, emptyRm);
      AppendAssoc(Plan(fileRm0, dirRm0, emptyRm0), PlanCommon(fs, pathBackup, commonDirs[..k], backupDrive, srcDrive), PlanCommonDir(fs, pathBackup, commonDirs[k], backupDrive, srcDrive));
      k := k + 1;
    }
    assert commonDirs[..k] == commonDirs;
  }

  /** One common directory: skipped when its name holds the marker,
      otherwise walked. */
  method WalkCommonDir(fs: FileSystem, pathBackup: Path, dir: string, backupDrive: string, srcDrive: string,
                       fileRm0: seq<Path>, dirRm0: seq<Path>, emptyRm0: seq<Path>)
    returns (fileRm: seq<Path>, dirRm: seq<Path>, emptyRm: seq<Path>)
    ensures Plan(fileRm, dirRm, emptyRm) == Plan(fileRm0, dirRm0, emptyRm0).Append(PlanCommonDir(fs, pathBackup, dir, backupDrive, srcDrive))
  {
    fileRm, dirRm, emptyRm := fileRm0, dirRm0, emptyRm0;
    if !Contains(dir, AppData) {
      var visits := Walk(fs, Join(pathBackup, dir));
      fileRm, dirRm, emptyRm := WalkVisits(fs, visits, backupDrive, srcDrive, fileRm, dirRm, emptyRm);
    }
  }

  /** The first loop of `compare()`: the file list starts as the backup-only
      names; a directory among them is appended to one of the directory lists
      and removed from the file list (`list.remove`), any other name is
      overwritten in place by its full path (`list.index`). */
  method ClassifyTopLevel(fs: FileSystem, pathBackup: Path, rightOnly: seq<string>)
    returns (fileRm: seq<Path>, dirRm: seq<Path>, emptyRm: seq<Path>)
    requires forall f :: f in rightOnly ==> ValidName(f)
    ensures Plan(fileRm, dirRm, emptyRm) == TopPlan(fs, pathBackup, rightOnly)
  {
    fileRm, dirRm, emptyRm := rightOnly, [], [];
    var names := fileRm;
    var i := 0;
    while i < |names|
      invariant 0 <= i <= |names|
      invariant fileRm == TopPlan(fs, pathBackup, names[..i]).files + names[i..]
      invariant dirRm == TopPlan(fs, pathBackup, names[..i]).dirs
      invariant emptyRm == TopPlan(fs, pathBackup, names[..i]).emptyDirs
    {
      ghost var done := TopPlan(fs, pathBackup, names[..i]).files;
      ClassifyStep(fs, pathBackup, names, i);
      fileRm, dirRm, emptyRm := ClassifyName(fs, pathBackup, names[i], done, names[i + 1..], fileRm, dirRm, emptyRm);
      i := i + 1;
    }
    assert names[..i] == names;
  }

  /** What one pass of the first loop needs of the specification: the
      entry is not among those already rewritten, and the fold grows by the
      entry's classification. */
  lemma ClassifyStep(fs: FileSystem, pathBackup: Path, names: seq<string>, i: nat)
    requires i < |names| && forall f :: f in names ==> ValidName(f)
    ensures names[i] !in TopPlan(fs, pathBackup, names[..i]).files
    ensures TopPlan(fs, pathBackup, names[..i]).files + names[i..]
         == TopPlan(fs, pathBackup, names[..i]).files + [names[i]] + names[i + 1..]
    ensures TopPlan(fs, pathBackup, names[..i + 1])
         == TopPlan(fs, pathBackup, names[..i]).Append(TopEntry(fs, pathBackup, names[i]))
  {
    TopPlanSnoc(fs, pathBackup, names, i);
    assert forall g :: g in names[..i] ==> g in names;
    FirstAfterDone(fs, pathBackup, names[..i], names[i]);
    assert names[i..] == [names[i]] + names[i + 1..];
  }

  /** One pass of the first loop: `f` is the first occurrence of itself in
      the file list, after the entries already rewritten. */
  method ClassifyName(fs: FileSystem, pathBackup: Path, f: string, ghost done: seq<Path>, ghost rest: seq<string>,
                      fileRm0: seq<Path>, dirRm0: seq<Path>, emptyRm0: seq<Path>)
    returns (fileRm: seq<Path>, dirRm: seq<Path>, emptyRm: seq<Path>)
    requires fileRm0 == done + [f] + rest && f !in done
    ensures fileRm == done + TopEntry(fs, pathBackup, f).files + rest
    ensures dirRm == dirRm0 + TopEntry(fs, pathBackup, f).dirs
    ensures emptyRm == emptyRm0 + TopEntry(fs, pathBackup, f).emptyDirs
  {
    fileRm, dirRm, emptyRm := fileRm0, dirRm0, emptyRm0;
    var fullPath := Join(pathBackup, f);
    IndexOfFirst(done, f, rest);
    var j := IndexOf(fileRm, f);
    if IsDir(fs, fullPath) {
      if Listdir(fs, fullPath) != [] {
        dirRm := dirRm + [fullPath];
      } else {
        emptyRm := emptyRm + [fullPath];
      }
      fileRm := fileRm[..j] + fileRm[j + 1..];
      assert fileRm == done + rest;
    } else {
      fileRm := fileRm[j := fullPath];
      assert fileRm == done + [fullPath] + rest;
    }
  }

  /** The `os.walk` loop over one common directory: each walked directory is
      mapped to its source path and goes through the three-way decision. */
  method WalkVisits(fs: FileSystem, visits: seq<Visit>, backupDrive: string, srcDrive: string,
                    fileRm0: seq<Path>, dirRm0: seq<Path>, emptyRm0: seq<Path>)
    returns (fileRm: seq<Path>, dirRm: seq<Path>, emptyRm: seq<Path>)
    ensures Plan(fileRm, dirRm, emptyRm) == Plan(fileRm0, dirRm0, emptyRm0).Append(PlanVisits(fs, visits, backupDrive, srcDrive))
  {
    fileRm, dirRm, emptyRm := fileRm0, dirRm0, emptyRm0;
    var m := 0;
    while m < |visits|
      invariant 0 <= m <= |visits|
      invariant Plan(fileRm, dirRm, emptyRm) == Plan(fileRm0, dirRm0, emptyRm0).Append(PlanVisits(fs, visits[..m], backupDrive, srcDrive))
    {
      PlanVisitsSnoc(fs, visits, m, backupDrive, srcDrive);
      fileRm, dirRm, emptyRm := DecideVisit(fs, visits[m], backupDrive, srcDrive, fileRm, dirRm, emptyRm);
      AppendAssoc(Plan(fileRm0, dirRm0, emptyRm0), PlanVisits(fs, visits[..m], backupDrive, srcDrive), PlanVisit(fs, visits[m], backupDrive, srcDrive));
      m := m + 1;
    }
    assert visits[..m] == visits;
  }

  /** The three-way decision for one directory of the walk. */
  method DecideVisit(fs: FileSystem, v: Visit, backupDrive: string, srcDrive: string,
                     fileRm0: seq<Path>, dirRm0: seq<Path>, emptyRm0: seq<Path>)
    returns (fileRm: seq<Path>, dirRm: seq<Path>, emptyRm: seq<Path>)
    ensures Plan(fileRm, dirRm, emptyRm) == Plan(fileRm0, dirRm0, emptyRm0).Append(PlanVisit(fs, v, backupDrive, srcDrive))
  {
    fileRm, dirRm, emptyRm := fileRm0, dirRm0, emptyRm0;
    var root := v.root;
    var srcPath := Replace(root, backupDrive, srcDrive);
    if |v.files| > 0 && IsDir(fs, srcPath) {
      fileRm := CollectStaleFiles(fs, root, srcPath, v.files, fileRm);
    } else if Listdir(fs, root) == [] {
      emptyRm := emptyRm + [root];
    } else if |v.files| > 0 && !IsDir(fs, srcPath) {
      dirRm := dirRm + [root];
    }
  }

  /** The inner loop over a walked directory's files: each file whose mapped
      source file is not a file is appended to the file list. */
  method CollectStaleFiles(fs: FileSystem, root: Path, srcPath: Path, files: seq<string>, fileRm0: seq<Path>)
    returns (fileRm: seq<Path>)
    ensures fileRm == fileRm0 + StaleFiles(fs, root, srcPath, files)
  {
    fileRm := fileRm0;
    var n := 0;
    while n < |files|
      invariant 0 <= n <= |files|
      invariant fileRm == fileRm0 + StaleFiles(fs, root, srcPath, files[..n])
    {
      var file := files[n];
      assert files[..n + 1][..n] == files[..n];
      if !IsFile(fs, Join(srcPath, file)) {
        fileRm := fileRm + [Join(root, file)];
      }
      n := n + 1;
    }
    assert files[..n] == files;
  }

  // ---------------------------------------------------------------------------
  // One step of each loop

  /** Appending plans is associative, so appending one step's contribution
      extends the running plan. */
  lemma AppendAssoc(a: Plan, b: Plan, c: Plan)
    ensures a.Append(b).Append(c) == a.Append(b.Append(c))
  {
    assert a.files + b.files + c.files == a.files + (b.files + c.files);
  }

  /** Each specification fold grows by one element per loop pass. */
  lemma PlanVisitsSnoc(fs: FileSystem, vs: seq<Visit>, k: nat, backupDrive: string, srcDrive: string)
    requires k < |vs|
    ensures PlanVisits(fs, vs[..k + 1], backupDrive, srcDrive)
      == PlanVisits(fs, vs[..k], backupDrive, srcDrive).Append(PlanVisit(fs, vs[k], backupDrive, srcDrive))
  {
    assert vs[..k + 1][..k] == vs[..k];
  }

  lemma TopPlanSnoc(fs: FileSystem, bak: Path, names: seq<string>, k: nat)
    requires k < |names|
    ensures TopPlan(fs, bak, names[..k + 1]) == TopPlan(fs, bak, names[..k]).Append(TopEntry(fs, bak, names[k]))
  {
    assert names[..k + 1][..k] == names[..k];
  }

  lemma PlanCommonSnoc(fs: FileSystem, bak: Path, ds: seq<string>, k: nat, backupDrive: string, srcDrive: string)
    requires k < |ds|
    ensures PlanCommon(fs, bak, ds[..k + 1], backupDrive, srcDrive)
      == PlanCommon(fs, bak, ds[..k], backupDrive, srcDrive).Append(PlanCommonDir(fs, bak, ds[k], backupDrive, srcDrive))
  {
    assert ds[..k + 1][..k] == ds[..k];
  }

  /** In the file list being rewritten, the next name does not occur among
      the entries already rewritten: those are full paths and hold a
      separator, a listed name does not. So `list.index` finds it right
      after them. */
  lemma FirstAfterDone(fs: FileSystem, bak: Path, done: seq<string>, f: string)
    requires forall g :: g in done ==> ValidName(g)
    requires ValidName(f)
    ensures f !in TopPlan(fs, bak, done).files
  {
    forall p | p in TopPlan(fs, bak, done).files ensures p != f {
      TopPlanSources(fs, bak, done, p);
      var g :| g in done && p == Join(bak, g);
      JoinName(bak, g, g);
      assert p[|bak|] == Sep;
    }
  }

  // ---------------------------------------------------------------------------
  // Properties of the top-level classification

  /** Every entry of the three top-level lists is the full backup path of one
      of the backup-only names. */
  lemma {:induction false} TopPlanSources(fs: FileSystem, bak: Path, names: seq<string>, p: Path)
    requires TopPlan(fs, bak, names).Holds(p)
    ensures exists g :: g in names && p == Join(bak, g)
  {
    var init := names[..|names| - 1];
    var last := names[|names| - 1];
    if TopPlan(fs, bak, init).Holds(p) {
      TopPlanSources(fs, bak, init, p);
      var g :| g in init && p == Join(bak, g);
      assert g in names;
    } else {
      assert p == Join(bak, last);
    }
  }

  /** Each backup-only name lands in exactly one list: the file list when it
      is not a directory, the directory list when it is a directory with
      entries, the empty-directory list when it is a directory without. */
  lemma {:induction false} TopPlanClassifies(fs: FileSystem, bak: Path, names: seq<string>, f: string)
    requires f in names
    ensures var full := Join(bak, f);
      && (full in TopPlan(fs, bak, names).files <==> !IsDir(fs, full))
      && (full in TopPlan(fs, bak, names).dirs <==> IsDir(fs, full) && Listdir(fs, full) != [])
      && (full in TopPlan(fs, bak, names).emptyDirs <==> IsDir(fs, full) && Listdir(fs, full) == [])
  {
    var full := Join(bak, f);
    var tp := TopPlan(fs, bak, names);
    var init := names[..|names| - 1];
    var last := names[|names| - 1];
    assert names == init + [last];
    if f == last {
      assert TopEntry(fs, bak, f).Holds(full);
    } else {
      TopPlanClassifies(fs, bak, init, f);
    }
    if tp.Holds(full) {
      TopPlanSourceKind(fs, bak, names, full);
    }
  }

  /** The list a top-level path sits in is decided by that path alone. */
  lemma {:induction false} TopPlanSourceKind(fs: FileSystem, bak: Path, names: seq<string>, p: Path)
    ensures p in TopPlan(fs, bak, names).files ==> !IsDir(fs, p)
    ensures p in TopPlan(fs, bak, names).dirs ==> IsDir(fs, p) && Listdir(fs, p) != []
    ensures p in TopPlan(fs, bak, names).emptyDirs ==> IsDir(fs, p) && Listdir(fs, p) == []
  {
    if names != [] {
      TopPlanSourceKind(fs, bak, names[..|names| - 1], p);
    }
  }

  // ---------------------------------------------------------------------------
  // Properties of the per-directory decision

  /** At most one branch fires for a walked directory, and the two directory
      branches queue the directory itself. */
  lemma VisitOneBranch(fs: FileSystem, v: Visit, backupDrive: string, srcDrive: string)
    ensures var pv := PlanVisit(fs, v, backupDrive, srcDrive);
      && (pv.files != [] ==> pv.dirs == [] && pv.emptyDirs == [])
      && (pv.dirs != [] ==> pv.files == [] && pv.emptyDirs == [] && pv.dirs == [v.root])
      && (pv.emptyDirs != [] ==> pv.files == [] && pv.dirs == [] && pv.emptyDirs == [v.root])
  {
  }

  /** A directory holding only subdirectories is queued by no branch, whether
      or not its mapped source directory exists. */
  lemma SubdirsOnlyIgnored(fs: FileSystem, top: Path, v: Visit, backupDrive: string, srcDrive: string)
    requires v in Walk(fs, top)
    requires v.files == [] && v.dirs != []
    ensures PlanVisit(fs, v, backupDrive, srcDrive) == NoPlan
  {
    WalkVisit(fs, top, v);
    SplitEmpty(fs, v.root, Listdir(fs, v.root));
  }

  /** A directory without entries is queued as empty whatever the source
      holds; one with files whose mapped source directory is missing is
      queued for recursive removal. */
  lemma EmptyAndStaleDirs(fs: FileSystem, top: Path, v: Visit, backupDrive: string, srcDrive: string)
    requires v in Walk(fs, top)
    ensures v.files == [] && v.dirs == [] ==>
      PlanVisit(fs, v, backupDrive, srcDrive) == Plan([], [], [v.root])
    ensures v.files != [] && !IsDir(fs, Replace(v.root, backupDrive, srcDrive)) ==>
      PlanVisit(fs, v, backupDrive, srcDrive) == Plan([], [v.root], [])
  {
    WalkVisit(fs, top, v);
    SplitEmpty(fs, v.root, Listdir(fs, v.root));
  }

  lemma {:induction false} StaleFilesSources(fs: FileSystem, root: Path, src: Path, names: seq<string>, p: Path)
    ensures p in StaleFiles(fs, root, src, names) <==>
      exists f :: f in names && p == Join(root, f) && !IsFile(fs, Join(src, f))
  {
    if names != [] {
      var init := names[..|names| - 1];
      var last := names[|names| - 1];
      assert names == init + [last];
      StaleFilesSources(fs, root, src, init, p);
      if exists f :: f in names && p == Join(root, f) && !IsFile(fs, Join(src, f)) {
        var f :| f in names && p == Join(root, f) && !IsFile(fs, Join(src, f));
        assert f in init || f == last;
      }
    }
  }

  /** A walked file is queued exactly when the mapped source directory is a
      directory and the mapped source file is not a file; so no file is queued
      from a directory whose mapped source directory is missing. */
  lemma StaleFileRule(fs: FileSystem, v: Visit, backupDrive: string, srcDrive: string, f: string)
    requires forall g :: g in v.files ==> ValidName(g)
    requires f in v.files
    ensures var src := Replace(v.root, backupDrive, srcDrive);
      Join(v.root, f) in PlanVisit(fs, v, backupDrive, srcDrive).files <==>
        IsDir(fs, src) && !IsFile(fs, Join(src, f))
  {
    var src := Replace(v.root, backupDrive, srcDrive);
    var p := Join(v.root, f);
    StaleFilesSources(fs, v.root, src, v.files, p);
    if exists g :: g in v.files && p == Join(v.root, g) && !IsFile(fs, Join(src, g)) {
      var g :| g in v.files && p == Join(v.root, g) && !IsFile(fs, Join(src, g));
      JoinName(v.root, f, g);
    }
  }

  /** Nothing queued by the walk of a common directory lies outside the
      directory it was walked from. */
  lemma VisitInside(fs: FileSystem, top: Path, v: Visit, backupDrive: string, srcDrive: string, p: Path)
    requires v in Walk(fs, top)
    requires PlanVisit(fs, v, backupDrive, srcDrive).Holds(p)
    ensures Under(p, top)
  {
    WalkVisit(fs, top, v);
    var src := Replace(v.root, backupDrive, srcDrive);
    if p in PlanVisit(fs, v, backupDrive, srcDrive).files {
      StaleFilesSources(fs, v.root, src, v.files, p);
      var f :| f in v.files && p == Join(v.root, f) && !IsFile(fs, Join(src, f));
      WalkFileNamesValid(fs, top, v, f);
      JoinName(v.root, f, f);
      UnderTrans(p, v.root, top);
    }
  }

  lemma WalkFileNamesValid(fs: FileSystem, top: Path, v: Visit, f: string)
    requires v in Walk(fs, top)
    requires f in v.files
    ensures ValidName(f)
  {
    WalkVisit(fs, top, v);
    SubDirsIff(fs, v.root, Listdir(fs, v.root), f);
    ListInIff(fs.order, v.root, f);
  }

  lemma {:induction false} PlanVisitsSources(fs: FileSystem, vs: seq<Visit>, backupDrive: string, srcDrive: string, p: Path)
    requires PlanVisits(fs, vs, backupDrive, srcDrive).Holds(p)
    ensures exists v :: v in vs && PlanVisit(fs, v, backupDrive, srcDrive).Holds(p)
  {
    var init := vs[..|vs| - 1];
    if PlanVisits(fs, init, backupDrive, srcDrive).Holds(p) {
      PlanVisitsSources(fs, init, backupDrive, srcDrive, p);
      var v :| v in init && PlanVisit(fs, v, backupDrive, srcDrive).Holds(p);
      assert v in vs;
    } else {
      assert PlanVisit(fs, vs[|vs| - 1], backupDrive, srcDrive).Holds(p);
    }
  }

  lemma {:induction false} PlanVisitsCovers(fs: FileSystem, vs: seq<Visit>, backupDrive: string, srcDrive: string, v: Visit, p: Path)
    requires v in vs
    ensures p in PlanVisit(fs, v, backupDrive, srcDrive).files ==> p in PlanVisits(fs, vs, backupDrive, srcDrive).files
    ensures p in PlanVisit(fs, v, backupDrive, srcDrive).dirs ==> p in PlanVisits(fs, vs, backupDrive, srcDrive).dirs
    ensures p in PlanVisit(fs, v, backupDrive, srcDrive).emptyDirs ==> p in PlanVisits(fs, vs, backupDrive, srcDrive).emptyDirs
  {
    var init := vs[..|vs| - 1];
    assert vs == init + [vs[|vs| - 1]];
    if v != vs[|vs| - 1] {
      PlanVisitsCovers(fs, init, backupDrive, srcDrive, v, p);
    }
  }

  /** Whatever the walk of the common directories queues lies inside one of
      the common directories that is not excluded: a directory whose name
      contains the marker contributes nothing. */
  lemma {:induction false} PlanCommonSources(fs: FileSystem, bak: Path, ds: seq<string>, backupDrive: string, srcDrive: string, p: Path)
    requires PlanCommon(fs, bak, ds, backupDrive, srcDrive).Holds(p)
    ensures exists d :: d in ds && !Contains(d, AppData) && Under(p, Join(bak, d))
  {
    var init := ds[..|ds| - 1];
    var d := ds[|ds| - 1];
    if PlanCommon(fs, bak, init, backupDrive, srcDrive).Holds(p) {
      PlanCommonSources(fs, bak, init, backupDrive, srcDrive, p);
      var e :| e in init && !Contains(e, AppData) && Under(p, Join(bak, e));
      assert e in ds;
    } else {
      var top := Join(bak, d);
      PlanVisitsSources(fs, Walk(fs, top), backupDrive, srcDrive, p);
      var v :| v in Walk(fs, top) && PlanVisit(fs, v, backupDrive, srcDrive).Holds(p);
      VisitInside(fs, top, v, backupDrive, srcDrive, p);
    }
  }

  /** Every queued path lies inside a backup entry; an entry that is also
      listed in the source was walked, so its name does not hold the marker. */
  lemma PlanEntry(fs: FileSystem, pathSrc: Path, pathBackup: Path, srcDrive: string, backupDrive: string, p: Path)
    returns (g: string)
    requires PlanOf(fs, pathSrc, pathBackup, srcDrive, backupDrive).Ok?
    requires PlanOf(fs, pathSrc, pathBackup, srcDrive, backupDrive).value.Holds(p)
    ensures g in Listdir(fs, pathBackup) && Under(p, Join(pathBackup, g))
    ensures g in Listdir(fs, pathSrc) ==> !Contains(g, AppData)
  {
    var left := Listdir(fs, pathSrc);
    var right := Listdir(fs, pathBackup);
    var names := RightOnly(left, right);
    var ds := CommonDirs(fs, pathSrc, pathBackup, left, right);
    if TopPlan(fs, pathBackup, names).Holds(p) {
      TopPlanSources(fs, pathBackup, names, p);
      g :| g in names && p == Join(pathBackup, g);
    } else {
      PlanCommonSources(fs, pathBackup, ds, backupDrive, srcDrive, p);
      g :| g in ds && !Contains(g, AppData) && Under(p, Join(pathBackup, g));
    }
  }

  /** The plan never reaches outside the backup root: every queued path lies
      strictly inside it, and nothing lies inside a common directory whose
      name contains the marker. */
  lemma PlanConfined(fs: FileSystem, pathSrc: Path, pathBackup: Path, srcDrive: string, backupDrive: string, p: Path)
    requires PlanOf(fs, pathSrc, pathBackup, srcDrive, backupDrive).Ok?
    requires PlanOf(fs, pathSrc, pathBackup, srcDrive, backupDrive).value.Holds(p)
    ensures StartsWith(p, pathBackup + [Sep])
    ensures forall d :: d in Listdir(fs, pathSrc) && Contains(d, AppData) ==> !Under(p, Join(pathBackup, d))
  {
    var g := PlanEntry(fs, pathSrc, pathBackup, srcDrive, backupDrive, p);
    InsideEntry(fs, pathSrc, pathBackup, g, p);
  }

  /** A path inside a backup entry lies strictly inside the backup root, and
      inside no other entry; so when the entry's name does not hold the
      marker, the path is inside no excluded directory. */
  lemma InsideEntry(fs: FileSystem, pathSrc: Path, pathBackup: Path, g: string, p: Path)
    requires g in Listdir(fs, pathBackup) && Under(p, Join(pathBackup, g))
    requires g in Listdir(fs, pathSrc) ==> !Contains(g, AppData)
    ensures StartsWith(p, pathBackup + [Sep])
    ensures forall d :: d in Listdir(fs, pathSrc) && Contains(d, AppData) ==> !Under(p, Join(pathBackup, d))
  {
    ListInIff(fs.order, pathBackup, g);
    JoinName(pathBackup, g, g);
    UnderPrefix(p, Join(pathBackup, g));
    assert p[..|pathBackup| + 1] == (pathBackup + [Sep] + g)[..|pathBackup| + 1];
    forall d | d in Listdir(fs, pathSrc) && Contains(d, AppData)
      ensures !Under(p, Join(pathBackup, d))
    {
      ListInIff(fs.order, pathSrc, d);
      if Under(p, Join(pathBackup, d)) {
        SameSibling(p, pathBackup, g, d);
      }
    }
  }

  // ---------------------------------------------------------------------------
  // Consequences of the path mapping

  /** A triple whose lists come from listing its own root, as every triple
      of a walk does. */
  ghost predicate Listed(fs: FileSystem, v: Visit) {
    IsDir(fs, v.root) && v.files == FileNames(fs, v.root, Listdir(fs, v.root))
  }

  /** When the two drives are equal the mapped source path is the walked
      directory itself, so the walk finds no stale file and no stale
      directory: it can only queue empty directories. */
  lemma {:induction false} SameDriveOnlyEmpty(fs: FileSystem, bak: Path, ds: seq<string>, drive: string)
    requires Valid(fs)
    ensures PlanCommon(fs, bak, ds, drive, drive).files == []
    ensures PlanCommon(fs, bak, ds, drive, drive).dirs == []
  {
    if ds != [] {
      SameDriveOnlyEmpty(fs, bak, ds[..|ds| - 1], drive);
      var d := ds[|ds| - 1];
      if !Contains(d, AppData) {
        var top := Join(bak, d);
        var vs := Walk(fs, top);
        forall v | v in vs ensures Listed(fs, v) {
          WalkVisit(fs, top, v);
        }
        SameDriveVisits(fs, vs, drive);
      }
    }
  }

  lemma {:induction false} SameDriveVisits(fs: FileSystem, vs: seq<Visit>, drive: string)
    requires Valid(fs)
    requires forall v :: v in vs ==> Listed(fs, v)
    ensures PlanVisits(fs, vs, drive, drive).files == []
    ensures PlanVisits(fs, vs, drive, drive).dirs == []
  {
    if vs != [] {
      SameDriveVisits(fs, vs[..|vs| - 1], drive);
      SameDriveVisit(fs, vs[|vs| - 1], drive);
    }
  }

  lemma SameDriveVisit(fs: FileSystem, v: Visit, drive: string)
    requires Valid(fs) && Listed(fs, v)
    ensures PlanVisit(fs, v, drive, drive).files == []
    ensures PlanVisit(fs, v, drive, drive).dirs == []
  {
    ReplaceSame(v.root, drive);
    forall f | f in v.files ensures IsFile(fs, Join(v.root, f)) {
      SubDirsIff(fs, v.root, Listdir(fs, v.root), f);
      ListdirIff(fs, v.root, f);
    }
    StaleFilesNone(fs, v.root, v.root, v.files);
  }

  lemma {:induction false} StaleFilesNone(fs: FileSystem, root: Path, src: Path, names: seq<string>)
    requires forall f :: f in names ==> IsFile(fs, Join(src, f))
    ensures StaleFiles(fs, root, src, names) == []
  {
    if names != [] {
      StaleFilesNone(fs, root, src, names[..|names| - 1]);
    }
  }

  // ---------------------------------------------------------------------------
  // The walk is never pruned

  lemma {:induction false} WalkReachesSubdir(fs: FileSystem, top: Path, v: Visit, d: string)
    requires v in Walk(fs, top) && d in v.dirs
    ensures exists w :: w in Walk(fs, top) && w.root == Join(v.root, d)
    decreases |Longer(fs, |top|)|, 1, 0
  {
    var names := Listdir(fs, top);
    var dirs := SubDirs(fs, top, names);
    SubDirsDescend(fs, top, names);
    var w := Walk(fs, top);
    if v == w[0] {
      assert d in dirs;
      var child := Join(top, d);
      WalkEachHas(fs, top, dirs, d);
      var x :| x in WalkEach(fs, top, dirs) && x.root == child;
      assert x in w;
    } else {
      WalkEachReaches(fs, top, dirs, v, d);
      var x :| x in WalkEach(fs, top, dirs) && x.root == Join(v.root, d);
      assert x in w;
    }
  }

  lemma {:induction false} WalkEachHas(fs: FileSystem, top: Path, dirs: seq<string>, d: string)
    requires forall e :: e in dirs ==> IsDir(fs, Join(top, e)) && |Join(top, e)| > |top|
    requires d in dirs
    ensures exists x :: x in WalkEach(fs, top, dirs) && x.root == Join(top, d)
    decreases |dirs|
  {
    var child := Join(top, dirs[0]);
    assert dirs[0] in dirs;
    if d == dirs[0] {
      assert Walk(fs, child)[0] in WalkEach(fs, top, dirs);
    } else {
      WalkEachHas(fs, top, dirs[1..], d);
      var x :| x in WalkEach(fs, top, dirs[1..]) && x.root == Join(top, d);
      assert x in WalkEach(fs, top, dirs);
    }
  }

  lemma {:induction false} WalkEachReaches(fs: FileSystem, top: Path, dirs: seq<string>, v: Visit, d: string)
    requires forall e :: e in dirs ==> IsDir(fs, Join(top, e)) && |Join(top, e)| > |top|
    requires v in WalkEach(fs, top, dirs) && d in v.dirs
    ensures exists x :: x in WalkEach(fs, top, dirs) && x.root == Join(v.root, d)
    decreases |Longer(fs, |top|)|, 0, |dirs|
  {
    var child := Join(top, dirs[0]);
    assert dirs[0] in dirs;
    LongerShrinks(fs, |top|, child);
    var rest := WalkEach(fs, top, dirs[1..]);
    assert WalkEach(fs, top, dirs) == Walk(fs, child) + rest;
    if v in Walk(fs, child) {
      WalkReachesSubdir(fs, child, v, d);
      var x :| x in Walk(fs, child) && x.root == Join(v.root, d);
      assert x in WalkEach(fs, top, dirs);
    } else {
      WalkEachReaches(fs, top, dirs[1..], v, d);
      var x :| x in rest && x.root == Join(v.root, d);
      assert x in WalkEach(fs, top, dirs);
    }
  }

  /** Because the walk is not pruned, a stale directory and a stale
      subdirectory of it are both queued for recursive removal: the directory
      list can hold a path and a path inside it. */
  lemma NestedStaleDirs(fs: FileSystem, top: Path, v: Visit, d: string, backupDrive: string, srcDrive: string)
    requires v in Walk(fs, top) && d in v.dirs
    requires v.files != [] && !IsDir(fs, Replace(v.root, backupDrive, srcDrive))
    requires var sub := Join(v.root, d);
      FileNames(fs, sub, Listdir(fs, sub)) != [] && !IsDir(fs, Replace(sub, backupDrive, srcDrive))
    ensures v.root in PlanVisits(fs, Walk(fs, top), backupDrive, srcDrive).dirs
    ensures Join(v.root, d) in PlanVisits(fs, Walk(fs, top), backupDrive, srcDrive).dirs
  {
    var vs := Walk(fs, top);
    WalkVisit(fs, top, v);
    SplitEmpty(fs, v.root, Listdir(fs, v.root));
    PlanVisitsCovers(fs, vs, backupDrive, srcDrive, v, v.root);
    WalkReachesSubdir(fs, top, v, d);
    var w :| w in vs && w.root == Join(v.root, d);
    WalkVisit(fs, top, w);
    SplitEmpty(fs, w.root, Listdir(fs, w.root));
    PlanVisitsCovers(fs, vs, backupDrive, srcDrive, w, w.root);
  }
}
