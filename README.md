# Backup cleaner, modelled in Dafny

`backup_cleaner.py` prunes a backup tree so that it mirrors a source tree. It
has two parts:

- `compare()` reads both trees and builds three removal lists:
  - `file_rm_list`: files present only in the backup;
  - `dir_rm_list`: backup directories to remove with their contents;
  - `empty_dir_rm_list`: empty backup directories.
- `removal()` passes the lists to `os.remove`, `shutil.rmtree` and `os.rmdir`. Each deletion is best effort. The successes are reported in `removed_files` and `removed_dirs` and written to an optional log.

The model keeps both parts in the program's own form.

- `paths.dfy` (module `Paths`): path strings.
  - `os.path.join`, the "lies under" relation, `os.path.dirname`.
  - Python's `in` on strings and `str.replace`, which maps a walked backup directory to its source directory.
- `filesystem.dfy` (module `FileSystems`): the filesystem as a value.
  - A map from every existing path to `File` or `Dir`, plus the order in which listings return entries.
  - `os.listdir`, `os.path.isdir`, `os.path.isfile`.
  - `os.walk` as the function `Walk`: top-down, in listing order.
  - The two ways of deleting: one entry, or a whole subtree.
- `planner.dfy` (module `Planner`): `compare()`.
  - The specification functions `TopPlan`, `PlanVisit`, `PlanCommon` and `PlanOf` state the three lists as a function of the filesystem.
  - The method `Compare` and its loop methods build the lists the way the program does. The program rewrites `file_rm_list` in place: `list.remove` and `list[list.index(f)] = full_path`. It appends to all three lists inside the `os.walk` loop. `Compare` is proved to return `PlanOf`.
- `executor.dfy` (module `Executor`): `removal()`.
  - The class `Disk` is the live filesystem. Its methods `Remove`, `RmTree` and `RmDir` delete in place.
  - `RemoveFiles`, `RemoveAll` and `Removal` run the three loops as written. The file loop joins the backup root onto each entry before `os.remove`, as the program does. The methods are proved equal to the specification functions `RunFilePass`, `RunPass` and `ExecuteAsWritten`.
  - `Execute` is the removal of the planned paths themselves. The properties of the removal are proved about it. `AbsoluteRootAgrees` shows that with an absolute backup root the removal as written is `Execute`.
  - Whether the system lets a deletion through is given as one boolean per attempt, the `Oracle`.
- `cleaner.dfy` (module `Cleaner`): one run.
  - `removal()` runs only when some list is non-empty.
  - It covers the guard that decides whether the log is written, as written, and the lines the log receives.

Some behaviour of the program is easy to misread. The model follows the code.

- **The exclusion.** There is one hard-coded marker, `%APPDATA%`, and no configurable set of names. Every common directory whose name merely contains the marker is skipped. The model has the constant `AppData` and a substring test.
- **The log lines.** They are the paths exactly as they appear in the removal lists: full backup paths, not paths relative to the root.
- **The dir list.** The walk is never pruned. So the directory list can hold a directory and a directory inside it (`Planner.NestedStaleDirs`).
- **Emptied directories.** A walked directory that holds files is never queued as empty (`Planner.VisitOneBranch`). When the file loop deletes all its files, it stays, and only a later run queues it as empty.

## Model

| member | source | states |
|---|---|---|
| `Paths.ContainsIff` | backup_cleaner.py:73 | the substring test used for the exclusion holds exactly when the marker occurs at some position of the name |
| `Paths.ReplaceSame` | backup_cleaner.py:76 | replacing a drive by itself, the empty drive included, leaves the walked path unchanged |
| `Paths.ReplaceAbsent` | backup_cleaner.py:76 | a path with no occurrence of a non-empty backup drive is left unchanged by the mapping |
| `Paths.ReplaceDrive` | backup_cleaner.py:76 | a path that starts with the backup drive, with no further occurrence, maps to the source drive followed by the same relative part |
| `Paths.JoinName` | backup_cleaner.py:51 | joining a listed name onto a directory puts exactly one separator between them, and distinct names give distinct paths |
| `Paths.SameSibling` | backup_cleaner.py:51-74 | a path lies under at most one entry of a directory |
| `Paths.BareNameHasNoDirname` | backup_cleaner.py:162 | a name without a separator has an empty directory part |
| `Paths.DirnameOfJoin` | backup_cleaner.py:162 | the directory part of `d/n`, for a single name `n` and a directory `d` not ending in a separator, is `d` |
| `Paths.RebaseRoundTrip` | backup_cleaner.py:76 | replacing the backup root prefix by the source root keeps the relative part, and replacing back gives the path again |
| `Paths.ReplaceIsRebase` | backup_cleaner.py:76 | when the two roots differ only in their drive and the drive occurs nowhere else, the drive replacement is the root replacement |
| `Paths.DriveMappingLeavesSourceRoot` | backup_cleaner.py:76 | with the usage example's roots `C:/source_dir` and `D:/backup_dir`, the drive replacement maps `D:/backup_dir/d` to `C:/backup_dir/d`, outside the source root, where the root replacement gives `C:/source_dir/d` |
| `FileSystems.ListInIff` | backup_cleaner.py:43 | a listing holds exactly the names `n` for which `top/n` appears in the filesystem's order |
| `FileSystems.ListdirIff` | backup_cleaner.py:55 | on a well-formed filesystem, `n` is listed in `top` exactly when `n` is a valid name and `join(top, n)` exists |
| `FileSystems.SubDirsIff` | backup_cleaner.py:75 | a walked directory's `dirs` are exactly its listed entries that are directories, and its `files` exactly the listed entries that are not |
| `FileSystems.SubDirsDescend` | backup_cleaner.py:75 | every subdirectory the walk descends into is an existing directory one level down with a valid name |
| `FileSystems.SplitEmpty` | backup_cleaner.py:89 | a listing is empty exactly when both `dirs` and `files` are empty |
| `FileSystems.WalkVisit` | backup_cleaner.py:75 | every `(root, dirs, files)` of `os.walk(top)` has an existing directory under `top` as its root, and lists that split that root's listing |
| `FileSystems.WalkEachVisit` | backup_cleaner.py:75 | the same for the walks of a directory's subdirectories, whose roots lie strictly under it |
| `FileSystems.RemoveEntry` | backup_cleaner.py:126 | deleting one entry removes exactly that path and keeps the kind of every other |
| `FileSystems.RemoveSubtree` | backup_cleaner.py:142 | deleting a tree removes exactly the paths under it and keeps the kind of every other |
| `FileSystems.RemoveEntryValid` | backup_cleaner.py:126 | deleting one entry keeps every existing path listed exactly once |
| `FileSystems.RemoveSubtreeValid` | backup_cleaner.py:142 | deleting a tree keeps every existing path listed exactly once |
| `Planner.RightOnly` | backup_cleaner.py:43 | `right_only` holds exactly the backup names absent from the source listing |
| `Planner.CommonDirs` | backup_cleaner.py:68 | `common_dirs` holds exactly the names listed on both sides that are directories on both sides |
| `Planner.IndexOfFirst` | backup_cleaner.py:66 | `list.index` finds a name right after a prefix that does not contain it |
| `Planner.Compare` | backup_cleaner.py:38-96 | `compare()` fails on a missing or non-directory root and otherwise returns exactly the specified plan `PlanOf` |
| `Planner.ClassifyTopLevel` | backup_cleaner.py:43-66 | the in-place rewriting of `file_rm_list` and the appends to the directory lists give the top-level plan `TopPlan` |
| `Planner.ClassifyName` | backup_cleaner.py:51-66 | one pass either removes the name from the file list and appends its full path to one directory list, or overwrites the name in place with its full path |
| `Planner.FirstAfterDone` | backup_cleaner.py:63-66 | the name being classified does not occur among the already rewritten full paths, so `remove` and `index` hit its own entry |
| `Planner.WalkCommonDirs` | backup_cleaner.py:72-96 | the loop over `common_dirs` appends exactly `PlanCommon` to the three lists |
| `Planner.WalkCommonDir` | backup_cleaner.py:72-75 | a common directory adds nothing when its name holds the marker, and otherwise the decisions for every directory of its walk |
| `Planner.WalkVisits` | backup_cleaner.py:75-96 | the `os.walk` loop appends the decisions for every walked directory, in walk order |
| `Planner.DecideVisit` | backup_cleaner.py:76-96 | one walked directory gets the three-way decision on its mapped source path |
| `Planner.CollectStaleFiles` | backup_cleaner.py:80-84 | the inner loop appends `join(root, f)` for exactly the files whose mapped source file is not a file, in order |
| `Planner.TopPlanSources` | backup_cleaner.py:51-66 | every entry of the three top-level lists is `join(path_backup, f)` for a backup-only name `f` |
| `Planner.TopPlanClassifies` | backup_cleaner.py:49-66 | each backup-only name lands in the file list iff it is not a directory, in the directory list iff it is a directory with entries, and in the empty list iff it is a directory without |
| `Planner.TopPlanSourceKind` | backup_cleaner.py:53-66 | which top-level list a path sits in is decided by that path's own kind and emptiness |
| `Planner.VisitOneBranch` | backup_cleaner.py:79-96 | at most one branch fires for a walked directory, and the two directory branches add the directory itself |
| `Planner.SubdirsOnlyIgnored` | backup_cleaner.py:79-96 | a walked directory with subdirectories and no files is added to no list, whether or not its source directory exists |
| `Planner.EmptyAndStaleDirs` | backup_cleaner.py:89-95 | a walked directory without entries is queued as empty whatever the source holds; one with files and no mapped source directory is queued for recursive removal |
| `Planner.StaleFilesSources` | backup_cleaner.py:80-84 | a path is a stale file of a directory iff it is `join(root, f)` for a file `f` whose mapped source file is not a file |
| `Planner.StaleFileRule` | backup_cleaner.py:79-84 | a walked file is queued iff the mapped source directory is a directory and the mapped source file is not a file; none is queued from a directory whose source is missing |
| `Planner.StaleFilesNone` | backup_cleaner.py:80-84 | when every mapped source file exists as a file, nothing is queued |
| `Planner.VisitInside` | backup_cleaner.py:75-96 | whatever one walked directory queues lies under the walked top directory |
| `Planner.WalkFileNamesValid` | backup_cleaner.py:75 | every walked file name is a valid single name |
| `Planner.PlanVisitsSources` | backup_cleaner.py:75-96 | every path the walk queues comes from one walked directory's decision |
| `Planner.PlanVisitsCovers` | backup_cleaner.py:75-96 | every path a walked directory's decision queues is in the corresponding list of the walk's plan |
| `Planner.PlanCommonSources` | backup_cleaner.py:72-75 | every path queued by the walks lies under a common directory whose name does not hold the marker, so an excluded directory and its descendants contribute nothing |
| `Planner.PlanEntry` | backup_cleaner.py:43-96 | every queued path lies under a backup entry, and an entry also listed in the source was walked, so its name does not hold the marker |
| `Planner.InsideEntry` | backup_cleaner.py:51-74 | a path under such an entry lies strictly inside the backup root and under no excluded directory |
| `Planner.PlanConfined` | backup_cleaner.py:43-96 | every path of the plan lies strictly inside the backup root and under no common directory whose name holds the marker |
| `Planner.SameDriveOnlyEmpty` | backup_cleaner.py:76-95 | with equal drives the walks queue no stale file and no stale directory, only empty directories |
| `Planner.SameDriveVisits` | backup_cleaner.py:76-95 | the same for any sequence of listed directories |
| `Planner.SameDriveVisit` | backup_cleaner.py:76-95 | with equal drives one listed directory is its own source, so it has no stale file and is not a stale directory |
| `Planner.WalkReachesSubdir` | backup_cleaner.py:75 | the walk is never pruned: every subdirectory named in a visit's `dirs` is itself visited |
| `Planner.WalkEachHas` | backup_cleaner.py:75 | the walks of a directory's subdirectories visit each of them |
| `Planner.WalkEachReaches` | backup_cleaner.py:75 | the unpruned-walk property for the walks of a directory's subdirectories |
| `Planner.NestedStaleDirs` | backup_cleaner.py:93-95 | a stale directory and a stale subdirectory of it are both queued for recursive removal |
| `Executor.Disk.Remove` | backup_cleaner.py:126 | `os.remove` succeeds iff permitted and the path is an existing non-directory; on success exactly that entry is gone; on failure nothing changes |
| `Executor.Disk.RmTree` | backup_cleaner.py:142 | `shutil.rmtree` succeeds iff permitted and the path is an existing directory; on success the whole tree is gone; on failure nothing changes |
| `Executor.Disk.RmDir` | backup_cleaner.py:152 | `os.rmdir` succeeds iff permitted and the path is an existing directory without entries; on success exactly that entry is gone |
| `Executor.Attempt` | backup_cleaner.py:140-156 | one attempt with the loop's primitive, as `Succeeds` and `Apply` state |
| `Executor.RemoveFiles` | backup_cleaner.py:122-131 | the file loop as written, joining the backup root onto each entry and reporting the entry, leaves the filesystem and the report given by `RunFilePass` |
| `Executor.RemoveAll` | backup_cleaner.py:140-156 | the directory loop or the empty-directory loop leaves the filesystem and the report given by `RunPass` |
| `Executor.Removal` | backup_cleaner.py:112-156 | the three loops in order leave the filesystem and the two reports given by `ExecuteAsWritten`, with directory successes before empty-directory successes in `removed_dirs` |
| `Executor.PassShrinks` | backup_cleaner.py:122-156 | a loop never creates a path and never changes the kind of a surviving one |
| `Executor.PassReportsListed` | backup_cleaner.py:122-156 | a loop reports only listed paths, and no more of them than it attempted |
| `Executor.PassReportedGone` | backup_cleaner.py:122-156 | every path a loop reports removed is gone when the loop ends |
| `Executor.PassDeletesUnderReported` | backup_cleaner.py:122-156 | a deleted path lies under a reported path for `rmtree`, and is a reported path for `remove` and `rmdir` |
| `Executor.EntryPassExact` | backup_cleaner.py:122-156 | with `remove` and `rmdir`, the deleted paths are exactly the reported ones |
| `Executor.UnlinkIndependent` | backup_cleaner.py:122-131 | in a file list without repetitions, an entry is reported removed iff it is permitted and is an existing file at the start |
| `Executor.UnlinkFirstAttempt` | backup_cleaner.py:122-131 | in any file list, the first attempt on a path succeeds iff it is permitted and the path is an existing file at the start |
| `Executor.TreeRemovedBlocksInside` | backup_cleaner.py:140-146 | after a tree is removed nothing under it exists |
| `Executor.NestedTreeNotReported` | backup_cleaner.py:140-146 | a directory listed after an already removed directory containing it fails and is not reported |
| `Executor.RefusedIsSkipped` | backup_cleaner.py:125-130 | a refused attempt leaves the loop's result as if the entry were not listed: the failure is swallowed and the loop goes on |
| `Executor.ExecuteReportedGone` | backup_cleaner.py:112-156 | every path in `removed_files` or `removed_dirs` is gone at the end |
| `Executor.ExecuteReportsPlanned` | backup_cleaner.py:128-154 | `removed_files` is drawn from the file list, `removed_dirs` from the two directory lists |
| `Executor.ExecuteDeletesOnlyPlanned` | backup_cleaner.py:112-156 | nothing is deleted that does not lie under a path of the plan |
| `Executor.FilePassAgrees` | backup_cleaner.py:122-131 | when the join gives every entry back unchanged, the written file loop is the loop over the planned paths |
| `Executor.ExecuteAgrees` | backup_cleaner.py:112-156 | under the same condition the whole removal as written is `Execute` |
| `Executor.PlanFilesAbsolute` | backup_cleaner.py:123 | with an absolute backup root, the join gives back every entry of the planned file list, the top-level `join(path_backup, f)` entries and the walked `join(root, file)` entries alike |
| `Executor.AbsoluteRootAgrees` | backup_cleaner.py:112-156 | with an absolute backup root, the removal as written of the plan `compare()` builds is `Execute` |
| `Executor.RelativeRootDeletesWrongFile` | backup_cleaner.py:123 | with the relative backup root `b` holding the stale files `b/x` and `b/b/x`, the written loop deletes `b/b/x` for the entry `b/x`, reports `b/x` removed although it still exists, and fails on `b/b/x`; attempting the planned paths removes both |
| `Cleaner.BareLogNameNeverWritten` | backup_cleaner.py:162 | as written, a log file named without a directory part is never written |
| `Cleaner.LogGuardOnJoin` | backup_cleaner.py:162 | as written, a log file `d/n` is written exactly when `d` is an existing directory |
| `Cleaner.ShouldLogCorrected` | backup_cleaner.py:162 | the corrected guard writes such a log, and agrees with the written guard whenever the directory part is not empty |
| `Cleaner.LogLines` | backup_cleaner.py:164-176 | every reported path is a log line; nothing is written when nothing was removed; each non-empty report adds a header and a closing rule |
| `Cleaner.CleanBackup` | backup_cleaner.py:102-105 | a run fails on a missing or non-directory root, touches nothing when all three lists are empty, and otherwise performs exactly `ExecuteAsWritten` and logs when the written guard allows |
| `Cleaner.CleanConfined` | backup_cleaner.py:102-156 | with an absolute backup root, a run deletes only paths strictly inside the backup root, and nothing under a source-listed directory whose name holds the marker |
| `Cleaner.CleanReportsTruthfully` | backup_cleaner.py:112-156 | with an absolute backup root, every path a run reports removed is gone at the end and was planned |

## Left out

- Command line, console output and exit. `sys.argv`, the argument-count check, every `print` and `sys.exit` are not modelled. The roots, the drives, the log file name and the time stamp are parameters.
- Drive parsing. `os.path.splitdrive` is not modelled; the two drives are parameters. Paths use the single separator `/`. Windows back-slashes and case-insensitive names are not modelled.
- `os.path.join` on a first part that already ends in a separator is not modelled. Such a join adds no second separator. Roots are taken without a trailing separator.
- `Planner.RightOnly`, `Planner.CommonDirs`: `dircmp` sorts both listings, folds case, and drops its default ignore names (`RCS`, `CVS`, `tags`, `.git`, `.hg`, `.bzr`, `_darcs`, `__pycache__`). None of this is modelled: listings come in the filesystem's own order and no name is ignored. A name that cannot be examined on one side is treated as absent rather than as one of `dircmp`'s "funny" entries.
- Links and special files. Every path is a file or a directory. `os.walk` never meets a link.
- Unreadable directories. Every existing directory can be listed. A backup-only directory that `os.listdir` cannot read (line 55), or a root that `dircmp` cannot list (lines 38-41), raises in the program and ends the run before anything is deleted; the model has no such failure. `os.walk` skips a directory it cannot list; that is not modelled either.
- `Executor.Disk.RmTree`: a partial `shutil.rmtree` is not modelled. A failed `shutil.rmtree` changes nothing, whereas the real call may delete part of the tree before it fails.
- Failure causes. Why a deletion fails (permissions, locks, open handles) is not modelled; it is the oracle's boolean.
- The log file itself. Opening in append mode, and the clock, are not modelled. The model returns the lines that would be appended; each is written followed by a newline.
- The `diff_files` report, which is printed only.
- Changes made by others to either tree between planning and deletion. The model runs on one filesystem value.
- `Cleaner.CleanConfined`, `Cleaner.CleanReportsTruthfully`: proved for an absolute backup root only. With a relative root the file loop attempts other paths than the planned ones (see Findings), and both properties can fail.
- `Planner.NestedStaleDirs`: only that both directories are queued is proved. That the walk lists a directory before its subdirectories is not proved, so `Executor.NestedTreeNotReported` takes the order of the two entries as a hypothesis.

## Findings

| source | as written | input that shows it | evidently intended | confidence | as-written member | corrected member |
|---|---|---|---|---|---|---|
| backup_cleaner.py:123 | the file loop attempts `os.path.join(path_backup, file)`, but every entry of `file_rm_list` is already a full path under `path_backup` | backup root `b` given as a relative path, holding the stale files `b/x` and `b/b/x`: the loop deletes `b/b/x` for the entry `b/x`, reports `b/x` removed although it still exists, and fails on `b/b/x` | attempt the planned path itself, which the join yields only when the backup root is absolute (`Executor.AbsoluteRootAgrees`) | not executed; high | `Executor.RelativeRootDeletesWrongFile` | `Executor.ExecuteReportedGone` |
| backup_cleaner.py:162 | the log is written only when `os.path.isdir(os.path.dirname(log_file))` holds | `log_file = "log.txt"`: the directory part is `""`, which names no directory, so no log is ever written | write the log in the current directory when the name has no directory part | not executed; medium | `Cleaner.BareLogNameNeverWritten` | `Cleaner.ShouldLogCorrected` |
| backup_cleaner.py:76 | the source directory of a walked backup directory is found by replacing the backup drive with the source drive, which keeps the backup root's own directory part | the usage example's roots `C:/source_dir` and `D:/backup_dir`: `D:/backup_dir/d` maps to `C:/backup_dir/d`, outside the source root, so a walked directory with files is queued for `rmtree` unless `C:/backup_dir/d` happens to exist | replace the backup root prefix by the source root | not executed; medium | `Paths.DriveMappingLeavesSourceRoot` | `Paths.RebaseRoundTrip` |
