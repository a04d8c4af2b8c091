/** The filesystem the cleaner reads and prunes, as a value: every existing
    path with its kind, plus the order in which directory listings return
    entries. Listing (`os.listdir`), the kind tests (`os.path.isdir`,
    `os.path.isfile`), the top-down walk (`os.walk`) and the three deletions
    (`os.remove`, `shutil.rmtree`, `os.rmdir`) are defined over it. */
module FileSystems {
  import opened Paths

  datatype Kind = File | Dir

  datatype FileSystem = FileSystem(kinds: map<Path, Kind>, order: seq<Path>)

  /** Every existing path is listed once in `order`, and the empty string
      names nothing. */
  ghost predicate Valid(fs: FileSystem) {
    && Distinct(fs.order)
    && (forall p :: p in fs.kinds <==> p in fs.order)
    && [] !in fs.kinds
  }

  ghost predicate Distinct(ps: seq<Path>) {
    forall i, j :: 0 <= i < j < |ps| ==> ps[i] != ps[j]
  }

  predicate IsDir(fs: FileSystem, p: Path) {
    p in fs.kinds && fs.kinds[p] == Dir
  }

  predicate IsFile(fs: FileSystem, p: Path) {
    p in fs.kinds && fs.kinds[p] == File
  }

  /** `q` is an entry of the directory `top`. */
  predicate IsChild(q: Path, top: Path) {
    |q| > |top| + 1 && q[..|top| + 1] == top + [Sep] && Sep !in q[|top| + 1..]
  }

  /** The entries of `top`, in listing order. */
  function Listdir(fs: FileSystem, top: Path): seq<string> {
    ListIn(fs.order, top)
  }

  function ListIn(ps: seq<Path>, top: Path): seq<string> {
    if ps == [] then []
    else (if IsChild(ps[0], top) then [ps[0][|top| + 1..]] else []) + ListIn(ps[1..], top)
  }

  /** The entries of a listing that are directories. */
  function SubDirs(fs: FileSystem, top: Path, names: seq<string>): seq<string> {
    if names == [] then []
    else (if IsDir(fs, Join(top, names[0])) then [names[0]] else []) + SubDirs(fs, top, names[1..])
  }

  /** The entries of a listing that are not directories. */
  function FileNames(fs: FileSystem, top: Path, names: seq<string>): seq<string> {
    if names == [] then []
    else (if IsDir(fs, Join(top, names[0])) then [] else [names[0]]) + FileNames(fs, top, names[1..])
  }

  /** One triple `(root, dirs, files)` produced by `os.walk`. */
  datatype Visit = Visit(root: Path, dirs: seq<string>, files: seq<string>)

  /** The existing paths longer than `n`: shrinks as the walk descends. */
  function Longer(fs: FileSystem, n: nat): set<Path> {
    set q | q in fs.kinds && |q| > n
  }

  /** `os.walk(top)` top-down without following links: `top` first, then the
      walk of each subdirectory in listing order; nothing when `top` is not a
      directory. */
  function Walk(fs: FileSystem, top: Path): seq<Visit>
    decreases |Longer(fs, |top|)|, 1, 0
  {
    if !IsDir(fs, top) then []
    else
      var names := Listdir(fs, top);
      var dirs := SubDirs(fs, top, names);
      SubDirsDescend(fs, top, names);
      [Visit(top, dirs, FileNames(fs, top, names))] + WalkEach(fs, top, dirs)
  }

  function WalkEach(fs: FileSystem, top: Path, dirs: seq<string>): seq<Visit>
    requires forall d :: d in dirs ==> IsDir(fs, Join(top, d)) && |Join(top, d)| > |top|
    decreases |Longer(fs, |top|)|, 0, |dirs|
  {
    if dirs == [] then []
    else
      var child := Join(top, dirs[0]);
      assert dirs[0] in dirs;
      assert IsDir(fs, child);
      assert |child| > |top|;
      LongerShrinks(fs, |top|, child);
      Walk(fs, child) + WalkEach(fs, top, dirs[1..])
  }

  // ---------------------------------------------------------------------------
  // Deletions

  function DropPath(ps: seq<Path>, p: Path): (r: seq<Path>)
    ensures forall q :: q in r <==> q in ps && q != p
  {
    if ps == [] then [] else (if ps[0] == p then [] else [ps[0]]) + DropPath(ps[1..], p)
  }

  function DropUnder(ps: seq<Path>, p: Path): (r: seq<Path>)
    ensures forall q :: q in r <==> q in ps && !Under(q, p)
  {
    if ps == [] then [] else (if Under(ps[0], p) then [] else [ps[0]]) + DropUnder(ps[1..], p)
  }

  /** The filesystem after the single path `p` is deleted. */
  function RemoveEntry(fs: FileSystem, p: Path): (r: FileSystem)
    ensures r.kinds.Keys == fs.kinds.Keys - {p}
    ensures forall q :: q in r.kinds ==> r.kinds[q] == fs.kinds[q]
  {
    FileSystem(fs.kinds - {p}, DropPath(fs.order, p))
  }

  /** The filesystem after `p` and everything below it is deleted. */
  function RemoveSubtree(fs: FileSystem, p: Path): (r: FileSystem)
    ensures forall q :: q in r.kinds <==> q in fs.kinds && !Under(q, p)
    ensures forall q :: q in r.kinds ==> r.kinds[q] == fs.kinds[q]
  {
    FileSystem(map q | q in fs.kinds && !Under(q, p) :: fs.kinds[q], DropUnder(fs.order, p))
  }

  // ---------------------------------------------------------------------------
  // Lemmas

  /** Both deletions keep every existing path listed exactly once. */
  lemma RemoveEntryValid(fs: FileSystem, p: Path)
    requires Valid(fs)
    ensures Valid(RemoveEntry(fs, p))
  {
    DropPathDistinct(fs.order, p);
  }

  lemma RemoveSubtreeValid(fs: FileSystem, p: Path)
    requires Valid(fs)
    ensures Valid(RemoveSubtree(fs, p))
  {
    DropUnderDistinct(fs.order, p);
  }

  lemma {:induction false} DropPathDistinct(ps: seq<Path>, p: Path)
    requires Distinct(ps)
    ensures Distinct(DropPath(ps, p))
  {
    if ps != [] {
      DropPathDistinct(ps[1..], p);
      assert ps[0] !in ps[1..];
      DistinctCons(ps[0], DropPath(ps[1..], p));
    }
  }

  lemma {:induction false} DropUnderDistinct(ps: seq<Path>, p: Path)
    requires Distinct(ps)
    ensures Distinct(DropUnder(ps, p))
  {
    if ps != [] {
      DropUnderDistinct(ps[1..], p);
      assert ps[0] !in ps[1..];
      DistinctCons(ps[0], DropUnder(ps[1..], p));
    }
  }

  lemma DistinctCons(x: Path, t: seq<Path>)
    requires Distinct(t) && x !in t
    ensures Distinct([x] + t)
  {
    var s := [x] + t;
    forall i, j | 0 <= i < j < |s| ensures s[i] != s[j] {
      assert s[j] == t[j - 1];
      if i > 0 {
        assert s[i] == t[i - 1];
      }
    }
  }

  lemma LongerShrinks(fs: FileSystem, n: nat, child: Path)
    requires child in fs.kinds && |child| > n
    ensures |Longer(fs, |child|)| < |Longer(fs, n)|
  {
    var small, big := Longer(fs, |child|), Longer(fs, n);
    assert small <= big - {child};
    assert |small| <= |big - {child}| == |big| - 1 by {
      SubsetCard(small, big - {child});
    }
  }

  lemma SubsetCard<T>(a: set<T>, b: set<T>)
    requires a <= b
    ensures |a| <= |b|
  {
    assert b == a + (b - a);
  }

  /** A listing holds exactly the names `n` for which `top/n` exists. */
  lemma {:induction false} ListInIff(ps: seq<Path>, top: Path, n: string)
    ensures n in ListIn(ps, top) <==> ValidName(n) && top + [Sep] + n in ps
  {
    if ps != [] {
      ListInIff(ps[1..], top, n);
      var q := ps[0];
      if IsChild(q, top) {
        assert q == top + [Sep] + q[|top| + 1..];
      }
      if ValidName(n) && q == top + [Sep] + n {
        assert q[|top| + 1..] == n;
      }
    }
  }

  lemma ListdirIff(fs: FileSystem, top: Path, n: string)
    requires Valid(fs)
    ensures n in Listdir(fs, top) <==> ValidName(n) && Join(top, n) in fs.kinds
  {
    ListInIff(fs.order, top, n);
    if ValidName(n) {
      JoinName(top, n, n);
    }
  }

  /** Every subdirectory in a listing of `top` is a directory one level down. */
  lemma {:induction false} SubDirsDescend(fs: FileSystem, top: Path, names: seq<string>)
    requires names == Listdir(fs, top)
    ensures forall d :: d in SubDirs(fs, top, names) ==> IsDir(fs, Join(top, d)) && |Join(top, d)| > |top|
    ensures forall d :: d in SubDirs(fs, top, names) ==> ValidName(d)
  {
    forall d | d in SubDirs(fs, top, names)
      ensures IsDir(fs, Join(top, d)) && |Join(top, d)| > |top| && ValidName(d)
    {
      SubDirsIff(fs, top, names, d);
      ListInIff(fs.order, top, d);
      JoinName(top, d, d);
    }
  }

  lemma {:induction false} SubDirsIff(fs: FileSystem, top: Path, names: seq<string>, n: string)
    ensures n in SubDirs(fs, top, names) <==> n in names && IsDir(fs, Join(top, n))
    ensures n in FileNames(fs, top, names) <==> n in names && !IsDir(fs, Join(top, n))
  {
    if names != [] {
      SubDirsIff(fs, top, names[1..], n);
    }
  }

  /** Splitting a listing into directories and files loses nothing: it is
      empty exactly when both parts are. */
  lemma {:induction false} SplitEmpty(fs: FileSystem, top: Path, names: seq<string>)
    ensures names == [] <==> SubDirs(fs, top, names) == [] && FileNames(fs, top, names) == []
  {
    if names != [] {
      SplitEmpty(fs, top, names[1..]);
    }
  }

  /** What every triple of a walk says: its root is an existing directory
      inside `top`, and its two lists split that directory's listing. */
  lemma {:induction false} WalkVisit(fs: FileSystem, top: Path, v: Visit)
    requires v in Walk(fs, top)
    ensures IsDir(fs, v.root) && Under(v.root, top)
    ensures v.dirs == SubDirs(fs, v.root, Listdir(fs, v.root))
    ensures v.files == FileNames(fs, v.root, Listdir(fs, v.root))
    decreases |Longer(fs, |top|)|, 1, 0
  {
    var names := Listdir(fs, top);
    var dirs := SubDirs(fs, top, names);
    SubDirsDescend(fs, top, names);
    if v != Visit(top, dirs, FileNames(fs, top, names)) {
      WalkEachVisit(fs, top, dirs, v);
    }
  }

  lemma {:induction false} WalkEachVisit(fs: FileSystem, top: Path, dirs: seq<string>, v: Visit)
    requires forall d :: d in dirs ==> IsDir(fs, Join(top, d)) && |Join(top, d)| > |top|
    requires forall d :: d in dirs ==> ValidName(d)
    requires v in WalkEach(fs, top, dirs)
    ensures IsDir(fs, v.root) && Under(v.root, top) && v.root != top
    ensures v.dirs == SubDirs(fs, v.root, Listdir(fs, v.root))
    ensures v.files == FileNames(fs, v.root, Listdir(fs, v.root))
    decreases |Longer(fs, |top|)|, 0, |dirs|
  {
    var child := Join(top, dirs[0]);
    assert dirs[0] in dirs;
    LongerShrinks(fs, |top|, child);
    if v in Walk(fs, child) {
      WalkVisit(fs, child, v);
      JoinName(top, dirs[0], dirs[0]);
      UnderTrans(v.root, child, top);
    } else {
      WalkEachVisit(fs, top, dirs[1..], v);
    }
  }
}
