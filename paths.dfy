/** Path strings as the cleaner builds and rewrites them: joining a name onto a
    directory, the prefix relation "lies under", Python's substring test and
    `str.replace`, and `os.path.dirname`. One separator character is modelled. */
module Paths {

  type Path = string

  const Sep: char := '/'

  /** A name as it appears in a directory listing: non-empty, no separator. */
  predicate ValidName(n: string) {
    n != [] && Sep !in n
  }

  /** Rooted at the separator, or a drive letter followed by the separator. */
  predicate IsAbsolute(p: Path) {
    (|p| >= 1 && p[0] == Sep) || (|p| >= 3 && p[1] == ':' && p[2] == Sep)
  }

  /** `os.path.join(a, b)`: an absolute second part discards the first. */
  function Join(a: Path, b: Path): Path {
    if IsAbsolute(b) then b else a + [Sep] + b
  }

  predicate StartsWith(s: string, prefix: string) {
    |prefix| <= |s| && s[..|prefix|] == prefix
  }

  /** `p` is `q` itself or a path inside the directory `q`. */
  predicate Under(p: Path, q: Path) {
    p == q || StartsWith(p, q + [Sep])
  }

  /** Python's `sub in s`. */
  predicate Contains(s: string, sub: string)
    decreases |s|
  {
    StartsWith(s, sub) || (s != [] && Contains(s[1..], sub))
  }

  /** Python's `s.replace(from, to)`: every non-overlapping occurrence of
      `from`, scanning left to right, is replaced; an empty `from` inserts
      `to` before every character and at the end. */
  function Replace(s: string, from: string, to: string): string
    decreases |s|
  {
    if from == [] then InsertEverywhere(s, to)
    else if |s| < |from| then s
    else if s[..|from|] == from then to + Replace(s[|from|..], from, to)
    else [s[0]] + Replace(s[1..], from, to)
  }

  function InsertEverywhere(s: string, to: string): string {
    if s == [] then to else to + [s[0]] + InsertEverywhere(s[1..], to)
  }

  /** Index of the last separator of `p`, or -1 when there is none. */
  function LastSep(p: Path): (i: int)
    ensures -1 <= i < |p|
    ensures i >= 0 ==> p[i] == Sep
    ensures forall j :: i < j < |p| ==> p[j] != Sep
  {
    if p == [] then -1
    else if p[|p| - 1] == Sep then |p| - 1
    else LastSep(p[..|p| - 1])
  }

  function StripTrailingSep(p: Path): Path {
    if p != [] && p[|p| - 1] == Sep then StripTrailingSep(p[..|p| - 1]) else p
  }

  /** `os.path.dirname(p)`: everything up to the last separator, with trailing
      separators removed unless the head consists of separators only. */
  function Dirname(p: Path): Path {
    var head := p[..LastSep(p) + 1];
    if head != [] && !AllSep(head) then StripTrailingSep(head) else head
  }

  predicate AllSep(s: string) {
    forall j :: 0 <= j < |s| ==> s[j] == Sep
  }

  predicate OccursAt(s: string, sub: string, i: int) {
    0 <= i <= |s| - |sub| && s[i..i + |sub|] == sub
  }

  // ---------------------------------------------------------------------------
  // Lemmas

  /** `Contains` agrees with the positional definition of a substring. */
  lemma {:induction false} ContainsIff(s: string, sub: string)
    ensures Contains(s, sub) <==> exists i :: OccursAt(s, sub, i)
  {
    if StartsWith(s, sub) {
      assert OccursAt(s, sub, 0);
    } else if s == [] {
    } else {
      ContainsIff(s[1..], sub);
      if Contains(s[1..], sub) {
        var i :| OccursAt(s[1..], sub, i);
        assert OccursAt(s, sub, i + 1);
      } else {
        forall i | OccursAt(s, sub, i) ensures false {
          assert i != 0;
          assert OccursAt(s[1..], sub, i - 1);
        }
      }
    }
  }

  /** Replacing a string by itself changes nothing, also for the empty string:
      with equal drives the mapped source path is the backup path itself. */
  lemma {:induction false} ReplaceSame(s: string, x: string)
    ensures Replace(s, x, x) == s
    decreases |s|
  {
    if x == [] {
      InsertNothing(s);
    } else if |s| < |x| {
    } else if s[..|x|] == x {
      ReplaceSame(s[|x|..], x);
      assert s == s[..|x|] + s[|x|..];
    } else {
      ReplaceSame(s[1..], x);
      assert s == [s[0]] + s[1..];
    }
  }

  lemma {:induction false} InsertNothing(s: string)
    ensures InsertEverywhere(s, []) == s
  {
    if s != [] {
      InsertNothing(s[1..]);
      assert s == [s[0]] + s[1..];
    }
  }

  /** A string with no occurrence of a non-empty `from` is left unchanged. */
  lemma {:induction false} ReplaceAbsent(s: string, from: string, to: string)
    requires from != [] && !Contains(s, from)
    ensures Replace(s, from, to) == s
    decreases |s|
  {
    if |s| >= |from| {
      ReplaceAbsent(s[1..], from, to);
      assert s == [s[0]] + s[1..];
    }
  }

  /** Path mapping: a path that starts with the backup drive, and has no other
      occurrence of it, maps to the source drive followed by the same
      relative part. */
  lemma ReplaceDrive(rest: string, from: string, to: string)
    requires from != [] && !Contains(rest, from)
    ensures Replace(from + rest, from, to) == to + rest
  {
    var s := from + rest;
    assert s[..|from|] == from;
    assert s[|from|..] == rest;
    ReplaceAbsent(rest, from, to);
  }

  /** Joining a listed name puts exactly one separator between the parts, and
      distinct names give distinct paths. */
  lemma JoinName(a: Path, n: string, m: string)
    requires ValidName(n) && ValidName(m)
    ensures Join(a, n) == a + [Sep] + n
    ensures Join(a, n) == Join(a, m) <==> n == m
  {
    assert n[0] in n;
    assert |n| >= 3 ==> n[2] in n;
    assert m[0] in m;
    assert |m| >= 3 ==> m[2] in m;
    if Join(a, n) == Join(a, m) {
      assert n == Join(a, n)[|a| + 1..];
    }
  }

  lemma UnderTrans(p: Path, q: Path, r: Path)
    requires Under(p, q) && Under(q, r)
    ensures Under(p, r)
  {
    if p != q && q != r {
      assert p[..|r| + 1] == q[..|r| + 1];
    }
  }

  lemma UnderPrefix(p: Path, q: Path)
    requires Under(p, q)
    ensures |q| <= |p| && p[..|q|] == q
    ensures |q| < |p| ==> p[|q|] == Sep
  {
    if p != q {
      assert p[..|q|] == (q + [Sep])[..|q|];
    }
  }

  /** A path can lie under two entries of one directory only when they are
      the same entry. */
  lemma SameSibling(p: Path, a: Path, n: string, m: string)
    requires ValidName(n) && ValidName(m)
    requires Under(p, Join(a, n)) && Under(p, Join(a, m))
    ensures n == m
  {
    JoinName(a, n, m);
    JoinName(a, m, n);
    var k := |a| + 1;
    UnderPrefix(p, Join(a, n));
    UnderPrefix(p, Join(a, m));
    assert n == p[..k + |n|][k..];
    assert m == p[..k + |m|][k..];
  }

  /** A file name without a separator has an empty directory part, so
      `os.path.isdir` on it is false and no log is written for it. */
  lemma BareNameHasNoDirname(p: Path)
    requires Sep !in p
    ensures Dirname(p) == []
  {
    assert forall j :: 0 <= j < |p| ==> p[j] != Sep;
  }

  /** `os.path.dirname` undoes a join: the directory part of `p/n` is `p`
      when `n` is a single name and `p` does not end in a separator. */
  lemma DirnameOfJoin(p: Path, n: string)
    requires ValidName(n) && p != [] && p[|p| - 1] != Sep
    ensures Dirname(p + [Sep] + n) == p
  {
    var s := p + [Sep] + n;
    LastSepAfter(p, n);
    var head := s[..LastSep(s) + 1];
    assert head == p + [Sep];
    assert !AllSep(head) by {
      assert head[|p| - 1] != Sep;
    }
    assert (p + [Sep])[..|p|] == p;
    assert StripTrailingSep(p + [Sep]) == StripTrailingSep(p) == p;
  }

  lemma {:induction false} LastSepAfter(p: Path, n: string)
    requires Sep !in n
    ensures LastSep(p + [Sep] + n) == |p|
    decreases |n|
  {
    var s := p + [Sep] + n;
    if n != [] {
      assert s[|s| - 1] == n[|n| - 1];
      assert s[..|s| - 1] == p + [Sep] + n[..|n| - 1];
      LastSepAfter(p, n[..|n| - 1]);
    } else {
      assert s[|s| - 1] == Sep;
    }
  }

  // ---------------------------------------------------------------------------
  // Mapping a backup path to its source path

  /** The mapping the walk needs: the backup root prefix of `p` replaced by
      the source root, the relative part kept. */
  function Rebase(p: Path, fromRoot: Path, toRoot: Path): (r: Path)
    requires StartsWith(p, fromRoot)
    ensures StartsWith(r, toRoot) && |r| - |toRoot| == |p| - |fromRoot|
  {
    toRoot + p[|fromRoot|..]
  }

  /** Rebasing keeps the relative part, and rebasing back gives the path
      again. */
  lemma RebaseRoundTrip(fromRoot: Path, toRoot: Path, rel: string)
    ensures Rebase(fromRoot + rel, fromRoot, toRoot) == toRoot + rel
    ensures Rebase(Rebase(fromRoot + rel, fromRoot, toRoot), toRoot, fromRoot) == fromRoot + rel
  {
    assert (fromRoot + rel)[..|fromRoot|] == fromRoot;
    assert (fromRoot + rel)[|fromRoot|..] == rel;
    assert (toRoot + rel)[..|toRoot|] == toRoot;
    assert (toRoot + rel)[|toRoot|..] == rel;
  }

  /** When the two roots differ only in their drive, and the drive occurs
      nowhere else, replacing the drive is the same as rebasing. */
  lemma ReplaceIsRebase(srcDrive: string, backupDrive: string, rootRest: string, rel: string)
    requires backupDrive != [] && !Contains(rootRest + rel, backupDrive)
    ensures Replace(backupDrive + rootRest + rel, backupDrive, srcDrive)
         == Rebase(backupDrive + rootRest + rel, backupDrive + rootRest, srcDrive + rootRest)
  {
    assert backupDrive + rootRest + rel == backupDrive + (rootRest + rel);
    ReplaceDrive(rootRest + rel, backupDrive, srcDrive);
    RebaseRoundTrip(backupDrive + rootRest, srcDrive + rootRest, rel);
  }

  /** With the roots of the usage example, `C:/source_dir` and
      `D:/backup_dir`, replacing the drive maps a backup directory
      `D:/backup_dir/d` to `C:/backup_dir/d`, outside the source root, while
      rebasing maps it to `C:/source_dir/d`. */
  lemma DriveMappingLeavesSourceRoot(d: string)
    requires ValidName(d) && 'D' !in d
    ensures Replace("D:/backup_dir/" + d, "D:", "C:") == "C:/backup_dir/" + d
    ensures !Under("C:/backup_dir/" + d, "C:/source_dir")
    ensures Rebase("D:/backup_dir/" + d, "D:/backup_dir", "C:/source_dir") == "C:/source_dir/" + d
  {
    ExampleReplaced(d);
    NotUnder("C:/backup_dir/" + d, "C:/source_dir", 3);
    ExampleRebased(d);
  }

  lemma ExampleReplaced(d: string)
    requires 'D' !in d
    ensures Replace("D:/backup_dir/" + d, "D:", "C:") == "C:/backup_dir/" + d
  {
    var rest := "/backup_dir/" + d;
    ExampleSplit(d);
    DriveReplaced(rest);
  }

  lemma ExampleSplit(d: string)
    requires 'D' !in d
    ensures 'D' !in "/backup_dir/" + d
    ensures "D:" + ("/backup_dir/" + d) == "D:/backup_dir/" + d
    ensures "C:" + ("/backup_dir/" + d) == "C:/backup_dir/" + d
  {
  }

  lemma ExampleRebased(d: string)
    ensures Rebase("D:/backup_dir/" + d, "D:/backup_dir", "C:/source_dir") == "C:/source_dir/" + d
  {
    RebaseRoundTrip("D:/backup_dir", "C:/source_dir", "/" + d);
    assert "D:/backup_dir" + ("/" + d) == "D:/backup_dir/" + d;
    assert "C:/source_dir" + ("/" + d) == "C:/source_dir/" + d;
  }

  lemma DriveReplaced(rest: string)
    requires 'D' !in rest
    ensures Replace("D:" + rest, "D:", "C:") == "C:" + rest
  {
    NoDriveLetter(rest);
    ReplaceDrive(rest, "D:", "C:");
  }

  /** Two paths that differ at a position within the shorter one: neither
      lies under the other. */
  lemma NotUnder(p: Path, q: Path, i: nat)
    requires i < |p| && i < |q| && p[i] != q[i]
    ensures !Under(p, q)
  {
    if |q| + 1 <= |p| {
      assert p[..|q| + 1][i] == p[i];
      assert (q + [Sep])[i] == q[i];
    }
  }

  lemma NoDriveLetter(s: string)
    requires 'D' !in s
    ensures !Contains(s, "D:")
  {
    ContainsIff(s, "D:");
    forall i | 0 <= i <= |s| - 2 ensures !OccursAt(s, "D:", i) {
      assert s[i] in s;
      assert s[i..i + 2][0] == s[i];
    }
  }
}
