/**
 * The os.path operations the pipeline uses, on POSIX-style text paths with
 * '/' as separator. A normalised absolute path is a mount ("drive") and a
 * sequence of components; relpath strips the common prefix of two such paths
 * and climbs out of the rest of the start with ".." components. Python
 * raises ValueError when the two paths lie on different mounts, which is the
 * case the report's fallback exists for.
 */
module Paths {
  import opened Wrappers
  import opened Text

  /** An absolute path after os.path.abspath: its mount and its components. */
  datatype AbsPath = AbsPath(drive: string, parts: seq<string>)

  /** No component is empty, "." or "..", and none holds the separator. */
  predicate Canonical(parts: seq<string>) {
    forall i :: 0 <= i < |parts| ==> parts[i] != "" && parts[i] != "." && parts[i] != ".." && '/' !in parts[i]
  }

  predicate SeparatorFree(comps: seq<string>) {
    forall i :: 0 <= i < |comps| ==> '/' !in comps[i]
  }

  /** One component of normpath: "" and "." vanish, ".." removes the last component (none above the root). */
  function Step(acc: seq<string>, c: string): seq<string> {
    if c == "" || c == "." then acc
    else if c == ".." then (if acc == [] then [] else acc[..|acc| - 1])
    else acc + [c]
  }

  /** The components comps applied in turn to the normalised absolute directory acc. */
  function Normalize(acc: seq<string>, comps: seq<string>): (r: seq<string>)
    requires Canonical(acc) && SeparatorFree(comps)
    ensures Canonical(r)
    decreases |comps|
  {
    if comps == [] then acc else Normalize(Step(acc, comps[0]), comps[1..])
  }

  /** os.path.abspath(p) when the working directory is cwd (os.path.join(cwd, p), then normalised). */
  function Absolute(cwd: AbsPath, p: string): (r: AbsPath)
    requires Canonical(cwd.parts)
    ensures Canonical(r.parts) && r.drive == cwd.drive
  {
    var comps := Split(p, '/');
    if |p| > 0 && p[0] == '/' then AbsPath(cwd.drive, Normalize([], comps))
    else AbsPath(cwd.drive, Normalize(cwd.parts, comps))
  }

  /** Length of the longest common prefix of a and b. */
  function CommonPrefix(a: seq<string>, b: seq<string>): (n: nat)
    ensures n <= |a| && n <= |b| && a[..n] == b[..n]
    ensures n < |a| && n < |b| ==> a[n] != b[n]
  {
    if a == [] || b == [] || a[0] != b[0] then 0
    else
      var n := 1 + CommonPrefix(a[1..], b[1..]);
      assert a[..n] == [a[0]] + a[1..][..n - 1];
      assert b[..n] == [b[0]] + b[1..][..n - 1];
      n
  }

  function Ups(k: nat): (r: seq<string>)
    ensures |r| == k && forall i :: 0 <= i < k ==> r[i] == ".."
  {
    seq(k, _ => "..")
  }

  /** The components of relpath: leave what start has beyond the common prefix, then descend into target. */
  function RelParts(target: seq<string>, start: seq<string>): seq<string> {
    var n := CommonPrefix(start, target);
    Ups(|start| - n) + target[n..]
  }

  /** Python's os.path.relpath(target, start) for absolute paths; None where Python raises ValueError. */
  function RelPath(target: AbsPath, start: AbsPath): (r: Option<string>)
    ensures r.None? <==> target.drive != start.drive
  {
    if target.drive != start.drive then None
    else
      var rel := RelParts(target.parts, start.parts);
      Some(if rel == [] then "." else Join(rel, '/'))
  }

  lemma {:induction false} NormalizeAppend(acc: seq<string>, a: seq<string>, b: seq<string>)
    requires Canonical(acc) && SeparatorFree(a) && SeparatorFree(b)
    ensures SeparatorFree(a + b)
    ensures Normalize(acc, a + b) == Normalize(Normalize(acc, a), b)
    decreases |a|
  {
    assert SeparatorFree(a + b) by {
      forall i | 0 <= i < |a + b| ensures '/' !in (a + b)[i] {
        if i < |a| { assert (a + b)[i] == a[i]; } else { assert (a + b)[i] == b[i - |a|]; }
      }
    }
    if a == [] {
      assert a + b == b;
    } else {
      assert (a + b)[1..] == a[1..] + b;
      NormalizeAppend(Step(acc, a[0]), a[1..], b);
    }
  }

  lemma {:induction false} NormalizeUps(acc: seq<string>, k: nat)
    requires Canonical(acc) && k <= |acc|
    ensures SeparatorFree(Ups(k))
    ensures Normalize(acc, Ups(k)) == acc[..|acc| - k]
    decreases k
  {
    if k > 0 {
      assert Ups(k)[1..] == Ups(k - 1);
      NormalizeUps(acc[..|acc| - 1], k - 1);
      assert acc[..|acc| - 1][..|acc| - 1 - (k - 1)] == acc[..|acc| - k];
    }
  }

  lemma {:induction false} NormalizeCanonical(acc: seq<string>, b: seq<string>)
    requires Canonical(acc) && Canonical(b)
    ensures SeparatorFree(b)
    ensures Normalize(acc, b) == acc + b
    decreases |b|
  {
    if b == [] {
      assert acc + b == acc;
    } else {
      NormalizeCanonical(acc + [b[0]], b[1..]);
      assert acc + [b[0]] + b[1..] == acc + b;
    }
  }

  /**
   * relpath and path joining are inverse: resolving the relative path from
   * the start directory leads back to the target.
   */
  lemma RelPathResolves(target: AbsPath, start: AbsPath)
    requires Canonical(target.parts) && Canonical(start.parts)
    requires target.drive == start.drive
    ensures RelPath(target, start).Some?
    ensures Absolute(start, RelPath(target, start).value) == target
  {
    var rel := RelParts(target.parts, start.parts);
    var text := RelPath(target, start).value;
    RelPartsResolve(target.parts, start.parts);
    RelPartsShape(target.parts, start.parts);
    if rel == [] {
      RelPartsEmpty(target.parts, start.parts);
      assert text == ".";
      DotSplit();
      assert Absolute(start, text).parts == Normalize(start.parts, ["."]);
    } else {
      assert text == Join(rel, '/');
      SplitJoin(rel, '/');
      JoinHead(rel, '/');
    }
  }

  /** A relative path that exists is never empty: "." names the start itself. */
  lemma RelPathNonEmpty(target: AbsPath, start: AbsPath)
    requires Canonical(target.parts) && target.drive == start.drive
    ensures RelPath(target, start).Some? && RelPath(target, start).value != ""
  {
    var rel := RelParts(target.parts, start.parts);
    RelPartsShape(target.parts, start.parts);
    if rel != [] {
      JoinHead(rel, '/');
    }
  }

  lemma DotSplit()
    ensures Split(".", '/') == ["."]
  {
    SplitOfFree(".", '/');
  }

  lemma RelPartsEmpty(target: seq<string>, start: seq<string>)
    requires RelParts(target, start) == []
    ensures start == target
  {
    var n := CommonPrefix(start, target);
    assert |Ups(|start| - n) + target[n..]| == 0;
    assert start == start[..n] && target == target[..n];
  }

  lemma RelPartsShape(target: seq<string>, start: seq<string>)
    requires Canonical(target)
    ensures forall i :: 0 <= i < |RelParts(target, start)| ==> RelParts(target, start)[i] != "" && '/' !in RelParts(target, start)[i]
    ensures SeparatorFree(RelParts(target, start))
  {
    var n := CommonPrefix(start, target);
    var ups, down := Ups(|start| - n), target[n..];
    var rel := ups + down;
    forall i | 0 <= i < |rel| ensures rel[i] != "" && '/' !in rel[i] {
      if i < |ups| { assert rel[i] == ".."; } else { assert rel[i] == target[n + i - |ups|]; }
    }
  }

  lemma RelPartsResolve(target: seq<string>, start: seq<string>)
    requires Canonical(target) && Canonical(start)
    ensures SeparatorFree(RelParts(target, start))
    ensures Normalize(start, RelParts(target, start)) == target
  {
    RelPartsShape(target, start);
    ClimbThenDescend(start, target, CommonPrefix(start, target));
  }

  /** From start, climbing to the depth-n prefix it shares with target and descending the rest of target reaches target. */
  lemma ClimbThenDescend(start: seq<string>, target: seq<string>, n: nat)
    requires Canonical(target) && Canonical(start)
    requires n <= |start| && n <= |target| && start[..n] == target[..n]
    ensures SeparatorFree(Ups(|start| - n) + target[n..])
    ensures Normalize(start, Ups(|start| - n) + target[n..]) == target
  {
    var ups, down := Ups(|start| - n), target[n..];
    CanonicalSlices(target, n);
    CanonicalSlices(start, n);
    NormalizeUps(start, |start| - n);
    NormalizeCanonical(start[..n], down);
    NormalizeAppend(start, ups, down);
    SharedPrefix(start, target, n);
  }

  lemma SharedPrefix(start: seq<string>, target: seq<string>, n: nat)
    requires n <= |start| && n <= |target| && start[..n] == target[..n]
    ensures start[..n] + target[n..] == target
  {
    assert target[..n] + target[n..] == target;
  }

  lemma CanonicalSlices(s: seq<string>, n: nat)
    requires Canonical(s) && n <= |s|
    ensures Canonical(s[..n]) && Canonical(s[n..])
  {
    forall i | 0 <= i < n ensures s[..n][i] == s[i] { }
    forall i | 0 <= i < |s| - n ensures s[n..][i] == s[n + i] { }
  }

  lemma {:induction false} JoinHead(parts: seq<string>, sep: char)
    requires |parts| >= 1 && parts[0] != []
    ensures Join(parts, sep) != [] && Join(parts, sep)[0] == parts[0][0]
  {
  }

  /** Python's posixpath.join(a, b). */
  function JoinPath(a: string, b: string): string {
    if |b| > 0 && b[0] == '/' then b
    else if a == [] || a[|a| - 1] == '/' then a + b
    else a + "/" + b
  }

  /** Python's os.path.basename(p): what follows the last separator. */
  function Basename(p: string): (r: string)
    ensures '/' !in r
    ensures |r| <= |p| && p[|p| - |r|..] == r
  {
    var fields := Split(p, '/');
    JoinLast(fields, '/');
    fields[|fields| - 1]
  }

  lemma {:induction false} JoinLast(parts: seq<string>, sep: char)
    requires |parts| >= 1
    ensures |parts[|parts| - 1]| <= |Join(parts, sep)|
    ensures Join(parts, sep)[|Join(parts, sep)| - |parts[|parts| - 1]|..] == parts[|parts| - 1]
  {
    if |parts| > 1 {
      JoinLast(parts[1..], sep);
    }
  }

  /** The base name of a path joined from a directory and a plain file name is that file name. */
  lemma {:induction false} BasenameOfJoin(dir: string, name: string)
    requires '/' !in name
    ensures Basename(JoinPath(dir, name)) == name
  {
    if dir == [] {
      assert JoinPath(dir, name) == name;
      SplitOfFree(name, '/');
    } else {
      JoinPathShape(dir, name);
      SplitAppendLast(DirPart(dir), name);
    }
  }

  /** A non-empty directory without its trailing separator, if any. */
  function DirPart(dir: string): string
    requires dir != []
  {
    if dir[|dir| - 1] == '/' then dir[..|dir| - 1] else dir
  }

  lemma JoinPathShape(dir: string, name: string)
    requires dir != [] && '/' !in name
    ensures JoinPath(dir, name) == DirPart(dir) + ['/'] + name
  {
    if dir[|dir| - 1] == '/' {
      assert dir == DirPart(dir) + ['/'];
    }
  }

  lemma SplitAppendLast(d: string, name: string)
    requires '/' !in name
    ensures var f := Split(d + ['/'] + name, '/'); f[|f| - 1] == name
  {
    var f := Split(d, '/');
    JoinSnoc(f, name, '/');
    assert forall i :: 0 <= i < |f + [name]| ==> '/' !in (f + [name])[i];
    SplitJoin(f + [name], '/');
  }

  function HeadLength(p: string): (n: nat)
    ensures n <= |p| && '/' !in p[n..]
    ensures n > 0 ==> p[n - 1] == '/'
  {
    if p == [] then 0
    else if p[|p| - 1] == '/' then |p|
    else
      var n := HeadLength(p[..|p| - 1]);
      assert p[n..] == p[..|p| - 1][n..] + [p[|p| - 1]];
      n
  }

  function StripTrailingSeparators(s: string): string {
    if |s| > 0 && s[|s| - 1] == '/' then StripTrailingSeparators(s[..|s| - 1]) else s
  }

  /** Python's os.path.dirname(p): the part up to the last separator, without trailing separators unless it is all separators. */
  function Dirname(p: string): (r: string)
    ensures r <= p
  {
    var head := p[..HeadLength(p)];
    if exists i :: 0 <= i < |head| && head[i] != '/' then StripPrefixOf(head) else head
  }

  function StripPrefixOf(head: string): (r: string)
    ensures r <= head
  {
    if |head| > 0 && head[|head| - 1] == '/' then StripPrefixOf(head[..|head| - 1]) else head
  }

  /** Python's os.path.splitext(name)[0] for a name without separators: the name without its last extension. */
  function StemOf(name: string): (r: string)
    requires '/' !in name
    ensures r <= name
    ensures r == name || (name[|r|] == '.' && '.' !in name[|r| + 1..] && exists i :: 0 <= i < |r| && r[i] != '.')
    ensures r == name ==> '.' !in name || forall i :: 0 <= i < LastDot(name) ==> name[i] == '.'
  {
    if '.' !in name then name
    else
      var d := LastDot(name);
      if exists i :: 0 <= i < d && name[i] != '.' then name[..d] else name
  }

  /** Index of the last '.' in s. */
  function LastDot(s: string): (d: nat)
    requires '.' in s
    ensures d < |s| && s[d] == '.' && '.' !in s[d + 1..]
  {
    if s[|s| - 1] == '.' then |s| - 1
    else
      assert '.' in s[..|s| - 1] by {
        var k :| 0 <= k < |s| && s[k] == '.';
        assert s[..|s| - 1][k] == '.';
      }
      var d := LastDot(s[..|s| - 1]);
      assert s[d + 1..] == s[..|s| - 1][d + 1..] + [s[|s| - 1]];
      d
  }
}
