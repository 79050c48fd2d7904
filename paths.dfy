/** POSIX path handling as Python's `posixpath` does it: `isabs`, `join`,
    `basename`, `dirname`, `splitext`, `normpath` and `relpath`. Paths are
    plain strings; the lemmas speak about absolute paths built from clean
    components, which is the shape every library path has. */
module Paths {
  import opened Wrappers
  import opened Strings

  type Path = string

  predicate IsAbs(p: Path) {
    |p| > 0 && p[0] == '/'
  }

  /** `os.path.join(a, b)`: an absolute `b` replaces `a`; otherwise one `/` separates them. */
  function Join(a: Path, b: Path): Path {
    if IsAbs(b) then b
    else if |a| == 0 || a[|a| - 1] == '/' then a + b
    else a + "/" + b
  }

  /** Joining a non-empty path gives a non-empty path, absolute when the first is. */
  lemma JoinShape(a: Path, b: Path)
    requires b != ""
    ensures Join(a, b) != ""
    ensures IsAbs(a) ==> IsAbs(Join(a, b))
  {
    if !IsAbs(b) && a != "" {
      assert Join(a, b)[0] == a[0];
    }
  }

  /** Joining introduces no character other than `/`. */
  lemma JoinNoChar(a: Path, b: Path, c: char)
    requires c != '/' && c !in a && c !in b
    ensures c !in Join(a, b)
  {
  }

  /** `os.path.basename(p)`: what follows the last `/`. */
  function Basename(p: Path): Path {
    p[RFind(p, '/') + 1..]
  }

  predicate AllSlashes(s: string) {
    forall i :: 0 <= i < |s| ==> s[i] == '/'
  }

  /** `os.path.dirname(p)`: everything up to the last `/`, with trailing
      slashes removed unless it consists of slashes only. */
  function Dirname(p: Path): Path {
    var head := p[..RFind(p, '/') + 1];
    if head != "" && !AllSlashes(head) then RStrip(head, {'/'}) else head
  }

  /** `os.path.splitext(p)`: the extension starts at the last `.` of the last
      component, provided some character other than `.` precedes it there. */
  function SplitExt(p: Path): (r: (Path, string))
    ensures r.0 + r.1 == p
    ensures r.1 == "" || (r.1[0] == '.' && '/' !in r.1)
  {
    var sepIndex := RFind(p, '/');
    var dotIndex := RFind(p, '.');
    if dotIndex > sepIndex && exists k :: sepIndex + 1 <= k < dotIndex && p[k] != '.' then
      assert p[..dotIndex] + p[dotIndex..] == p;
      assert forall j :: 0 <= j < |p| - dotIndex ==> p[dotIndex..][j] == p[dotIndex + j];
      (p[..dotIndex], p[dotIndex..])
    else
      assert p + "" == p;
      (p, "")
  }

  function Repeat<T>(x: T, n: nat): (r: seq<T>)
    ensures |r| == n && forall i :: 0 <= i < n ==> r[i] == x
  {
    if n == 0 then [] else [x] + Repeat(x, n - 1)
  }

  /** The component loop of `normpath`: drop empty and `.` components and let
      `..` cancel the previous component (kept when nothing can be cancelled
      in a relative path, dropped at the root of an absolute one). */
  function NormComps(comps: seq<string>, acc: seq<string>, absolute: bool): seq<string>
  {
    if comps == [] then acc
    else
      var c := comps[0];
      var acc' :=
        if c == "" || c == "." then acc
        else if c != ".." || (!absolute && acc == []) || (acc != [] && acc[|acc| - 1] == "..") then acc + [c]
        else if acc != [] then acc[..|acc| - 1]
        else acc;
      NormComps(comps[1..], acc', absolute)
  }

  /** `os.path.normpath(p)`. */
  function Normpath(p: Path): (r: Path)
    ensures r != ""
  {
    if |p| == 0 then "."
    else
      var slashes := if |p| >= 2 && p[0] == '/' && p[1] == '/' && !(|p| >= 3 && p[2] == '/') then 2
                     else if p[0] == '/' then 1 else 0;
      var body := JoinWith(NormComps(Split(p, '/'), [], slashes > 0), '/');
      var r := Repeat('/', slashes) + body;
      if |r| == 0 then "." else r
  }

  /** The non-empty components of a path. */
  function Components(p: Path): seq<string> {
    NonEmpty(Split(p, '/'))
  }

  /** Length of the longest common prefix of two component lists (`commonprefix`). */
  function CommonPrefixLen(a: seq<string>, b: seq<string>): (n: nat)
    ensures n <= |a| && n <= |b|
    ensures a[..n] == b[..n]
    ensures n < |a| && n < |b| ==> a[n] != b[n]
  {
    if |a| == 0 || |b| == 0 || a[0] != b[0] then 0
    else
      var n := CommonPrefixLen(a[1..], b[1..]);
      assert a[..n + 1] == [a[0]] + a[1..][..n];
      assert b[..n + 1] == [b[0]] + b[1..][..n];
      n + 1
  }

  /** `os.path.relpath(path, start)`: climb out of `start` with `..` as far as
      the two disagree, then descend along `path`. Both arguments are taken
      through `normpath` (Python's `abspath`; the working directory that
      `abspath` prepends to a relative argument is not modelled). The
      components are non-empty and slash-free, so `os.path.join(*rel)` is
      `'/'.join(rel)`. */
  function RelPath(path: Path, start: Path): Path {
    RelOf(Components(Normpath(path)), Components(Normpath(start)))
  }

  /** The relative path from the components `s` to the components `t`. */
  function RelOf(t: seq<string>, s: seq<string>): Path {
    var i := CommonPrefixLen(s, t);
    var rel := Repeat("..", |s| - i) + t[i..];
    if rel == [] then "." else JoinWith(rel, '/')
  }

  // ----- absolute paths made of clean components -----

  /** A component that `normpath` keeps as it is. */
  predicate CleanComponent(c: string) {
    c != "" && c != "." && c != ".." && '/' !in c
  }

  predicate Clean(cs: seq<string>) {
    forall i :: 0 <= i < |cs| ==> CleanComponent(cs[i])
  }

  /** The absolute path `/c1/c2/.../cn` (just `/` for no components). */
  function AbsPathOf(cs: seq<string>): Path {
    "/" + JoinWith(cs, '/')
  }

  lemma {:induction false} JoinWithConcat(a: seq<string>, b: seq<string>, sep: char)
    requires |a| > 0 && |b| > 0
    ensures JoinWith(a + b, sep) == JoinWith(a, sep) + [sep] + JoinWith(b, sep)
  {
    if |a| == 1 {
      assert (a + b)[1..] == b;
    } else {
      assert (a + b)[1..] == a[1..] + b;
      JoinWithConcat(a[1..], b, sep);
    }
  }

  lemma {:induction false} JoinWithLastChar(cs: seq<string>)
    requires |cs| > 0 && Clean(cs)
    ensures var j := JoinWith(cs, '/'); |j| > 0 && j[|j| - 1] != '/' && j[0] != '/'
  {
    if |cs| > 1 {
      JoinWithLastChar(cs[1..]);
    }
  }

  lemma SplitOfAbs(cs: seq<string>)
    requires Clean(cs)
    ensures Split(AbsPathOf(cs), '/') == [""] + (if cs == [] then [""] else cs)
  {
    SplitAtSep("", JoinWith(cs, '/'), '/');
    assert AbsPathOf(cs) == "" + ['/'] + JoinWith(cs, '/');
    if cs != [] {
      SplitJoin(cs, '/');
    }
  }

  lemma ComponentsOfAbs(cs: seq<string>)
    requires Clean(cs)
    ensures Components(AbsPathOf(cs)) == cs
  {
    SplitOfAbs(cs);
    if cs != [] {
      NonEmptyIdentity(cs);
      NonEmptyConcat([""], cs);
    } else {
      NonEmptyConcat([""], [""]);
    }
  }

  lemma {:induction false} NormCompsClean(cs: seq<string>, acc: seq<string>, absolute: bool)
    requires Clean(cs)
    ensures NormComps(cs, acc, absolute) == acc + cs
  {
    if cs != [] {
      NormCompsClean(cs[1..], acc + [cs[0]], absolute);
      assert acc + [cs[0]] + cs[1..] == acc + cs;
    }
  }

  /** A path made of clean components is already normal. */
  lemma NormpathOfAbs(cs: seq<string>)
    requires Clean(cs)
    ensures Normpath(AbsPathOf(cs)) == AbsPathOf(cs)
  {
    var p := AbsPathOf(cs);
    SplitOfAbs(cs);
    assert StartsWith(p, "/");
    var comps := Split(p, '/');
    if cs != [] {
      JoinWithLastChar(cs);
      assert p[1] != '/';
      assert !StartsWith(p, "//");
      NormCompsClean(cs, [], true);
      assert comps[0] == "" && comps[1..] == cs;
      assert NormComps(comps, [], true) == NormComps(cs, [], true);
    } else {
      assert p == "/";
      assert !StartsWith(p, "//");
      assert comps == ["", ""];
      assert comps[1..] == [""];
      assert NormComps([""], [], true) == NormComps([], [], true);
      assert NormComps(comps, [], true) == [];
    }
    assert NormComps(comps, [], true) == cs;
    var body := JoinWith(NormComps(comps, [], true), '/');
    assert body == JoinWith(cs, '/');
    assert Repeat('/', 1) == "/";
    assert Repeat('/', 1) + body == p;
    assert p != "";
  }

  lemma {:induction false} CommonPrefixOfExtension(a: seq<string>, b: seq<string>)
    ensures CommonPrefixLen(a, a + b) == |a|
  {
    if |a| > 0 {
      assert (a + b)[1..] == a[1..] + b;
      CommonPrefixOfExtension(a[1..], b);
    }
  }

  lemma {:induction false} CommonPrefixDiverging(a: seq<string>, x: string, y: string, b: seq<string>, c: seq<string>)
    requires x != y
    ensures CommonPrefixLen(a + [x] + b, a + [y] + c) == |a|
  {
    if |a| > 0 {
      assert (a + [x] + b)[1..] == a[1..] + [x] + b;
      assert (a + [y] + c)[1..] == a[1..] + [y] + c;
      CommonPrefixDiverging(a[1..], x, y, b, c);
    }
  }

  lemma AbsPathOfConcat(a: seq<string>, b: seq<string>)
    requires |b| > 0
    ensures AbsPathOf(a + b) == (if a == [] then "" else AbsPathOf(a)) + "/" + JoinWith(b, '/')
  {
    if a == [] {
      assert a + b == b;
    } else {
      JoinWithConcat(a, b, '/');
    }
  }

  lemma JoinWithHead(h: string, rest: seq<string>, sep: char)
    ensures JoinWith([h] + rest, sep) == h + (if rest == [] then "" else [sep] + JoinWith(rest, sep))
  {
    assert ([h] + rest)[1..] == rest;
  }

  /** Lengthening the last name of a path gives a path that starts, as a
      string, with the original. */
  lemma LongerNamePrefix(a: seq<string>, x: string, y: string, rest: seq<string>)
    ensures StartsWith(AbsPathOf(a + [x + y] + rest), AbsPathOf(a + [x]))
  {
    var p := if a == [] then "" else AbsPathOf(a);
    var t := if rest == [] then "" else ['/'] + JoinWith(rest, '/');
    AbsPathOfLast(a, x);
    AbsPathOfLonger(a, x + y, rest);
    Regroup(p, x, y, t);
    var u := p + "/" + x;
    assert (u + (y + t))[..|u|] == u;
  }

  /** `/.../x` as the path of the parent followed by `/x`. */
  lemma AbsPathOfLast(a: seq<string>, x: string)
    ensures AbsPathOf(a + [x]) == (if a == [] then "" else AbsPathOf(a)) + "/" + x
  {
    AbsPathOfConcat(a, [x]);
  }

  /** `/.../n/...` as the path of the parent, then `/n`, then the rest. */
  lemma AbsPathOfLonger(a: seq<string>, n: string, rest: seq<string>)
    ensures AbsPathOf(a + [n] + rest)
         == (if a == [] then "" else AbsPathOf(a)) + "/" + n + (if rest == [] then "" else ['/'] + JoinWith(rest, '/'))
  {
    assert a + [n] + rest == a + ([n] + rest);
    AbsPathOfConcat(a, [n] + rest);
    JoinWithHead(n, rest, '/');
  }

  lemma Regroup(p: string, x: string, y: string, t: string)
    ensures p + "/" + (x + y) + t == (p + "/" + x) + (y + t)
  {
  }

  /** A path below `root` starts, as a string, with the path of `root`. */
  lemma AbsPathBelowStartsWith(root: seq<string>, rel: seq<string>)
    requires rel != []
    ensures StartsWith(AbsPathOf(root + rel), AbsPathOf(root))
  {
    AbsPathOfConcat(root, rel);
    var j := JoinWith(rel, '/');
    if root == [] {
      assert ("" + "/" + j)[..1] == "/";
    } else {
      var p := AbsPathOf(root);
      assert (p + "/" + j)[..|p|] == p;
    }
  }

  /** From `/.../x` to its sibling `/.../xy/...` is one step up, then down. */
  lemma SiblingRelPath(a: seq<string>, x: string, y: string, rest: seq<string>)
    requires Clean(a + [x]) && Clean([x + y] + rest) && y != ""
    ensures Clean(a + [x + y] + rest)
    ensures RelPath(AbsPathOf(a + [x + y] + rest), AbsPathOf(a + [x])) == "../" + JoinWith([x + y] + rest, '/')
  {
    var root := a + [x];
    var tail := [x + y] + rest;
    var full := a + tail;
    assert a + [x + y] + rest == full;
    assert Clean(a) by {
      assert forall i :: 0 <= i < |a| ==> a[i] == root[i];
    }
    CleanConcat(a, tail);
    CleanComponents(full);
    CleanComponents(root);
    RelOfSibling(a, x, x + y, rest);
  }

  /** From components `a + [x]` to `a + [n] + rest` with `n != x`: one step up,
      then down. */
  lemma RelOfSibling(a: seq<string>, x: string, n: string, rest: seq<string>)
    requires x != n
    ensures RelOf(a + ([n] + rest), a + [x]) == "../" + JoinWith([n] + rest, '/')
  {
    var root := a + [x];
    var tail := [n] + rest;
    var full := a + tail;
    assert a + [n] + rest == full;
    CommonPrefixDiverging(a, x, n, [], rest);
    assert a + [x] + [] == root;
    assert Repeat("..", |root| - |a|) == [".."];
    assert full[|a|..] == tail;
    JoinWithHead("..", tail, '/');
  }

  /** A path below `root` is reached from it by its remaining components. */
  lemma RelPathBelow(root: seq<string>, rel: seq<string>)
    requires Clean(root) && Clean(rel)
    ensures RelPath(AbsPathOf(root + rel), AbsPathOf(root)) == if rel == [] then "." else JoinWith(rel, '/')
  {
    var full := root + rel;
    assert Clean(full);
    CleanComponents(root);
    CleanComponents(full);
    RelOfExtension(root, rel);
  }

  /** From components `root` to `root + rel`: just `rel`. */
  lemma RelOfExtension(root: seq<string>, rel: seq<string>)
    ensures RelOf(root + rel, root) == if rel == [] then "." else JoinWith(rel, '/')
  {
    CommonPrefixOfExtension(root, rel);
    assert Repeat("..", 0) == [];
    assert (root + rel)[|root|..] == rel;
    assert [] + rel == rel;
  }

  /** `relpath` between two clean absolute paths: up out of the part of
      `start` not shared with `path`, then down into the rest of `path`. */
  lemma RelPathOfClean(path: seq<string>, start: seq<string>)
    requires Clean(path) && Clean(start)
    ensures RelPath(AbsPathOf(path), AbsPathOf(start)) == RelOf(path, start)
  {
    CleanComponents(start);
    CleanComponents(path);
  }

  /** The components of a clean absolute path, as `relpath` sees them. */
  lemma CleanComponents(cs: seq<string>)
    requires Clean(cs)
    ensures Components(Normpath(AbsPathOf(cs))) == cs
  {
    NormpathOfAbs(cs);
    ComponentsOfAbs(cs);
  }

  /** `os.path.join(root, relpath(p, root)) == p` for a path strictly below `root`. */
  lemma JoinRelPath(root: seq<string>, rel: seq<string>)
    requires Clean(root) && Clean(rel) && rel != []
    ensures Join(AbsPathOf(root), RelPath(AbsPathOf(root + rel), AbsPathOf(root))) == AbsPathOf(root + rel)
  {
    RelPathBelow(root, rel);
    JoinWithLastChar(rel);
    AbsPathOfConcat(root, rel);
    if root != [] {
      JoinWithLastChar(root);
    }
  }

  lemma {:induction false} RFindAfterLast(x: string, c: char, n: string)
    requires c !in n
    ensures RFind(x + [c] + n, c) == |x|
  {
    if |n| > 0 {
      var s := x + [c] + n;
      assert s[..|s| - 1] == x + [c] + n[..|n| - 1];
      RFindAfterLast(x, c, n[..|n| - 1]);
    }
  }

  lemma BasenameAfterSlash(x: string, n: string)
    requires '/' !in n
    ensures Basename(x + "/" + n) == n
  {
    RFindAfterLast(x, '/', n);
    assert (x + "/" + n)[|x| + 1..] == n;
  }

  /** Joining a folder and a name without `/` gives back the name as the last component. */
  lemma JoinedBasename(dir: Path, n: string)
    requires '/' !in n
    ensures Basename(Join(dir, n)) == n
  {
    if n != [] {
      assert n[0] != '/';
    }
    if dir == "" {
      assert Join(dir, n) == n;
    } else if dir[|dir| - 1] == '/' {
      var x := dir[..|dir| - 1];
      assert Join(dir, n) == x + ['/'] + n;
      RFindAfterLast(x, '/', n);
      assert (x + ['/'] + n)[|x| + 1..] == n;
    } else {
      BasenameAfterSlash(dir, n);
    }
  }

  lemma DirnameAfterSlash(x: string, n: string)
    requires '/' !in n
    requires x == "" || x[|x| - 1] != '/'
    ensures Dirname(x + "/" + n) == if x == "" then "/" else x
  {
    RFindAfterLast(x, '/', n);
    var head := (x + "/" + n)[..|x| + 1];
    assert head == x + "/";
    if x != "" {
      assert head[|x| - 1] != '/';
      assert !AllSlashes(head);
      assert head[..|head| - 1] == x;
    }
  }

  /** The last component of `/c1/.../cn` is its basename ... */
  lemma BasenameOfAbs(cs: seq<string>)
    requires Clean(cs) && cs != []
    ensures Basename(AbsPathOf(cs)) == cs[|cs| - 1]
  {
    var n := |cs|;
    if n == 1 {
      BasenameAfterSlash("", cs[0]);
    } else {
      AbsPathOfConcat(cs[..n - 1], [cs[n - 1]]);
      assert cs[..n - 1] + [cs[n - 1]] == cs;
      BasenameAfterSlash(AbsPathOf(cs[..n - 1]), cs[n - 1]);
    }
  }

  /** ... and dropping it gives its dirname. */
  lemma DirnameOfAbs(cs: seq<string>)
    requires Clean(cs) && cs != []
    ensures Dirname(AbsPathOf(cs)) == AbsPathOf(cs[..|cs| - 1])
  {
    var n := |cs|;
    if n == 1 {
      DirnameAfterSlash("", cs[0]);
      assert cs[..0] == [];
    } else {
      AbsPathOfConcat(cs[..n - 1], [cs[n - 1]]);
      assert cs[..n - 1] + [cs[n - 1]] == cs;
      JoinWithLastChar(cs[..n - 1]);
      DirnameAfterSlash(AbsPathOf(cs[..n - 1]), cs[n - 1]);
    }
  }

  lemma BasenameOfRoot()
    ensures Basename("/") == "" && Dirname("/") == "/"
  {
    assert RFind("/", '/') == 0;
    assert AllSlashes("/");
  }

  /** Basename and dirname of `/c1/.../cn`, the root included. */
  lemma ParentOfAbs(cs: seq<string>)
    requires Clean(cs)
    ensures Basename(AbsPathOf(cs)) == if cs == [] then "" else cs[|cs| - 1]
    ensures Dirname(AbsPathOf(cs)) == if cs == [] then "/" else AbsPathOf(cs[..|cs| - 1])
    ensures cs != [] ==> Clean(cs[..|cs| - 1])
  {
    if cs == [] {
      assert AbsPathOf(cs) == "/";
      BasenameOfRoot();
    } else {
      BasenameOfAbs(cs);
      DirnameOfAbs(cs);
    }
  }

  /** Joining a clean name onto a path that does not end in `/`. */
  lemma JoinName(a: Path, b: string)
    requires CleanComponent(b)
    requires a == "" || a[|a| - 1] != '/'
    ensures Join(a, b) == if a == "" then b else a + "/" + b
  {
    assert b[0] != '/';
  }

  lemma CleanConcat(a: seq<string>, b: seq<string>)
    requires Clean(a) && Clean(b)
    ensures Clean(a + b)
  {
    assert forall i :: 0 <= i < |a + b| ==> (a + b)[i] == if i < |a| then a[i] else b[i - |a|];
  }
}
