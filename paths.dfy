/**
 * Slash-separated paths: `filepath.Dir`, `filepath.Base` and `path.Join`
 * on paths that are already clean, and the "is inside this directory"
 * relation that a recursive directory walk follows.
 */
module Paths {
  import opened Strings

  /** `filepath.Dir` of a clean path: everything before the last `/`. */
  function Dir(p: string): string {
    var i := LastIndex(p, '/');
    if i == -1 then "." else if i == 0 then "/" else p[..i]
  }

  /** `filepath.Base` of a path without a trailing `/`: everything after the last `/`. */
  function Base(p: string): string {
    if p == "" then "." else p[LastIndex(p, '/') + 1..]
  }

  /** `path.Join(a, b)` without the final `Clean`: empty elements are dropped. */
  function JoinPath(a: string, b: string): string {
    if a == "" then b
    else if b == "" then a
    else if a[|a| - 1] == '/' then a + b
    else a + "/" + b
  }

  /** A path lies inside its folder; a bare name's folder is `.`. */
  lemma DirContains(p: string)
    ensures '/' !in p ==> Dir(p) == "."
    ensures '/' in p ==> IsUnder(p, Dir(p))
  {
    var i := LastIndex(p, '/');
    if i > 0 {
      assert p[..i + 1] == p[..i] + "/";
    }
  }

  /** The base name holds no separator and ends the path. */
  lemma BaseEnds(p: string)
    ensures '/' !in Base(p)
    ensures p != "" ==> HasSuffix(p, Base(p))
  {
  }

  /** The joined path ends with its second element and lies inside its first. */
  lemma JoinIsUnder(a: string, b: string)
    ensures HasSuffix(JoinPath(a, b), b)
    ensures a != "" ==> IsUnder(JoinPath(a, b), a)
  {
  }

  /** Joining a folder and a name without separator gives a path whose base name is that name. */
  lemma BaseOfJoin(a: string, name: string)
    requires name != "" && '/' !in name
    ensures Base(JoinPath(a, name)) == name
  {
    var r := JoinPath(a, name);
    if a != "" {
      var i := |r| - |name| - 1;
      assert r[i + 1..] == name;
      LastIndexAt(r, '/', i);
    }
  }

  /**
   * A single clean path element: not empty, no separator, neither `.` nor
   * `..`. `filepath.Join` appends such a name as it is; any other name is
   * rewritten by the `Clean` that Join ends with.
   */
  predicate Element(name: string) {
    name != "" && '/' !in name && name != "." && name != ".."
  }

  /** A directory path with exactly one trailing `/`, as a prefix of its contents. */
  function Slashed(dir: string): string {
    if dir != "" && dir[|dir| - 1] == '/' then dir else dir + "/"
  }

  /** `p` is `dir` itself or lies somewhere below it: what walking `dir` visits. */
  predicate IsUnder(p: string, dir: string) {
    p == dir || HasPrefix(p, Slashed(dir))
  }

  /** A file's folder and base name join back to the file's path. */
  lemma DirBaseJoin(p: string)
    requires 0 <= LastIndex(p, '/') < |p| - 1
    requires LastIndex(p, '/') == 0 || p[LastIndex(p, '/') - 1] != '/'
    ensures JoinPath(Dir(p), Base(p)) == p
    ensures '/' !in Base(p)
  {
    var i := LastIndex(p, '/');
    DirBaseAt(p, i);
    JoinAround(p, i, Dir(p), Base(p));
  }

  /** Folder and base name around the last `/`. */
  lemma DirBaseAt(p: string, i: int)
    requires i == LastIndex(p, '/') && 0 <= i
    ensures Base(p) == p[i + 1..] && '/' !in Base(p)
    ensures Dir(p) == if i == 0 then "/" else p[..i]
  {
  }

  lemma JoinAround(p: string, i: nat, d: string, b: string)
    requires i < |p| - 1 && p[i] == '/'
    requires b == p[i + 1..]
    requires i == 0 ==> d == "/"
    requires i > 0 ==> d == p[..i] && p[i - 1] != '/'
    ensures JoinPath(d, b) == p
  {
    assert p == p[..i] + [p[i]] + b;
    if i == 0 {
      assert JoinPath(d, b) == d + b;
    } else {
      assert JoinPath(d, b) == d + "/" + b;
    }
  }

  /** Being inside a directory is transitive. */
  lemma UnderTrans(p: string, d: string, r: string)
    requires IsUnder(p, d) && IsUnder(d, r)
    ensures IsUnder(p, r)
  {
    if p != d && d != r {
      assert HasPrefix(Slashed(d), d);
      assert p[..|d|] == p[..|Slashed(d)|][..|d|];
      assert p[..|Slashed(r)|] == d[..|Slashed(r)|];
    }
  }

  /** A directory sorts no later than anything inside it. */
  lemma UnderLexLe(p: string, dir: string)
    ensures IsUnder(p, dir) ==> LexLe(dir, p)
  {
    if p == dir {
      LexLeRefl(p);
    } else if HasPrefix(p, Slashed(dir)) {
      assert p[..|dir|] == p[..|Slashed(dir)|][..|dir|];
      PrefixLexLe(p, dir);
    }
  }

  /** Inside a directory implies a plain string prefix; the converse fails (see `RootPaths`). */
  lemma UnderHasPrefix(p: string, dir: string)
    requires IsUnder(p, dir)
    ensures HasPrefix(p, dir)
  {
    if p != dir {
      assert p[..|dir|] == p[..|Slashed(dir)|][..|dir|];
    }
  }
}
