/**
 * `findRootPaths`: from the compose file paths, the smallest set of folders
 * whose recursive walk is meant to reach every compose file's folder. The
 * folders are sorted and a folder is kept only when it does not start, as a
 * plain string, with the folder kept last.
 */
module Roots {
  import opened Strings
  import opened Paths

  /** The cleaned parent folder of every file, in input order. */
  function Folders(filePaths: seq<string>): seq<string> {
    seq(|filePaths|, i requires 0 <= i < |filePaths| => Dir(filePaths[i]))
  }

  /** Keep each folder of `sorted` that does not start with the last kept root. */
  function Reduce(sorted: seq<string>, roots: seq<string>): seq<string>
    requires |roots| > 0
    decreases |sorted|
  {
    if sorted == [] then roots
    else Reduce(sorted[1..], if HasPrefix(sorted[0], roots[|roots| - 1]) then roots else roots + [sorted[0]])
  }

  /** The value `findRootPaths` returns: no roots exactly when there are no files (see `RootPathsSpec`). */
  function RootPaths(filePaths: seq<string>): (r: seq<string>)
    ensures r == [] <==> filePaths == []
  {
    if filePaths == [] then []
    else
      var sorted := Sort(Folders(filePaths));
      ReduceExtends(sorted, [sorted[0]]);
      Reduce(sorted, [sorted[0]])
  }

  /** The loop that fills `folderPaths`: the folder of every file, in input order. */
  method FolderPaths(filePaths: seq<string>) returns (folderPaths: seq<string>)
    ensures folderPaths == Folders(filePaths)
  {
    folderPaths := [];
    var i := 0;
    while i < |filePaths|
      invariant 0 <= i <= |filePaths|
      invariant |folderPaths| == i
      invariant forall k :: 0 <= k < i ==> folderPaths[k] == Dir(filePaths[k])
    {
      folderPaths := folderPaths + [Dir(filePaths[i])];
      i := i + 1;
    }
  }

  /** `findRootPaths` itself: a fill loop, the library sort, and the reduction loop. */
  method FindRootPaths(filePaths: seq<string>) returns (rootPaths: seq<string>)
    ensures rootPaths == RootPaths(filePaths)
  {
    if |filePaths| == 0 {
      return [];
    }
    var folderPaths := FolderPaths(filePaths);
    // sort.Strings(folderPaths)
    folderPaths := Sort(folderPaths);
    rootPaths := [folderPaths[0]];
    var i := 0;
    while i < |folderPaths|
      invariant 0 <= i <= |folderPaths|
      invariant |rootPaths| > 0
      invariant Reduce(folderPaths[i..], rootPaths) == RootPaths(filePaths)
    {
      if !HasPrefix(folderPaths[i], rootPaths[|rootPaths| - 1]) {
        rootPaths := rootPaths + [folderPaths[i]];
      }
      assert folderPaths[i..][1..] == folderPaths[i + 1..];
      i := i + 1;
    }
    assert folderPaths[i..] == [];
  }

  // ---------------------------------------------------------------------
  // What the reduction guarantees

  /** Strictly ascending, and no root starts with another one. */
  ghost predicate PrefixFree(roots: seq<string>) {
    && (forall i, j :: 0 <= i < j < |roots| ==> LexLt(roots[i], roots[j]))
    && (forall i, j :: 0 <= i < |roots| && 0 <= j < |roots| && i != j ==> !HasPrefix(roots[j], roots[i]))
  }

  /** Some root is a string prefix of `f`. */
  ghost predicate Covered(f: string, roots: seq<string>) {
    exists k :: 0 <= k < |roots| && HasPrefix(f, roots[k])
  }

  /** Appending a folder that does not start with the last root keeps the roots prefix-free. */
  lemma AppendKeepsPrefixFree(roots: seq<string>, x: string)
    requires |roots| > 0 && PrefixFree(roots)
    requires LexLe(roots[|roots| - 1], x) && !HasPrefix(x, roots[|roots| - 1])
    ensures PrefixFree(roots + [x])
  {
    var last := |roots| - 1;
    var r := roots + [x];
    assert HasPrefix(roots[last], roots[last]);
    forall i | 0 <= i < last
      ensures LexLt(roots[i], x) && !HasPrefix(x, roots[i]) && !HasPrefix(roots[i], x)
    {
      LexLeTrans(roots[i], roots[last], x);
      if HasPrefix(x, roots[i]) {
        PrefixSandwich(roots[i], roots[last], x);
        assert false;
      }
      if HasPrefix(roots[i], x) {
        PrefixLexLe(roots[i], x);
        LexLeAntisym(roots[i], x);
        assert false;
      }
    }
    assert !HasPrefix(roots[last], x) by {
      if HasPrefix(roots[last], x) {
        PrefixLexLe(roots[last], x);
        LexLeAntisym(roots[last], x);
      }
    }
    assert forall i, j :: 0 <= i < j < |r| ==> LexLt(r[i], r[j]);
  }

  /** The reduction only appends: the roots it starts from stay in front, and every root comes from the input. */
  lemma {:induction false} ReduceExtends(sorted: seq<string>, roots: seq<string>)
    requires |roots| > 0
    ensures var r := Reduce(sorted, roots);
      && |r| >= |roots| && r[..|roots|] == roots
      && (forall x :: x in r ==> x in roots || x in sorted)
    decreases |sorted|
  {
    if sorted != [] {
      var x := sorted[0];
      var next := if HasPrefix(x, roots[|roots| - 1]) then roots else roots + [x];
      ReduceExtends(sorted[1..], next);
      var r := Reduce(sorted, roots);
      assert r == Reduce(sorted[1..], next);
      assert r[..|roots|] == r[..|next|][..|roots|];
      forall y | y in r ensures y in roots || y in sorted {
        if y in sorted[1..] {
          var k :| 0 <= k < |sorted[1..]| && sorted[1..][k] == y;
          assert sorted[k + 1] == y;
        } else {
          assert y in next;
        }
      }
    } else {
      assert Reduce(sorted, roots)[..|roots|] == roots;
    }
  }

  /**
   * The reduction loop's invariant: the kept roots stay prefix-free and
   * ascending.
   */
  lemma {:induction false} ReduceProperties(sorted: seq<string>, roots: seq<string>)
    requires |roots| > 0 && PrefixFree(roots) && Sorted(sorted)
    requires forall j :: 0 <= j < |sorted| ==> LexLe(roots[|roots| - 1], sorted[j])
    ensures PrefixFree(Reduce(sorted, roots))
    decreases |sorted|
  {
    if sorted != [] {
      var x := sorted[0];
      var last := roots[|roots| - 1];
      var next := if HasPrefix(x, last) then roots else roots + [x];
      if !HasPrefix(x, last) {
        AppendKeepsPrefixFree(roots, x);
      }
      forall j | 0 <= j < |sorted[1..]| ensures LexLe(next[|next| - 1], sorted[1..][j]) {
        assert sorted[1..][j] == sorted[j + 1];
      }
      ReduceProperties(sorted[1..], next);
      assert Reduce(sorted, roots) == Reduce(sorted[1..], next);
    }
  }

  /** Every folder the reduction sees starts with one of the roots it keeps. */
  lemma {:induction false} ReduceCovers(sorted: seq<string>, roots: seq<string>)
    requires |roots| > 0
    ensures forall j :: 0 <= j < |sorted| ==> Covered(sorted[j], Reduce(sorted, roots))
    decreases |sorted|
  {
    if sorted != [] {
      var x := sorted[0];
      var last := roots[|roots| - 1];
      var next := if HasPrefix(x, last) then roots else roots + [x];
      ReduceCovers(sorted[1..], next);
      ReduceExtends(sorted[1..], next);
      var r := Reduce(sorted, roots);
      assert r == Reduce(sorted[1..], next);
      assert Covered(x, r) by {
        if HasPrefix(x, last) {
          assert r[|roots| - 1] == next[|roots| - 1];
        } else {
          assert r[|roots|] == x;
          assert HasPrefix(x, x);
        }
      }
      forall j | 1 <= j < |sorted| ensures Covered(sorted[j], r) {
        assert sorted[j] == sorted[1..][j - 1];
      }
    }
  }

  /**
   * What `findRootPaths` promises: no roots for no files; otherwise every
   * root is the folder of some input file, the roots ascend strictly, no
   * root starts with another, and every file's folder starts with some root.
   */
  lemma RootPathsSpec(filePaths: seq<string>)
    ensures filePaths == [] ==> RootPaths(filePaths) == []
    ensures filePaths != [] ==> |RootPaths(filePaths)| > 0
    ensures forall x :: x in RootPaths(filePaths) ==> exists i :: 0 <= i < |filePaths| && x == Dir(filePaths[i])
    ensures PrefixFree(RootPaths(filePaths))
    ensures forall i :: 0 <= i < |filePaths| ==> Covered(Dir(filePaths[i]), RootPaths(filePaths))
  {
    if filePaths != [] {
      var folders := Folders(filePaths);
      var sorted := Sort(folders);
      SortSorted(folders);
      forall j | 0 <= j < |sorted| ensures LexLe(sorted[0], sorted[j]) {
        if j == 0 {
          LexLeRefl(sorted[0]);
        }
      }
      ReduceProperties(sorted, [sorted[0]]);
      ReduceCovers(sorted, [sorted[0]]);
      ReduceExtends(sorted, [sorted[0]]);
      var r := RootPaths(filePaths);
      forall x | x in r ensures exists i :: 0 <= i < |filePaths| && x == Dir(filePaths[i]) {
        SortSameElements(folders, x);
        var i :| 0 <= i < |folders| && folders[i] == x;
      }
      forall i | 0 <= i < |filePaths| ensures Covered(Dir(filePaths[i]), r) {
        SortSameElements(folders, folders[i]);
        var j :| 0 <= j < |sorted| && sorted[j] == folders[i];
      }
    }
  }

  // ---------------------------------------------------------------------
  // The string-prefix test is not a path test

  /**
   * With compose files in sibling folders `/a/x` and `/a/xy`, the reduction
   * keeps only `/a/x`, although `/a/xy` is not inside `/a/x`: a walk of the
   * roots never enters `/a/xy`.
   */
  lemma StringPrefixDropsSibling()
    ensures RootPaths(["/a/x/f", "/a/xy/f"]) == ["/a/x"]
    ensures Dir("/a/xy/f") == "/a/xy" && !IsUnder("/a/xy", "/a/x")
  {
    SiblingFoldersSorted();
    SiblingDisjoint();
    ReducePair("/a/x", "/a/xy");
  }

  /** A folder that starts with the first root is dropped. */
  lemma ReducePair(a: string, b: string)
    requires HasPrefix(b, a)
    ensures Reduce([a, b], [a]) == [a]
  {
    assert HasPrefix(a, a) && [a][|[a]| - 1] == a;
    assert [a, b][0] == a && [a, b][1..] == [b];
    assert Reduce([a, b], [a]) == Reduce([b], [a]);
    assert [b][0] == b && [b][1..] == [];
    assert Reduce([b], [a]) == Reduce([], [a]);
  }

  /** The folders of the two sibling files, already in sorted order. */
  lemma SiblingFoldersSorted()
    ensures Sort(Folders(["/a/x/f", "/a/xy/f"])) == ["/a/x", "/a/xy"]
    ensures Dir("/a/xy/f") == "/a/xy"
    ensures HasPrefix("/a/xy", "/a/x")
  {
    SiblingFolders();
    assert HasPrefix("/a/xy", "/a/x");
    PrefixLexLe("/a/xy", "/a/x");
    SortPair("/a/x", "/a/xy");
  }

  /** Two strings in order sort to themselves. */
  lemma SortPair(a: string, b: string)
    requires LexLe(a, b)
    ensures Sort([a, b]) == [a, b]
  {
    assert [a, b][1..] == [b] && [b][1..] == [];
    assert Sort([b]) == [b];
  }

  lemma SiblingFolders()
    ensures Folders(["/a/x/f", "/a/xy/f"]) == ["/a/x", "/a/xy"]
    ensures Dir("/a/xy/f") == "/a/xy"
  {
    DirOf("/a/x/f", 4);
    DirOf("/a/xy/f", 5);
    assert "/a/x/f"[..4] == "/a/x";
    assert "/a/xy/f"[..5] == "/a/xy";
  }

  /** The sibling folder is not inside the other one. */
  lemma SiblingDisjoint()
    ensures !IsUnder("/a/xy", "/a/x")
  {
    assert Slashed("/a/x") == "/a/x/" && "/a/xy"[4] != '/';
  }

  lemma DirOf(p: string, i: nat)
    requires 0 < i < |p| && p[i] == '/' && '/' !in p[i + 1..]
    ensures Dir(p) == p[..i]
  {
    LastIndexAt(p, '/', i);
  }

  // ---------------------------------------------------------------------
  // Corrected reduction: compare whole path components

  /** `x` lies inside one of the kept roots. */
  predicate UnderAny(x: string, roots: seq<string>) {
    exists k :: 0 <= k < |roots| && IsUnder(x, roots[k])
  }

  /** Keep each folder of `sorted` that is not inside a root kept before it. */
  function ReduceUnder(sorted: seq<string>, roots: seq<string>): seq<string>
    decreases |sorted|
  {
    if sorted == [] then roots
    else ReduceUnder(sorted[1..], if UnderAny(sorted[0], roots) then roots else roots + [sorted[0]])
  }

  /** The roots a recursive walk needs: folders not inside another input folder. */
  function RootDirs(filePaths: seq<string>): seq<string> {
    ReduceUnder(Sort(Folders(filePaths)), [])
  }

  /**
   * The corrected `findRootPaths`: the same fill loop and sort, and a
   * reduction loop that drops a folder only when it lies inside a root kept
   * before it.
   */
  method FindRootDirs(filePaths: seq<string>) returns (rootPaths: seq<string>)
    ensures rootPaths == RootDirs(filePaths)
  {
    var folderPaths := FolderPaths(filePaths);
    folderPaths := Sort(folderPaths);
    rootPaths := KeepOutermost(folderPaths);
  }

  /** The corrected reduction loop over the sorted folders. */
  method KeepOutermost(folderPaths: seq<string>) returns (rootPaths: seq<string>)
    ensures rootPaths == ReduceUnder(folderPaths, [])
  {
    rootPaths := [];
    var i := 0;
    assert folderPaths[0..] == folderPaths;
    while i < |folderPaths|
      invariant 0 <= i <= |folderPaths|
      invariant ReduceUnder(folderPaths[i..], rootPaths) == ReduceUnder(folderPaths, [])
    {
      ghost var before := rootPaths;
      var inside := InsideSomeRoot(folderPaths[i], rootPaths);
      if !inside {
        rootPaths := rootPaths + [folderPaths[i]];
      }
      ReduceUnderStep(folderPaths[i..], before, rootPaths);
      assert folderPaths[i..][1..] == folderPaths[i + 1..];
      i := i + 1;
    }
    assert folderPaths[i..] == [];
  }

  /** Whether `x` lies inside one of the kept roots, checked root by root. */
  method InsideSomeRoot(x: string, roots: seq<string>) returns (inside: bool)
    ensures inside <==> UnderAny(x, roots)
  {
    var k := 0;
    while k < |roots|
      invariant 0 <= k <= |roots|
      invariant forall j :: 0 <= j < k ==> !IsUnder(x, roots[j])
    {
      if IsUnder(x, roots[k]) {
        return true;
      }
      k := k + 1;
    }
    return false;
  }

  /** One step of the corrected reduction. */
  lemma ReduceUnderStep(sorted: seq<string>, roots: seq<string>, next: seq<string>)
    requires sorted != []
    requires next == if UnderAny(sorted[0], roots) then roots else roots + [sorted[0]]
    ensures ReduceUnder(sorted, roots) == ReduceUnder(sorted[1..], next)
  {
  }

  /** No root lies inside another. */
  ghost predicate NonNested(roots: seq<string>) {
    forall i, j :: 0 <= i < |roots| && 0 <= j < |roots| && i != j ==> !IsUnder(roots[i], roots[j])
  }

  lemma AppendKeepsNonNested(roots: seq<string>, x: string)
    requires NonNested(roots) && !UnderAny(x, roots)
    requires forall k :: 0 <= k < |roots| ==> LexLe(roots[k], x)
    ensures NonNested(roots + [x])
  {
    forall k | 0 <= k < |roots| ensures !IsUnder(roots[k], x) && !IsUnder(x, roots[k]) {
      assert x != roots[k] by {
        assert IsUnder(x, x);
      }
      UnderLexLe(roots[k], x);
      if LexLe(x, roots[k]) {
        LexLeAntisym(x, roots[k]);
        assert false;
      }
    }
  }

  lemma NextRootsBounded(sorted: seq<string>, roots: seq<string>, next: seq<string>)
    requires Sorted(sorted) && sorted != []
    requires forall k, j :: 0 <= k < |roots| && 0 <= j < |sorted| ==> LexLe(roots[k], sorted[j])
    requires next == roots || next == roots + [sorted[0]]
    ensures forall k, j :: 0 <= k < |next| && 0 <= j < |sorted[1..]| ==> LexLe(next[k], sorted[1..][j])
  {
    forall k, j | 0 <= k < |next| && 0 <= j < |sorted[1..]| ensures LexLe(next[k], sorted[1..][j]) {
      assert sorted[1..][j] == sorted[j + 1];
    }
  }

  /** The reduction only appends, and only folders it was given. */
  lemma {:induction false} ReduceUnderKeeps(sorted: seq<string>, roots: seq<string>)
    ensures var r := ReduceUnder(sorted, roots);
      && |r| >= |roots| && r[..|roots|] == roots
      && (forall x :: x in r ==> x in roots || x in sorted)
    decreases |sorted|
  {
    if sorted != [] {
      var next := if UnderAny(sorted[0], roots) then roots else roots + [sorted[0]];
      ReduceUnderKeeps(sorted[1..], next);
      var r := ReduceUnder(sorted, roots);
      assert r[..|roots|] == r[..|next|][..|roots|];
    }
  }

  lemma {:induction false} ReduceUnderProperties(sorted: seq<string>, roots: seq<string>)
    requires NonNested(roots) && Sorted(sorted)
    requires forall k, j :: 0 <= k < |roots| && 0 <= j < |sorted| ==> LexLe(roots[k], sorted[j])
    ensures NonNested(ReduceUnder(sorted, roots))
    ensures forall j :: 0 <= j < |sorted| ==> UnderAny(sorted[j], ReduceUnder(sorted, roots))
    decreases |sorted|
  {
    if sorted != [] {
      var x := sorted[0];
      var next := if UnderAny(x, roots) then roots else roots + [x];
      if !UnderAny(x, roots) {
        AppendKeepsNonNested(roots, x);
      }
      NextRootsBounded(sorted, roots, next);
      ReduceUnderProperties(sorted[1..], next);
      ReduceUnderKeeps(sorted[1..], next);
      var r := ReduceUnder(sorted, roots);
      assert r == ReduceUnder(sorted[1..], next);
      assert UnderAny(x, r) by {
        if UnderAny(x, roots) {
          var k :| 0 <= k < |roots| && IsUnder(x, roots[k]);
          assert r[k] == next[k];
        } else {
          assert r[|roots|] == next[|roots|];
        }
      }
      forall j | 1 <= j < |sorted| ensures UnderAny(sorted[j], r) {
        assert sorted[j] == sorted[1..][j - 1];
      }
    }
  }

  /**
   * The corrected reduction: every root is an input folder, no root lies
   * inside another, and every input folder lies inside some root.
   */
  lemma RootDirsSpec(filePaths: seq<string>)
    ensures forall x :: x in RootDirs(filePaths) ==> exists i :: 0 <= i < |filePaths| && x == Dir(filePaths[i])
    ensures NonNested(RootDirs(filePaths))
    ensures forall i :: 0 <= i < |filePaths| ==> UnderAny(Dir(filePaths[i]), RootDirs(filePaths))
  {
    var folders := Folders(filePaths);
    var sorted := Sort(folders);
    SortSorted(folders);
    ReduceUnderProperties(sorted, []);
    ReduceUnderKeeps(sorted, []);
    var r := RootDirs(filePaths);
    forall x | x in r ensures exists i :: 0 <= i < |filePaths| && x == Dir(filePaths[i]) {
      SortSameElements(folders, x);
      var i :| 0 <= i < |folders| && folders[i] == x;
    }
    forall i | 0 <= i < |filePaths| ensures UnderAny(Dir(filePaths[i]), r) {
      SortSameElements(folders, folders[i]);
      var j :| 0 <= j < |sorted| && sorted[j] == folders[i];
    }
  }

  /** On the sibling folders above, the corrected reduction keeps both. */
  lemma RootDirsKeepsSibling()
    ensures RootDirs(["/a/x/f", "/a/xy/f"]) == ["/a/x", "/a/xy"]
  {
    SiblingFoldersSorted();
    SiblingDisjoint();
    ReduceUnderPair("/a/x", "/a/xy");
  }

  /** A folder that is not inside the first root is kept. */
  lemma ReduceUnderPair(a: string, b: string)
    requires !IsUnder(b, a)
    ensures ReduceUnder([a, b], []) == [a, b]
  {
    var none: seq<string> := [];
    assert !UnderAny(a, none) && none + [a] == [a];
    assert [a, b][0] == a && [a, b][1..] == [b];
    assert ReduceUnder([a, b], none) == ReduceUnder([b], [a]);
    assert !UnderAny(b, [a]) by {
      assert [a][0] == a;
    }
    assert [b][0] == b && [b][1..] == [] && [a] + [b] == [a, b];
    assert ReduceUnder([b], [a]) == ReduceUnder([], [a, b]);
  }


}
