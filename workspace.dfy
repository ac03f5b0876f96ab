/**
 * The pure parts of preparing a deployment: the repository name taken from
 * the URL, the working directory of a project, the compose file paths inside
 * the clone, and the clone's credentials.
 */
module Workspace {
  import opened Wrappers
  import opened Strings
  import opened Paths

  /**
   * The repository name: the text after the last `/` of the URL with one
   * trailing `.git` removed; none when the URL has no `/`.
   */
  function RepositoryName(url: string): (r: Option<string>)
    ensures r.None? <==> '/' !in url
    ensures r.Some? ==> '/' !in r.value
    ensures r.Some? ==> HasSuffix(url, "/" + r.value) || HasSuffix(url, "/" + r.value + ".git")
    ensures r.Some? && HasSuffix(url, ".git") ==> HasSuffix(url, "/" + r.value + ".git")
  {
    var i := LastIndex(url, '/');
    if i == -1 then None
    else
      TrimmedTail(url, i);
      Some(TrimSuffix(url[i + 1..], ".git"))
  }

  /** The facts about the text after the last `/` that `RepositoryName` promises. */
  lemma TrimmedTail(url: string, i: nat)
    requires i < |url| && url[i] == '/' && '/' !in url[i + 1..]
    ensures var name := TrimSuffix(url[i + 1..], ".git");
      && '/' !in name
      && (HasSuffix(url, "/" + name) || HasSuffix(url, "/" + name + ".git"))
      && (HasSuffix(url, ".git") ==> HasSuffix(url, "/" + name + ".git"))
  {
    var tail := url[i + 1..];
    var name := TrimSuffix(tail, ".git");
    assert url[i..] == "/" + tail;
    assert tail[..|name|] == name;
    if HasSuffix(tail, ".git") {
      assert tail == name + ".git";
      assert url[i..] == "/" + name + ".git";
    } else {
      assert url[i..] == "/" + name;
    }
    GitSuffixInTail(url, i);
  }

  /** A `.git` at the end of the URL lies after its last `/`. */
  lemma GitSuffixInTail(url: string, i: nat)
    requires i < |url| && url[i] == '/'
    ensures HasSuffix(url, ".git") ==> HasSuffix(url[i + 1..], ".git")
  {
    if HasSuffix(url, ".git") {
      forall k | |url| - 4 <= k < |url| ensures url[k] != '/' {
        assert url[k] == url[|url| - 4..][k - |url| + 4];
      }
      assert i < |url| - 4;
      assert url[i + 1..][|url| - i - 5..] == url[|url| - 4..];
    }
  }

  /**
   * `makeWorkingDir`: `target/stacks/stackName`. For a project name that is
   * one clean path element the working directory lies inside the
   * destination; a name such as `..` or `a/../..` would not, once
   * `filepath.Join` cleans it.
   */
  function MakeWorkingDir(target: string, stackName: string): (r: string)
    ensures target != "" && target[|target| - 1] != '/' && Element(stackName) ==>
      r == target + "/stacks/" + stackName
    ensures target != "" && Element(stackName) ==> IsUnder(r, target)
  {
    var stacks := JoinPath(target, "stacks");
    if target == "" then JoinPath(stacks, stackName)
    else
      JoinIsUnder(target, "stacks");
      JoinIsUnder(stacks, stackName);
      UnderTrans(JoinPath(stacks, stackName), stacks, target);
      JoinPath(stacks, stackName)
  }

  /**
   * Two projects whose names are different clean path elements never share
   * a working directory under the same destination.
   */
  lemma WorkingDirsDistinct(target: string, a: string, b: string)
    requires Element(a) && Element(b) && a != b
    ensures MakeWorkingDir(target, a) != MakeWorkingDir(target, b)
  {
    var stacks := JoinPath(target, "stacks");
    assert stacks != "" && stacks[|stacks| - 1] == 's';
    var x, y := stacks + "/" + a, stacks + "/" + b;
    assert MakeWorkingDir(target, a) == x && MakeWorkingDir(target, b) == y;
    assert x[|stacks| + 1..] == a && y[|stacks| + 1..] == b;
  }

  /**
   * The loop that fills `composeFilePaths`: each relative compose path joined
   * to the clone path, same length and order as the input.
   */
  method ComposeFilePaths(clonePath: string, relative: seq<string>) returns (paths: seq<string>)
    ensures |paths| == |relative|
    ensures forall i :: 0 <= i < |paths| ==> paths[i] == JoinPath(clonePath, relative[i])
    ensures clonePath != "" ==> forall i :: 0 <= i < |paths| ==> IsUnder(paths[i], clonePath)
  {
    paths := [];
    var i := 0;
    while i < |relative|
      invariant 0 <= i <= |relative| && |paths| == i
      invariant forall k :: 0 <= k < i ==> paths[k] == JoinPath(clonePath, relative[k])
    {
      paths := paths + [JoinPath(clonePath, relative[i])];
      i := i + 1;
    }
    forall k | 0 <= k < |paths| && clonePath != "" ensures IsUnder(paths[k], clonePath) {
      JoinIsUnder(clonePath, relative[k]);
    }
  }

  /** The compose paths as a value, for the specifications of the commands. */
  function ComposePaths(clonePath: string, relative: seq<string>): seq<string> {
    seq(|relative|, i requires 0 <= i < |relative| => JoinPath(clonePath, relative[i]))
  }

  /** HTTP basic-auth credentials for the clone. */
  datatype BasicAuth = BasicAuth(username: string, password: string)

  /**
   * `getAuth`: no credentials without a password; otherwise the password with
   * the given user name, or `token` when none is given.
   */
  function GetAuth(username: string, password: string): (r: Option<BasicAuth>)
    ensures r.None? <==> password == ""
    ensures r.Some? ==> r.value.password == password && r.value.username != ""
    ensures r.Some? && username != "" ==> r.value.username == username
    ensures r.Some? && username == "" ==> r.value.username == "token"
  {
    if password != "" then
      Some(BasicAuth(if username == "" then "token" else username, password))
    else None
  }
}
