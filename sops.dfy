/**
 * `sopsDecrypt`: walk every root folder of the compose files, collect the
 * non-directory entries named `*.sops.*`, then run `sops --output <plain>
 * --decrypt <name>` in each file's folder, stopping at the first failure.
 * The file system is a list of the entries the walk reports, in walk order.
 */
module Sops {
  import opened Wrappers
  import opened Strings
  import opened Paths
  import opened Process
  import opened Roots

  /** An entry the directory walk reports: its path, whether it is a directory, whether it came with an error. */
  datatype WalkEntry = WalkEntry(path: string, isDir: bool, failed: bool)

  /** `filepath.Match("*.sops.*", name)`: `.sops.` somewhere in a name without a separator. */
  predicate MatchesSopsPattern(name: string) {
    '/' !in name && Contains(name, ".sops.")
  }

  /**
   * A base name matches `*.sops.*` exactly when it holds no separator and
   * `.sops.` occurs in it at some position, with anything (even nothing)
   * before and after.
   */
  lemma MatchesSopsPatternAt(name: string)
    ensures MatchesSopsPattern(name) <==>
      '/' !in name && exists i :: OccursAt(name, ".sops.", i)
  {
    ContainsAt(name, ".sops.");
  }

  /** What the walk callback appends: a non-directory entry, without error, matching the pattern. */
  predicate IsSopsFile(e: WalkEntry) {
    !e.failed && !e.isDir && MatchesSopsPattern(Base(e.path))
  }

  /** The SOPS files the walk of `root` collects, in walk order. */
  function SopsUnder(root: string, entries: seq<WalkEntry>): seq<string> {
    if entries == [] then []
    else
      var e := entries[|entries| - 1];
      SopsUnder(root, entries[..|entries| - 1]) + (if IsUnder(e.path, root) && IsSopsFile(e) then [e.path] else [])
  }

  /** The SOPS files collected over all roots, root by root. */
  function CollectSops(roots: seq<string>, entries: seq<WalkEntry>): seq<string> {
    if roots == [] then []
    else CollectSops(roots[..|roots| - 1], entries) + SopsUnder(roots[|roots| - 1], entries)
  }

  /** `strings.ReplaceAll(name, ".sops.", ".")`. */
  function OutputFileName(name: string): string {
    ReplaceAll(name, ".sops.", ".")
  }

  /** The decrypt command of one collected file, run in the file's folder. */
  function DecryptCommand(cfg: Config, env: seq<string>, path: string): Command {
    Command(SopsBinary(cfg), ["--output", OutputFileName(Base(path)), "--decrypt", Base(path)], env, Dir(path))
  }

  /** The decrypt loop's outcome: the first error, if any, and the commands run. */
  datatype Decrypted = Decrypted(err: Option<string>, ran: seq<Command>)

  /** The decrypt command of each collected file, in collection order. */
  function DecryptCommands(cfg: Config, env: seq<string>, paths: seq<string>): seq<Command> {
    seq(|paths|, k requires 0 <= k < |paths| => DecryptCommand(cfg, env, paths[k]))
  }

  /** Runs `commands` in order and stops at the first one that fails, returning its error. */
  function RunUntilFailure(commands: seq<Command>, exec: Command -> Option<string>): Decrypted {
    if commands == [] then Decrypted(None, [])
    else
      var failure := exec(commands[0]);
      if failure.Some? then Decrypted(failure, [commands[0]])
      else
        var rest := RunUntilFailure(commands[1..], exec);
        Decrypted(rest.err, [commands[0]] + rest.ran)
  }

  /** The decrypt loop over `paths`. */
  function DecryptAll(cfg: Config, env: seq<string>, paths: seq<string>, exec: Command -> Option<string>): Decrypted {
    RunUntilFailure(DecryptCommands(cfg, env, paths), exec)
  }

  /**
   * The commands run are a prefix of the given ones; the last one run is the
   * first that fails and its error is returned; no error means every command
   * ran and succeeded.
   */
  lemma {:induction false} RunUntilFailureSpec(commands: seq<Command>, exec: Command -> Option<string>)
    ensures var r := RunUntilFailure(commands, exec);
      && r.ran <= commands
      && (r.err.None? ==> r.ran == commands && forall k :: 0 <= k < |r.ran| ==> exec(r.ran[k]).None?)
      && (r.err.Some? ==>
            && |r.ran| > 0 && exec(r.ran[|r.ran| - 1]) == r.err
            && forall k :: 0 <= k < |r.ran| - 1 ==> exec(r.ran[k]).None?)
  {
    if commands != [] && exec(commands[0]).None? {
      RunUntilFailureSpec(commands[1..], exec);
      var rest := RunUntilFailure(commands[1..], exec);
      var r := RunUntilFailure(commands, exec);
      assert r.ran == [commands[0]] + rest.ran;
      assert commands == [commands[0]] + commands[1..];
      forall k | 1 <= k < |r.ran|
        ensures r.ran[k] == rest.ran[k - 1]
      {
      }
    }
  }

  /**
   * `sopsDecrypt`'s loop decrypts the collected files in order, each with
   * its own command, stops at the first failure and returns its error; no
   * error means every collected file was decrypted.
   */
  lemma DecryptAllSpec(cfg: Config, env: seq<string>, paths: seq<string>, exec: Command -> Option<string>)
    ensures var r := DecryptAll(cfg, env, paths, exec);
      && |r.ran| <= |paths|
      && (forall k :: 0 <= k < |r.ran| ==> r.ran[k] == DecryptCommand(cfg, env, paths[k]))
      && (r.err.None? ==> |r.ran| == |paths| && forall k :: 0 <= k < |r.ran| ==> exec(r.ran[k]).None?)
      && (r.err.Some? ==>
            && |r.ran| > 0 && exec(r.ran[|r.ran| - 1]) == r.err
            && forall k :: 0 <= k < |r.ran| - 1 ==> exec(r.ran[k]).None?)
  {
    var commands := DecryptCommands(cfg, env, paths);
    RunUntilFailureSpec(commands, exec);
    var r := RunUntilFailure(commands, exec);
    assert |commands| == |paths|;
    forall k | 0 <= k < |r.ran| ensures r.ran[k] == DecryptCommand(cfg, env, paths[k]) {
      assert r.ran[k] == commands[k];
    }
  }

  /**
   * `sopsDecrypt` with the walk replaced by `entries` and process outcomes by
   * `exec`: it walks the root folders `findRootPaths` returns, as written
   * (see `SiblingSopsFileMissed` for the files this misses).
   */
  method SopsDecrypt(cfg: Config, composeFilePaths: seq<string>, env: seq<string>,
                     entries: seq<WalkEntry>, exec: Command -> Option<string>)
    returns (err: Option<string>, ran: seq<Command>)
    ensures Decrypted(err, ran) == DecryptAll(cfg, env, CollectSops(RootPaths(composeFilePaths), entries), exec)
  {
    var roots := FindRootPaths(composeFilePaths);
    var sopsFilePaths := WalkRoots(roots, entries);
    err, ran := DecryptFiles(cfg, env, sopsFilePaths, exec);
  }

  /**
   * The corrected `sopsDecrypt`: the same walk and decrypt loop over the
   * corrected root folders, which reach every compose file's folder (see
   * `CorrectedDecryptReachesSops`).
   */
  method SopsDecryptCorrected(cfg: Config, composeFilePaths: seq<string>, env: seq<string>,
                              entries: seq<WalkEntry>, exec: Command -> Option<string>)
    returns (err: Option<string>, ran: seq<Command>)
    ensures Decrypted(err, ran) == DecryptAll(cfg, env, CollectSops(RootDirs(composeFilePaths), entries), exec)
  {
    var roots := FindRootDirs(composeFilePaths);
    var sopsFilePaths := WalkRoots(roots, entries);
    err, ran := DecryptFiles(cfg, env, sopsFilePaths, exec);
  }

  /** `filepath.WalkDir` over every root, root by root. */
  method WalkRoots(roots: seq<string>, entries: seq<WalkEntry>) returns (sopsFilePaths: seq<string>)
    ensures sopsFilePaths == CollectSops(roots, entries)
  {
    sopsFilePaths := [];
    var r := 0;
    while r < |roots|
      invariant 0 <= r <= |roots|
      invariant sopsFilePaths == CollectSops(roots[..r], entries)
    {
      assert roots[..r + 1][..r] == roots[..r];
      var found := WalkRoot(roots[r], entries);
      sopsFilePaths := sopsFilePaths + found;
      r := r + 1;
    }
    assert roots[..r] == roots;
  }

  /** One walk: the callback skips entries reported with an error and keeps non-directories named `*.sops.*`. */
  method WalkRoot(root: string, entries: seq<WalkEntry>) returns (found: seq<string>)
    ensures found == SopsUnder(root, entries)
  {
    found := [];
    var j := 0;
    while j < |entries|
      invariant 0 <= j <= |entries|
      invariant found == SopsUnder(root, entries[..j])
    {
      assert entries[..j + 1][..j] == entries[..j];
      var entry := entries[j];
      if IsUnder(entry.path, root) {
        if entry.failed {
          // a walk error is logged and the entry skipped
        } else if !entry.isDir && MatchesSopsPattern(Base(entry.path)) {
          found := found + [entry.path];
        }
      }
      j := j + 1;
    }
    assert entries[..j] == entries;
  }

  /** The decrypt loop: one `sops` run per file, returning the first error. */
  method DecryptFiles(cfg: Config, env: seq<string>, sopsFilePaths: seq<string>, exec: Command -> Option<string>)
    returns (err: Option<string>, ran: seq<Command>)
    ensures Decrypted(err, ran) == DecryptAll(cfg, env, sopsFilePaths, exec)
  {
    ghost var commands := DecryptCommands(cfg, env, sopsFilePaths);
    ghost var whole := RunUntilFailure(commands, exec);
    ran := [];
    var k := 0;
    assert commands[0..] == commands;
    while k < |sopsFilePaths|
      invariant 0 <= k <= |sopsFilePaths|
      invariant whole.err == RunUntilFailure(commands[k..], exec).err
      invariant whole.ran == ran + RunUntilFailure(commands[k..], exec).ran
    {
      var sopsFileFolderPath := Dir(sopsFilePaths[k]);
      var sopsFileName := Base(sopsFilePaths[k]);
      var outputFileName := ReplaceAll(sopsFileName, ".sops.", ".");
      var args := ["--output", outputFileName, "--decrypt", sopsFileName];
      var command := Command(SopsBinary(cfg), args, env, sopsFileFolderPath);
      assert command == commands[k..][0];
      assert commands[k..][1..] == commands[k + 1..];
      var failure := exec(command);
      if failure.Some? {
        return failure, ran + [command];
      }
      ran := ran + [command];
      k := k + 1;
    }
    err := None;
  }

  // ---------------------------------------------------------------------
  // Which files are decrypted, and how they are named

  /** Every collected path is a SOPS file the walk of one of the roots reported. */
  lemma {:induction false} CollectSopsSound(roots: seq<string>, entries: seq<WalkEntry>, p: string)
    requires p in CollectSops(roots, entries)
    ensures exists e, k :: e in entries && 0 <= k < |roots| && e.path == p && IsSopsFile(e) && IsUnder(p, roots[k])
  {
    var init := roots[..|roots| - 1];
    if p in CollectSops(init, entries) {
      CollectSopsSound(init, entries, p);
      var e, k :| e in entries && 0 <= k < |init| && e.path == p && IsSopsFile(e) && IsUnder(p, init[k]);
      assert roots[k] == init[k];
    } else {
      SopsUnderSound(roots[|roots| - 1], entries, p);
    }
  }

  lemma {:induction false} SopsUnderSound(root: string, entries: seq<WalkEntry>, p: string)
    requires p in SopsUnder(root, entries)
    ensures exists e :: e in entries && e.path == p && IsSopsFile(e) && IsUnder(p, root)
  {
    var init := entries[..|entries| - 1];
    if p in SopsUnder(root, init) {
      SopsUnderSound(root, init, p);
      var e :| e in init && e.path == p && IsSopsFile(e) && IsUnder(p, root);
      assert e in entries;
    } else {
      assert entries[|entries| - 1] in entries;
    }
  }

  /** Membership in a concatenation. */
  lemma InLeft<T>(a: seq<T>, b: seq<T>, x: T)
    requires x in a
    ensures x in a + b
  {
  }

  lemma InRight<T>(a: seq<T>, b: seq<T>, x: T)
    requires x in b
    ensures x in a + b
  {
  }

  /** Every SOPS file inside one of the roots is collected. */
  lemma CollectSopsComplete(roots: seq<string>, entries: seq<WalkEntry>, e: WalkEntry, k: nat)
    requires e in entries && IsSopsFile(e) && k < |roots| && IsUnder(e.path, roots[k])
    ensures e.path in CollectSops(roots, entries)
  {
    SopsUnderComplete(roots[k], entries, e);
    CollectSopsHas(roots, entries, e.path, k);
  }

  /** What the walk of any one root collects is collected over all roots. */
  lemma {:induction false} CollectSopsHas(roots: seq<string>, entries: seq<WalkEntry>, p: string, k: nat)
    requires k < |roots| && p in SopsUnder(roots[k], entries)
    ensures p in CollectSops(roots, entries)
  {
    var init := roots[..|roots| - 1];
    var last := SopsUnder(roots[|roots| - 1], entries);
    assert CollectSops(roots, entries) == CollectSops(init, entries) + last;
    if k < |init| {
      assert init[k] == roots[k];
      CollectSopsHas(init, entries, p, k);
      InLeft(CollectSops(init, entries), last, p);
    } else {
      assert k == |roots| - 1;
      InRight(CollectSops(init, entries), last, p);
    }
  }


  lemma {:induction false} SopsUnderComplete(root: string, entries: seq<WalkEntry>, e: WalkEntry)
    requires e in entries && IsSopsFile(e) && IsUnder(e.path, root)
    ensures e.path in SopsUnder(root, entries)
  {
    var init := entries[..|entries| - 1];
    if e != entries[|entries| - 1] {
      assert entries == init + [entries[|entries| - 1]];
      SopsUnderComplete(root, init, e);
    }
  }

  /** `name.sops.ext` decrypts to `name.ext` when the name and extension hold no dot. */
  lemma {:induction false} OutputDropsMarker(stem: string, ext: string)
    requires '.' !in stem && '.' !in ext
    ensures OutputFileName(stem + ".sops." + ext) == stem + "." + ext
  {
    var s := stem + ".sops." + ext;
    if stem == [] {
      assert s == ".sops." + ext && HasPrefix(s, ".sops.");
      assert s[6..] == ext;
      NoCharNoContains(ext, ".sops.", '.');
      ReplaceAllAbsent(ext, ".sops.", ".");
    } else {
      assert !HasPrefix(s, ".sops.") by {
        assert s[0] == stem[0] != '.';
      }
      assert s[1..] == stem[1..] + ".sops." + ext;
      OutputDropsMarker(stem[1..], ext);
      assert stem == [stem[0]] + stem[1..];
    }
  }

  /** The decrypted file never has the encrypted file's name: decryption does not overwrite its input. */
  lemma OutputNameDiffers(e: WalkEntry)
    requires IsSopsFile(e)
    ensures |OutputFileName(Base(e.path))| < |Base(e.path)|
  {
    ReplaceAllShrinks(Base(e.path), ".sops.", ".");
  }

  // ---------------------------------------------------------------------
  // The consequence of the string-prefix reduction

  /**
   * With compose files in `/a/x` and `/a/xy` and a SOPS file in `/a/xy`, the
   * as-written roots never reach the SOPS file, while the corrected roots do.
   */
  lemma SiblingSopsFileMissed()
    ensures var files, entries := ["/a/x/f", "/a/xy/f"], [WalkEntry("/a/xy/s.sops.env", false, false)];
      && IsSopsFile(entries[0]) && IsUnder(entries[0].path, Dir(files[1]))
      && CollectSops(RootPaths(files), entries) == []
      && CollectSops(RootDirs(files), entries) == ["/a/xy/s.sops.env"]
  {
    var e := WalkEntry("/a/xy/s.sops.env", false, false);
    StringPrefixDropsSibling();
    RootDirsKeepsSibling();
    SiblingEntry();
    SopsUnderSingle("/a/x", e);
    SopsUnderSingle("/a/xy", e);
    CollectSopsPair("/a/x", "/a/xy", [e]);
    assert CollectSops(["/a/x"], [e]) == [] by {
      assert ["/a/x"][..0] == [];
    }
  }

  /** A walk reporting one entry collects it exactly when it is a SOPS file under the root. */
  lemma SopsUnderSingle(root: string, e: WalkEntry)
    ensures SopsUnder(root, [e]) == if IsUnder(e.path, root) && IsSopsFile(e) then [e.path] else []
  {
    assert [e][..0] == [];
  }

  /** Two roots collect the first root's files, then the second's. */
  lemma CollectSopsPair(r0: string, r1: string, entries: seq<WalkEntry>)
    ensures CollectSops([r0, r1], entries) == SopsUnder(r0, entries) + SopsUnder(r1, entries)
  {
    var first := SopsUnder(r0, entries);
    assert [r0][..0] == [];
    assert CollectSops([r0], entries) == CollectSops([], entries) + first;
    assert CollectSops([r0], entries) == first;
    assert [r0, r1][..1] == [r0];
    assert CollectSops([r0, r1], entries) == CollectSops([r0], entries) + SopsUnder(r1, entries);
  }

  /** The SOPS file of the example lies in `/a/xy` and not in `/a/x`. */
  lemma SiblingEntry()
    ensures IsSopsFile(WalkEntry("/a/xy/s.sops.env", false, false))
    ensures IsUnder("/a/xy/s.sops.env", "/a/xy") && !IsUnder("/a/xy/s.sops.env", "/a/x")
  {
    SiblingBase();
    SiblingUnder();
  }

  lemma SiblingBase()
    ensures Base("/a/xy/s.sops.env") == "s.sops.env" && MatchesSopsPattern("s.sops.env")
  {
    LastIndexAt("/a/xy/s.sops.env", '/', 5);
    assert Contains("s.sops.env", ".sops.") by {
      assert HasPrefix("s.sops.env"[1..], ".sops.");
    }
  }

  lemma SiblingUnder()
    ensures IsUnder("/a/xy/s.sops.env", "/a/xy") && !IsUnder("/a/xy/s.sops.env", "/a/x")
  {
    var p := "/a/xy/s.sops.env";
    assert Slashed("/a/xy") == "/a/xy/";
    assert Slashed("/a/x") == "/a/x/" && p[4] != '/';
  }

  /**
   * With the corrected roots, every SOPS file inside the folder of some
   * compose file is collected.
   */
  lemma CorrectedRootsReachSops(filePaths: seq<string>, entries: seq<WalkEntry>, e: WalkEntry, i: nat)
    requires i < |filePaths| && e in entries && IsSopsFile(e) && IsUnder(e.path, Dir(filePaths[i]))
    ensures e.path in CollectSops(RootDirs(filePaths), entries)
  {
    RootDirsSpec(filePaths);
    var roots := RootDirs(filePaths);
    var k :| 0 <= k < |roots| && IsUnder(Dir(filePaths[i]), roots[k]);
    UnderTrans(e.path, Dir(filePaths[i]), roots[k]);
    CollectSopsComplete(roots, entries, e, k);
  }

  /**
   * What `sopsDecrypt` guarantees, as written: a successful decryption has
   * decrypted every SOPS file the walk reports inside one of the root
   * folders `findRootPaths` returns, each in its own folder.
   */
  lemma DecryptReachesSops(cfg: Config, composeFilePaths: seq<string>, env: seq<string>,
                           entries: seq<WalkEntry>, exec: Command -> Option<string>, e: WalkEntry, k: nat)
    requires k < |RootPaths(composeFilePaths)| && e in entries && IsSopsFile(e) && IsUnder(e.path, RootPaths(composeFilePaths)[k])
    requires DecryptAll(cfg, env, CollectSops(RootPaths(composeFilePaths), entries), exec).err.None?
    ensures DecryptCommand(cfg, env, e.path) in DecryptAll(cfg, env, CollectSops(RootPaths(composeFilePaths), entries), exec).ran
  {
    var paths := CollectSops(RootPaths(composeFilePaths), entries);
    CollectSopsComplete(RootPaths(composeFilePaths), entries, e, k);
    DecryptAllSpec(cfg, env, paths, exec);
    var j :| 0 <= j < |paths| && paths[j] == e.path;
    assert DecryptAll(cfg, env, paths, exec).ran[j] == DecryptCommand(cfg, env, e.path);
  }

  /**
   * `sopsDecrypt` decrypts nothing but SOPS files: every command it runs
   * decrypts a SOPS file the walk reported inside one of the root folders.
   */
  lemma DecryptOnlySops(cfg: Config, composeFilePaths: seq<string>, env: seq<string>,
                        entries: seq<WalkEntry>, exec: Command -> Option<string>, j: nat)
    requires j < |DecryptAll(cfg, env, CollectSops(RootPaths(composeFilePaths), entries), exec).ran|
    ensures exists e, k ::
      && e in entries && IsSopsFile(e) && 0 <= k < |RootPaths(composeFilePaths)|
      && IsUnder(e.path, RootPaths(composeFilePaths)[k])
      && DecryptAll(cfg, env, CollectSops(RootPaths(composeFilePaths), entries), exec).ran[j] == DecryptCommand(cfg, env, e.path)
  {
    var roots := RootPaths(composeFilePaths);
    var paths := CollectSops(roots, entries);
    DecryptAllSpec(cfg, env, paths, exec);
    CollectSopsSound(roots, entries, paths[j]);
  }

  /**
   * The corrected half of the finding in `SiblingSopsFileMissed`: a
   * successful corrected decryption has decrypted every SOPS file lying in
   * the folder of a compose file, or below it.
   */
  lemma CorrectedDecryptReachesSops(cfg: Config, composeFilePaths: seq<string>, env: seq<string>,
                                    entries: seq<WalkEntry>, exec: Command -> Option<string>, e: WalkEntry, i: nat)
    requires i < |composeFilePaths| && e in entries && IsSopsFile(e) && IsUnder(e.path, Dir(composeFilePaths[i]))
    requires DecryptAll(cfg, env, CollectSops(RootDirs(composeFilePaths), entries), exec).err.None?
    ensures DecryptCommand(cfg, env, e.path) in DecryptAll(cfg, env, CollectSops(RootDirs(composeFilePaths), entries), exec).ran
  {
    var paths := CollectSops(RootDirs(composeFilePaths), entries);
    CorrectedRootsReachSops(composeFilePaths, entries, e, i);
    DecryptAllSpec(cfg, env, paths, exec);
    var k :| 0 <= k < |paths| && paths[k] == e.path;
    assert DecryptAll(cfg, env, paths, exec).ran[k] == DecryptCommand(cfg, env, e.path);
  }
}
