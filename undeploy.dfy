/**
 * `UndeployCommand.Run` and `SwarmUndeployCommand.Run`: remove the stack,
 * then, for a stop request (no `Keep`), remove the project folder; a failure
 * of that last removal is logged and does not fail the command.
 */
module Undeploy {
  import opened Wrappers
  import opened Strings
  import opened Paths
  import opened Process
  import opened Workspace
  import opened Host
  import opened Deploy

  /** The fields of `UndeployCommand` (the swarm command has no repository URL and ignores it). */
  datatype UndeployRequest = UndeployRequest(gitRepository: string, destination: string, projectName: string, keep: bool)

  function UndeployMountPath(req: UndeployRequest): string {
    MakeWorkingDir(req.destination, req.projectName)
  }

  /** The removal of the project folder of a stop request; it never fails the command. */
  function CleanupSpec(w: World, dirs: set<string>, mountPath: string, keep: bool): Outcome {
    if keep then Outcome(None, [], dirs)
    else Outcome(None, [RemoveAll(mountPath)], if w.removeAllFails then PartlyRemoved(dirs, mountPath, w.removeAllSpares) else RemovedUnder(dirs, mountPath))
  }

  /** Lines 45-51 and 74-80: `os.RemoveAll(mountPath)` unless `Keep`, its error only logged. */
  method Cleanup(mountPath: string, keep: bool, h: Machine) returns (err: Option<Error>)
    modifies h
    ensures var o := CleanupSpec(h.world, old(h.dirs), mountPath, keep);
      err == o.err && h.trace == old(h.trace) + o.effects && h.dirs == o.dirs
  {
    if !keep {
      // a failure is logged and otherwise ignored
      var ok := h.RemoveAll(mountPath);
    }
    err := None;
  }

  /** `UndeployCommand.Run`: validate the URL, remove the compose stack, clean up. */
  function UndeploySpec(w: World, dirs: set<string>, req: UndeployRequest): Outcome {
    if '/' !in req.gitRepository then Outcome(Failed, [], dirs)
    else if w.removeStackFails then Outcome(Failed, [ComposeRemove(req.projectName)], dirs)
    else
      var cleanup := CleanupSpec(w, dirs, UndeployMountPath(req), req.keep);
      Outcome(None, [ComposeRemove(req.projectName)] + cleanup.effects, cleanup.dirs)
  }

  method UndeployRun(req: UndeployRequest, h: Machine) returns (err: Option<Error>)
    modifies h
    ensures var o := UndeploySpec(h.world, old(h.dirs), req);
      err == o.err && h.trace == old(h.trace) + o.effects && h.dirs == o.dirs
  {
    if LastIndex(req.gitRepository, '/') == -1 {
      return Failed;
    }
    var mountPath := MakeWorkingDir(req.destination, req.projectName);
    // compose.NewComposeDeployer() cannot fail in this version of the library
    var ok := h.ComposeRemove(req.projectName);
    if !ok {
      return Failed;
    }
    err := Cleanup(mountPath, req.keep, h);
  }

  /** `docker stack rm <project>`, run from the caller's directory with no extra environment. */
  function StackRemoveCommand(cfg: Config, projectName: string): Command
  {
    Command(DockerBinary(cfg), ["stack", "rm", projectName], [], "")
  }

  /**
   * The swarm removal runs the docker binary of `BIN_PATH` on `stack rm`
   * and the project name alone, so it removes the stack of that project
   * and no other.
   */
  lemma StackRemoveCommandRunsDocker(cfg: Config, projectName: string, other: string)
    ensures var command := StackRemoveCommand(cfg, projectName);
      && Base(command.binary) == (if cfg.windows then "docker.exe" else "docker")
      && (cfg.binPath != "" ==> IsUnder(command.binary, cfg.binPath))
      && command.args[..2] == ["stack", "rm"] && command.args[|command.args| - 1] == projectName
      && (StackRemoveCommand(cfg, other) == command <==> other == projectName)
  {
    DockerBinaryFound(cfg);
  }

  /** `SwarmUndeployCommand.Run`: remove the swarm stack, clean up. */
  function SwarmUndeploySpec(cfg: Config, w: World, dirs: set<string>, req: UndeployRequest): Outcome {
    var command := StackRemoveCommand(cfg, req.projectName);
    match w.exec(command)
    case Some(stderr) => Outcome(Some(External(stderr)), [Exec(command)], dirs)
    case None =>
      var cleanup := CleanupSpec(w, dirs, UndeployMountPath(req), req.keep);
      Outcome(None, [Exec(command)] + cleanup.effects, cleanup.dirs)
  }

  method SwarmUndeployRun(cfg: Config, req: UndeployRequest, h: Machine) returns (err: Option<Error>)
    modifies h
    ensures var o := SwarmUndeploySpec(cfg, h.world, old(h.dirs), req);
      err == o.err && h.trace == old(h.trace) + o.effects && h.dirs == o.dirs
  {
    var command := StackRemoveCommand(cfg, req.projectName);
    var failure := h.Exec(command);
    if failure.Some? {
      return Some(External(failure.value));
    }
    var mountPath := MakeWorkingDir(req.destination, req.projectName);
    err := Cleanup(mountPath, req.keep, h);
  }

  // ---------------------------------------------------------------------
  // What the two undeployments promise

  /**
   * After the cleanup of a stop request whose removal succeeded nothing is
   * left at or below the project folder; a failed removal may have removed
   * part of it; an update request (`Keep`) leaves the workspace as it was.
   * Only directories at or below the project folder are ever removed.
   */
  lemma CleanupSpecRemoves(w: World, dirs: set<string>, mountPath: string, keep: bool)
    ensures var o := CleanupSpec(w, dirs, mountPath, keep);
      && o.err == None
      && o.dirs <= dirs
      && (forall d :: d in dirs && !IsUnder(d, mountPath) ==> d in o.dirs)
      && (!keep && !w.removeAllFails ==> forall d :: d in o.dirs ==> !IsUnder(d, mountPath))
      && (keep ==> o.dirs == dirs)
      && (!keep && w.removeAllFails ==> RemovedUnder(dirs, mountPath) <= o.dirs)
  {
  }

  /**
   * `UndeployCommand.Run` returns nothing or the deployment failure; it
   * succeeds exactly when the URL has a `/` and the stack removal succeeds,
   * whatever happens to the project folder; a failure leaves the workspace
   * as it was, and an invalid URL fails before anything happens.
   */
  lemma UndeployOutcome(w: World, dirs: set<string>, req: UndeployRequest)
    ensures var o := UndeploySpec(w, dirs, req);
      && o.err in {None, Failed}
      && (o.err == None <==> '/' in req.gitRepository && !w.removeStackFails)
      && ('/' !in req.gitRepository ==> o.effects == [])
      && (o.err != None ==> o.dirs == dirs)
      && (o.err == None ==> o.effects[0] == ComposeRemove(req.projectName))
      && (o.err == None && !req.keep ==> o.effects == [ComposeRemove(req.projectName), RemoveAll(UndeployMountPath(req))])
      && (o.err == None && req.keep ==> o.effects == [ComposeRemove(req.projectName)] && o.dirs == dirs)
  {
  }

  /**
   * `SwarmUndeployCommand.Run` fails exactly when `docker stack rm` does,
   * with that command's stderr and before the cleanup; otherwise it succeeds
   * whatever happens to the project folder.
   */
  lemma SwarmUndeployOutcome(cfg: Config, w: World, dirs: set<string>, req: UndeployRequest)
    ensures var o := SwarmUndeploySpec(cfg, w, dirs, req);
      var command := StackRemoveCommand(cfg, req.projectName);
      && (o.err == None <==> w.exec(command) == None)
      && (o.err != None ==> o == Outcome(Some(External(w.exec(command).value)), [Exec(command)], dirs))
      && (o.err == None ==> o.effects[0] == Exec(command))
      && (o.err == None && !req.keep ==> o.effects == [Exec(command), RemoveAll(UndeployMountPath(req))])
      && (o.err == None && req.keep ==> o.effects == [Exec(command)] && o.dirs == dirs)
  {
  }

  /** Once their stacks are removed, both undeployments clean the workspace up the same way. */
  lemma UndeploymentsAgree(cfg: Config, w: World, dirs: set<string>, req: UndeployRequest)
    requires UndeploySpec(w, dirs, req).err == None && SwarmUndeploySpec(cfg, w, dirs, req).err == None
    ensures UndeploySpec(w, dirs, req).dirs == SwarmUndeploySpec(cfg, w, dirs, req).dirs
    ensures UndeploySpec(w, dirs, req).effects[1..] == SwarmUndeploySpec(cfg, w, dirs, req).effects[1..]
  {
    var cleanup := CleanupSpec(w, dirs, UndeployMountPath(req), req.keep);
    assert ([ComposeRemove(req.projectName)] + cleanup.effects)[1..] == cleanup.effects;
    assert ([Exec(StackRemoveCommand(cfg, req.projectName))] + cleanup.effects)[1..] == cleanup.effects;
  }

  /**
   * A stop request undoes a create request of the same project: after a
   * successful compose deployment and an undeployment whose removals
   * succeed, neither the project folder nor the clone is left. The
   * repository name must be one clean path element: a URL ending in `/..`
   * puts the clone, once `path.Join` cleans it, outside the project folder.
   */
  lemma UndeployRemovesDeployment(cfg: Config, w: World, dirs: set<string>, req: Request, w2: World, gitRepository: string)
    requires RepositoryName(req.gitRepository).Some? && Element(RepositoryName(req.gitRepository).value) && !req.keep
    requires DeploySpec(cfg, w, dirs, req).err == None
    requires '/' in gitRepository && !w2.removeStackFails && !w2.removeAllFails
    ensures var deployed := DeploySpec(cfg, w, dirs, req).dirs;
      var undeployed := UndeploySpec(w2, deployed, UndeployRequest(gitRepository, req.destination, req.projectName, false)).dirs;
      && MountPath(req) in deployed && ClonePath(req) in deployed
      && MountPath(req) !in undeployed && ClonePath(req) !in undeployed
  {
    var mountPath, clonePath := MountPath(req), ClonePath(req);
    var deployed := DeploySpec(cfg, w, dirs, req).dirs;
    ComposeOutcome(cfg, w, dirs, req);
    ComposeWorkspaceEffects(cfg, w, dirs, req);
    PrepareSpecFresh(w, dirs, mountPath, clonePath, CloneOptionsOf(req, ComposeCloneDepth));
    var stacks := JoinPath(req.destination, "stacks");
    assert stacks != "";
    assert mountPath != "";
    JoinIsUnder(mountPath, RepositoryName(req.gitRepository).value);
    CleanupSpecRemoves(w2, deployed, mountPath, false);
  }
}
