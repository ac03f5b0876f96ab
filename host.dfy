/**
 * The host the commands act on. The outside world (processes, the git
 * server, the compose library, the swarm manager, the directory walk) is a
 * `World` of answers fixed in advance; the host's own state is the set of
 * directories present in the workspace and the trace of every external
 * effect, in the order the commands cause them.
 */
module Host {
  import opened Wrappers
  import opened Paths
  import opened Process
  import opened Workspace
  import opened Sops

  /** `git.CloneOptions` as the commands fill it in. */
  datatype CloneOptions = CloneOptions(url: string, reference: string, auth: Option<BasicAuth>, depth: nat, insecureSkipTLS: bool)

  /** `libstack.DeployOptions`: working directory, project name, environment and the force-recreate flag. */
  datatype DeployOptions = DeployOptions(workingDir: string, projectName: string, env: seq<string>, forceRecreate: bool)

  /** One external effect. */
  datatype Effect =
    | Exec(command: Command)                        // runCommandAndCaptureStdErr
    | RemoveAll(path: string)                       // os.RemoveAll
    | MkdirAll(path: string)                        // os.MkdirAll
    | Clone(path: string, cloneOptions: CloneOptions)// git.PlainCloneContext
    | NewComposeDeployer                            // compose.NewComposeDeployer
    | ComposeDeploy(files: seq<string>, deployOptions: DeployOptions)
    | ComposeRemove(projectName: string)
    | CheckRunningService(projectName: string)
    | DeploySwarmStack(projectName: string, clonePath: string)
    | UpdateService(serviceID: string)

  /**
   * The answers of the outside world: the captured stderr of every failing
   * process, which workspace calls fail, the outcome of the library calls,
   * the entries the directory walk reports, and the two service listings
   * of a swarm deployment. A failing `os.RemoveAll` removes what it can
   * before returning its error: `removeAllSpares` holds the directories it
   * could not remove.
   */
  datatype World = World(
    exec: Command -> Option<string>,
    removeAllFails: bool,
    removeAllSpares: set<string>,
    mkdirAllFails: bool,
    cloneFails: bool,
    newDeployerFails: bool,
    deployFails: bool,
    removeStackFails: bool,
    walk: seq<WalkEntry>,
    servicesBefore: Result<seq<string>, string>,
    servicesAfter: Result<seq<string>, string>,
    swarmDeploy: Option<string>)

  /** The directories left after removing `path` and everything below it. */
  function RemovedUnder(dirs: set<string>, path: string): (r: set<string>)
  {
    set d | d in dirs && !IsUnder(d, path)
  }

  /** The directories left after a failed removal of `path`: those outside it, and those inside it it spared. */
  function PartlyRemoved(dirs: set<string>, path: string, spared: set<string>): set<string>
  {
    set d | d in dirs && (!IsUnder(d, path) || d in spared)
  }

  /**
   * A failed removal leaves at least what a successful one leaves and at
   * most what was there; every set in between is the outcome of some
   * failure.
   */
  lemma PartlyRemovedBounds(dirs: set<string>, path: string, spared: set<string>)
    ensures RemovedUnder(dirs, path) <= PartlyRemoved(dirs, path, spared) <= dirs
    ensures forall left :: RemovedUnder(dirs, path) <= left <= dirs ==> PartlyRemoved(dirs, path, left) == left
  {
  }

  /** One `Exec` effect per command, in order. */
  function Execs(commands: seq<Command>): seq<Effect> {
    if commands == [] then [] else Execs(commands[..|commands| - 1]) + [Exec(commands[|commands| - 1])]
  }

  /** One `UpdateService` effect per identifier, in order. */
  function Updates(ids: seq<string>): seq<Effect> {
    if ids == [] then [] else Updates(ids[..|ids| - 1]) + [UpdateService(ids[|ids| - 1])]
  }

  /** The host: the world's answers, the workspace directories and the effect trace. */
  class Machine {
    const world: World
    var dirs: set<string>
    var trace: seq<Effect>

    constructor (world: World, dirs: set<string>)
      ensures this.world == world && this.dirs == dirs && trace == []
    {
      this.world := world;
      this.dirs := dirs;
      trace := [];
    }

    /** Records commands that ran outside the host's own calls (the login, logout and decrypt loops). */
    method Ran(commands: seq<Command>)
      modifies this
      ensures trace == old(trace) + Execs(commands) && dirs == old(dirs)
    {
      trace := trace + Execs(commands);
    }

    /** `runCommandAndCaptureStdErr`: the captured stderr when the process fails. */
    method Exec(command: Command) returns (failure: Option<string>)
      modifies this
      ensures failure == world.exec(command)
      ensures trace == old(trace) + [Effect.Exec(command)] && dirs == old(dirs)
    {
      failure := world.exec(command);
      trace := trace + [Effect.Exec(command)];
    }

    /** `os.Stat(path) == nil`: something exists at `path`. */
    function Exists(path: string): bool
      reads this
    {
      path in dirs
    }

    /**
     * `os.RemoveAll`: on success nothing at or below `path` is left; on
     * failure part of it may be gone, and nothing outside it is touched.
     */
    method RemoveAll(path: string) returns (ok: bool)
      modifies this
      ensures ok == !world.removeAllFails
      ensures dirs == if ok then RemovedUnder(old(dirs), path) else PartlyRemoved(old(dirs), path, world.removeAllSpares)
      ensures trace == old(trace) + [Effect.RemoveAll(path)]
    {
      ok := !world.removeAllFails;
      if ok {
        dirs := RemovedUnder(dirs, path);
      } else {
        dirs := PartlyRemoved(dirs, path, world.removeAllSpares);
      }
      trace := trace + [Effect.RemoveAll(path)];
    }

    /** `os.MkdirAll`: on success the directory exists. */
    method MkdirAll(path: string) returns (ok: bool)
      modifies this
      ensures ok == !world.mkdirAllFails
      ensures dirs == if ok then old(dirs) + {path} else old(dirs)
      ensures trace == old(trace) + [Effect.MkdirAll(path)]
    {
      ok := !world.mkdirAllFails;
      if ok {
        dirs := dirs + {path};
      }
      trace := trace + [Effect.MkdirAll(path)];
    }

    /** `git.PlainCloneContext`: on success the clone directory exists. */
    method Clone(path: string, options: CloneOptions) returns (ok: bool)
      modifies this
      ensures ok == !world.cloneFails
      ensures dirs == if ok then old(dirs) + {path} else old(dirs)
      ensures trace == old(trace) + [Effect.Clone(path, options)]
    {
      ok := !world.cloneFails;
      if ok {
        dirs := dirs + {path};
      }
      trace := trace + [Effect.Clone(path, options)];
    }

    /** `compose.NewComposeDeployer(BIN_PATH, PORTAINER_DOCKER_CONFIG_PATH)`. */
    method NewComposeDeployer() returns (ok: bool)
      modifies this
      ensures ok == !world.newDeployerFails
      ensures trace == old(trace) + [Effect.NewComposeDeployer] && dirs == old(dirs)
    {
      ok := !world.newDeployerFails;
      trace := trace + [Effect.NewComposeDeployer];
    }

    /** `deployer.Deploy`. */
    method ComposeDeploy(files: seq<string>, options: DeployOptions) returns (ok: bool)
      modifies this
      ensures ok == !world.deployFails
      ensures trace == old(trace) + [Effect.ComposeDeploy(files, options)] && dirs == old(dirs)
    {
      ok := !world.deployFails;
      trace := trace + [Effect.ComposeDeploy(files, options)];
    }

    /** `deployer.Remove`. */
    method ComposeRemove(projectName: string) returns (ok: bool)
      modifies this
      ensures ok == !world.removeStackFails
      ensures trace == old(trace) + [Effect.ComposeRemove(projectName)] && dirs == old(dirs)
    {
      ok := !world.removeStackFails;
      trace := trace + [Effect.ComposeRemove(projectName)];
    }

    /** `checkRunningService`, first (`before`) or second call: the service identifiers, or an error. */
    method CheckRunningService(projectName: string, before: bool) returns (ids: Result<seq<string>, string>)
      modifies this
      ensures ids == if before then world.servicesBefore else world.servicesAfter
      ensures trace == old(trace) + [Effect.CheckRunningService(projectName)] && dirs == old(dirs)
    {
      ids := if before then world.servicesBefore else world.servicesAfter;
      trace := trace + [Effect.CheckRunningService(projectName)];
    }

    /** `deploySwarmStack`: its error, if any. */
    method DeploySwarmStack(projectName: string, clonePath: string) returns (failure: Option<string>)
      modifies this
      ensures failure == world.swarmDeploy
      ensures trace == old(trace) + [Effect.DeploySwarmStack(projectName, clonePath)] && dirs == old(dirs)
    {
      failure := world.swarmDeploy;
      trace := trace + [Effect.DeploySwarmStack(projectName, clonePath)];
    }

    /** `updateService`; its error is discarded by the caller, so it is not modelled. */
    method UpdateService(serviceID: string)
      modifies this
      ensures trace == old(trace) + [Effect.UpdateService(serviceID)] && dirs == old(dirs)
    {
      trace := trace + [Effect.UpdateService(serviceID)];
    }
  }
}
