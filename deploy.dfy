/**
 * `DeployCommand.Run` and `SwarmDeployCommand.Run`: log in to the
 * registries, derive the repository name and the working directories,
 * prepare the workspace of a create request (remove, recreate, clone),
 * decrypt the SOPS files and deploy; the logout is deferred and runs after
 * everything else, whatever the outcome. Each command is a method over a
 * `Machine` proved equal to a specification function of the world's
 * answers, about which the properties are lemmas.
 */
module Deploy {
  import opened Wrappers
  import opened Strings
  import opened Paths
  import opened Process
  import opened Workspace
  import opened Registry
  import opened Roots
  import opened Sops
  import opened Swarm
  import opened Host
  import opened Traces

  /** The fields of `DeployCommand` and `SwarmDeployCommand`. */
  datatype Request = Request(
    gitRepository: string,
    reference: string,
    composeRelativeFilePaths: seq<string>,
    destination: string,
    projectName: string,
    env: seq<string>,
    keep: bool,
    user: string,
    password: string,
    skipTLSVerify: bool,
    registry: seq<string>)

  /** What a command leaves behind: its error, its effects in order, and the workspace directories. */
  datatype Outcome = Outcome(err: Option<Error>, effects: seq<Effect>, dirs: set<string>)

  /** History depth of the clone: a compose stack needs the last commit only, a swarm stack more. */
  const ComposeCloneDepth: nat := 1
  const SwarmCloneDepth: nat := 100

  const Failed: Option<Error> := Some(DeployComposeFailure)

  function CloneOptionsOf(req: Request, depth: nat): CloneOptions {
    CloneOptions(req.gitRepository, req.reference, GetAuth(req.user, req.password), depth, req.skipTLSVerify)
  }

  function MountPath(req: Request): string {
    MakeWorkingDir(req.destination, req.projectName)
  }

  // ---------------------------------------------------------------------
  // Workspace of a create request

  /**
   * The workspace steps of a create request: an existing mount path is
   * removed, the mount path is created, the repository is cloned into the
   * clone path; the first failing step ends them with the deployment
   * failure.
   */
  function PrepareSpec(w: World, dirs: set<string>, mountPath: string, clonePath: string, options: CloneOptions): Outcome {
    if mountPath in dirs && w.removeAllFails then Outcome(Failed, [RemoveAll(mountPath)], PartlyRemoved(dirs, mountPath, w.removeAllSpares))
    else
      var removal := if mountPath in dirs then [RemoveAll(mountPath)] else [];
      var cleared := if mountPath in dirs then RemovedUnder(dirs, mountPath) else dirs;
      if w.mkdirAllFails then Outcome(Failed, removal + [MkdirAll(mountPath)], cleared)
      else if w.cloneFails then Outcome(Failed, removal + [MkdirAll(mountPath), Clone(clonePath, options)], cleared + {mountPath})
      else Outcome(None, removal + [MkdirAll(mountPath), Clone(clonePath, options)], cleared + {mountPath, clonePath})
  }

  /** Lines 63-109 (compose) and 214-259 (swarm): remove, recreate, clone. */
  method PrepareWorkspace(h: Machine, mountPath: string, clonePath: string, options: CloneOptions) returns (err: Option<Error>)
    modifies h
    ensures var o := PrepareSpec(h.world, old(h.dirs), mountPath, clonePath, options);
      err == o.err && h.trace == old(h.trace) + o.effects && h.dirs == o.dirs
  {
    if h.Exists(mountPath) {
      var ok := h.RemoveAll(mountPath);
      if !ok {
        return Failed;
      }
    }
    var ok := h.MkdirAll(mountPath);
    if !ok {
      return Failed;
    }
    ok := h.Clone(clonePath, options);
    if !ok {
      return Failed;
    }
    err := None;
  }

  /**
   * The workspace steps happen in their fixed order and stop at the first
   * failure, which is always the deployment failure; when they succeed, an
   * existing mount path has been emptied, so nothing of an earlier
   * deployment is left below it besides the mount and clone paths.
   */
  lemma PrepareSpecOrder(w: World, dirs: set<string>, mountPath: string, clonePath: string, options: CloneOptions)
    ensures PrepareSpec(w, dirs, mountPath, clonePath, options).effects <= PrepareSteps(dirs, mountPath, clonePath, options)
    ensures PrepareSpec(w, dirs, mountPath, clonePath, options).err == None
      ==> PrepareSpec(w, dirs, mountPath, clonePath, options).effects == PrepareSteps(dirs, mountPath, clonePath, options)
    ensures PrepareSpec(w, dirs, mountPath, clonePath, options).err in {None, Failed}
  {
    var removal := if mountPath in dirs then [RemoveAll(mountPath)] else [];
    var steps := PrepareSteps(dirs, mountPath, clonePath, options);
    assert steps[..|removal|] == removal;
    assert steps[..|removal| + 1] == removal + [MkdirAll(mountPath)];
  }

  /**
   * After successful workspace steps the mount and clone paths exist, and
   * when the mount path existed before nothing else is left below it.
   */
  lemma PrepareSpecFresh(w: World, dirs: set<string>, mountPath: string, clonePath: string, options: CloneOptions)
    ensures var o := PrepareSpec(w, dirs, mountPath, clonePath, options);
      && (o.err == None ==> mountPath in o.dirs && clonePath in o.dirs)
      && (o.err == None && mountPath in dirs ==>
            forall d :: d in o.dirs && IsUnder(d, mountPath) ==> d == mountPath || d == clonePath)
  {
  }

  /** Every workspace step of a create request, in order. */
  function PrepareSteps(dirs: set<string>, mountPath: string, clonePath: string, options: CloneOptions): seq<Effect> {
    (if mountPath in dirs then [RemoveAll(mountPath)] else []) + [MkdirAll(mountPath), Clone(clonePath, options)]
  }

  /** The workspace steps as the `Keep` flag gates them: none for an update request. */
  function CreateSpec(w: World, dirs: set<string>, req: Request, mountPath: string, clonePath: string, depth: nat): Outcome {
    if req.keep then Outcome(None, [], dirs)
    else PrepareSpec(w, dirs, mountPath, clonePath, CloneOptionsOf(req, depth))
  }

  /** `if !cmd.Keep { ... }`: the workspace steps of a create request only. */
  method PrepareIfCreate(req: Request, mountPath: string, clonePath: string, depth: nat, h: Machine) returns (err: Option<Error>)
    modifies h
    ensures var o := CreateSpec(h.world, old(h.dirs), req, mountPath, clonePath, depth);
      err == o.err && h.trace == old(h.trace) + o.effects && h.dirs == o.dirs
  {
    err := None;
    if !req.keep {
      err := PrepareWorkspace(h, mountPath, clonePath, CloneOptionsOf(req, depth));
    }
  }

  /**
   * The trace of a command wrapped in the login and the deferred logout,
   * and of consecutive steps. These model nothing of the source: the
   * methods below call them to regroup their traces, which costs the
   * solver far less than proving the regrouping inline.
   */
  lemma Around(trace: seq<Effect>, login: seq<Effect>, body: seq<Effect>, logout: seq<Effect>)
    ensures trace + login + body + logout == trace + (login + body + logout)
  {
  }

  lemma Then(trace: seq<Effect>, first: seq<Effect>, second: seq<Effect>)
    ensures trace + first + second == trace + (first + second)
  {
  }

  // ---------------------------------------------------------------------
  // Decryption, shared by both deployments

  /** The root folders `findRootPaths` returns for the compose files of the clone. */
  function DecryptRoots(req: Request, clonePath: string): seq<string> {
    RootPaths(ComposePaths(clonePath, req.composeRelativeFilePaths))
  }

  /** The SOPS decryption over the compose files of the clone. */
  function DecryptSpec(cfg: Config, w: World, req: Request, clonePath: string): Decrypted {
    DecryptAll(cfg, req.env, CollectSops(DecryptRoots(req, clonePath), w.walk), w.exec)
  }

  /** Lines 119-130 and 261-272: the compose file paths and `sopsDecrypt` over them. */
  method Decrypt(cfg: Config, req: Request, clonePath: string, h: Machine) returns (failed: bool, composeFilePaths: seq<string>)
    modifies h
    ensures composeFilePaths == ComposePaths(clonePath, req.composeRelativeFilePaths)
    ensures failed == DecryptSpec(cfg, h.world, req, clonePath).err.Some?
    ensures h.trace == old(h.trace) + Execs(DecryptSpec(cfg, h.world, req, clonePath).ran) && h.dirs == old(h.dirs)
  {
    composeFilePaths := ComposeFilePaths(clonePath, req.composeRelativeFilePaths);
    assert composeFilePaths == ComposePaths(clonePath, req.composeRelativeFilePaths);
    var sopsErr, ran := SopsDecrypt(cfg, composeFilePaths, req.env, h.world.walk, h.world.exec);
    h.Ran(ran);
    failed := sopsErr.Some?;
  }

  // ---------------------------------------------------------------------
  // DeployCommand.Run

  /** Decrypting the SOPS files and deploying the compose stack from the clone. */
  function ComposeDeploySpec(cfg: Config, w: World, dirs: set<string>, req: Request, clonePath: string): Outcome {
    var decrypted := DecryptSpec(cfg, w, req, clonePath);
    if decrypted.err.Some? then Outcome(Failed, Execs(decrypted.ran), dirs)
    else
      var files := ComposePaths(clonePath, req.composeRelativeFilePaths);
      var deploy := ComposeDeploy(files, DeployOptions(clonePath, req.projectName, req.env, true));
      Outcome(if w.deployFails then Failed else None, Execs(decrypted.ran) + [deploy], dirs)
  }

  /** From the workspace steps on: prepare, create the deployer, decrypt, deploy. */
  function ComposeFromSpec(cfg: Config, w: World, dirs: set<string>, req: Request, mountPath: string, clonePath: string): Outcome {
    var prepared := CreateSpec(w, dirs, req, mountPath, clonePath, ComposeCloneDepth);
    if prepared.err.Some? then prepared
    else if w.newDeployerFails then Outcome(Failed, prepared.effects + [NewComposeDeployer], prepared.dirs)
    else
      var rest := ComposeDeploySpec(cfg, w, prepared.dirs, req, clonePath);
      Outcome(rest.err, prepared.effects + [NewComposeDeployer] + rest.effects, rest.dirs)
  }

  /** Everything `DeployCommand.Run` does between the login and the deferred logout. */
  function DeployBodySpec(cfg: Config, w: World, dirs: set<string>, req: Request): Outcome {
    match RepositoryName(req.gitRepository)
    case None => Outcome(Failed, [], dirs)
    case Some(repositoryName) =>
      var mountPath := MountPath(req);
      ComposeFromSpec(cfg, w, dirs, req, mountPath, JoinPath(mountPath, repositoryName))
  }

  /** `DeployCommand.Run`: the login commands, the body, then the deferred logout commands. */
  function DeploySpec(cfg: Config, w: World, dirs: set<string>, req: Request): Outcome {
    var body := DeployBodySpec(cfg, w, dirs, req);
    Outcome(body.err, Execs(LoginCommands(cfg, req.registry)) + body.effects + Execs(LogoutCommands(cfg, req.registry)), body.dirs)
  }

  method DeployRun(cfg: Config, req: Request, h: Machine) returns (err: Option<Error>)
    modifies h
    ensures var o := DeploySpec(cfg, h.world, old(h.dirs), req);
      err == o.err && h.trace == old(h.trace) + o.effects && h.dirs == o.dirs
  {
    ghost var body := DeployBodySpec(cfg, h.world, h.dirs, req);
    ghost var trace0 := h.trace;
    // dockerLogin always returns nil, so its error check never returns
    var loginErr, login := DockerLogin(cfg, req.registry, h.world.exec);
    h.Ran(login);
    err := DeployBody(cfg, req, h);
    Around(trace0, Execs(login), body.effects, Execs(LogoutCommands(cfg, req.registry)));
    // the deferred dockerLogout
    var logoutErr, logout := DockerLogout(cfg, req.registry, h.world.exec);
    h.Ran(logout);
  }

  method DeployBody(cfg: Config, req: Request, h: Machine) returns (err: Option<Error>)
    modifies h
    ensures var o := DeployBodySpec(cfg, h.world, old(h.dirs), req);
      err == o.err && h.trace == old(h.trace) + o.effects && h.dirs == o.dirs
  {
    var repositoryName := RepositoryName(req.gitRepository);
    if repositoryName.None? {
      return Failed;
    }
    var mountPath := MakeWorkingDir(req.destination, req.projectName);
    var clonePath := JoinPath(mountPath, repositoryName.value);
    err := ComposeFrom(cfg, req, mountPath, clonePath, h);
  }

  /** Lines 61-152 once the repository name is known. */
  method ComposeFrom(cfg: Config, req: Request, mountPath: string, clonePath: string, h: Machine) returns (err: Option<Error>)
    modifies h
    ensures var o := ComposeFromSpec(cfg, h.world, old(h.dirs), req, mountPath, clonePath);
      err == o.err && h.trace == old(h.trace) + o.effects && h.dirs == o.dirs
  {
    ghost var trace0 := h.trace;
    ghost var prepared := CreateSpec(h.world, h.dirs, req, mountPath, clonePath, ComposeCloneDepth);
    err := PrepareIfCreate(req, mountPath, clonePath, ComposeCloneDepth, h);
    if err.Some? {
      return;
    }
    var ok := h.NewComposeDeployer();
    if !ok {
      return Failed;
    }
    ghost var rest := ComposeDeploySpec(cfg, h.world, h.dirs, req, clonePath);
    err := DecryptAndDeploy(cfg, req, clonePath, h);
    Around(trace0, prepared.effects, [NewComposeDeployer], rest.effects);
  }

  /** Lines 119-152: the SOPS decryption and the deployment with `ForceRecreate: true`. */
  method DecryptAndDeploy(cfg: Config, req: Request, clonePath: string, h: Machine) returns (err: Option<Error>)
    modifies h
    ensures var o := ComposeDeploySpec(cfg, h.world, old(h.dirs), req, clonePath);
      err == o.err && h.trace == old(h.trace) + o.effects && h.dirs == o.dirs
  {
    var failed, composeFilePaths := Decrypt(cfg, req, clonePath, h);
    if failed {
      return Failed;
    }
    var ok := h.ComposeDeploy(composeFilePaths, DeployOptions(clonePath, req.projectName, req.env, true));
    if !ok {
      return Failed;
    }
    err := None;
  }

  // ---------------------------------------------------------------------
  // SwarmDeployCommand.Run

  /**
   * After the decryption: deploy the stack, and on a redeployment force the
   * update of the services that were running before and still are.
   */
  function StackDeploySpec(w: World, dirs: set<string>, req: Request, clonePath: string, running: set<string>): Outcome {
    var deployed := [DeploySwarmStack(req.projectName, clonePath)];
    if w.swarmDeploy.Some? then Outcome(Some(External(w.swarmDeploy.value)), deployed, dirs)
    else if |running| == 0 then Outcome(None, deployed, dirs)
    else
      var checked := deployed + [CheckRunningService(req.projectName)];
      match w.servicesAfter
      case Failure(e) => Outcome(Some(External(e)), checked, dirs)
      case Success(updatedServiceIDs) => Outcome(None, checked + Updates(ServicesToUpdate(updatedServiceIDs, running)), dirs)
  }

  /** After the clone: decrypt, then deploy the stack and update. */
  function SwarmTailSpec(cfg: Config, w: World, dirs: set<string>, req: Request, clonePath: string, running: set<string>): Outcome {
    var decrypted := DecryptSpec(cfg, w, req, clonePath);
    if decrypted.err.Some? then Outcome(Failed, Execs(decrypted.ran), dirs)
    else
      var rest := StackDeploySpec(w, dirs, req, clonePath, running);
      Outcome(rest.err, Execs(decrypted.ran) + rest.effects, rest.dirs)
  }

  /** From the workspace steps on, given the services running before: prepare, decrypt, deploy, update. */
  function SwarmPreparedSpec(cfg: Config, w: World, dirs: set<string>, req: Request, mountPath: string, clonePath: string, running: set<string>): Outcome {
    var prepared := CreateSpec(w, dirs, req, mountPath, clonePath, SwarmCloneDepth);
    if prepared.err.Some? then prepared
    else
      var rest := SwarmTailSpec(cfg, w, prepared.dirs, req, clonePath, running);
      Outcome(rest.err, prepared.effects + rest.effects, rest.dirs)
  }

  /** From the first service query on: record the running services, then the rest. */
  function SwarmFromSpec(cfg: Config, w: World, dirs: set<string>, req: Request, mountPath: string, clonePath: string): Outcome {
    var checked := [CheckRunningService(req.projectName)];
    match w.servicesBefore
    case Failure(e) => Outcome(Some(External(e)), checked, dirs)
    case Success(serviceIDs) =>
      var rest := SwarmPreparedSpec(cfg, w, dirs, req, mountPath, clonePath, IdSet(serviceIDs));
      Outcome(rest.err, checked + rest.effects, rest.dirs)
  }

  /** Everything `SwarmDeployCommand.Run` does between the login and the deferred logout. */
  function SwarmBodySpec(cfg: Config, w: World, dirs: set<string>, req: Request): Outcome {
    match RepositoryName(req.gitRepository)
    case None => Outcome(Failed, [], dirs)
    case Some(repositoryName) =>
      var mountPath := MountPath(req);
      SwarmFromSpec(cfg, w, dirs, req, mountPath, JoinPath(mountPath, repositoryName))
  }

  /** `SwarmDeployCommand.Run`: the login commands, the body, then the deferred logout commands. */
  function SwarmDeploySpec(cfg: Config, w: World, dirs: set<string>, req: Request): Outcome {
    var body := SwarmBodySpec(cfg, w, dirs, req);
    Outcome(body.err, Execs(LoginCommands(cfg, req.registry)) + body.effects + Execs(LogoutCommands(cfg, req.registry)), body.dirs)
  }

  method SwarmDeployRun(cfg: Config, req: Request, h: Machine) returns (err: Option<Error>)
    modifies h
    ensures var o := SwarmDeploySpec(cfg, h.world, old(h.dirs), req);
      err == o.err && h.trace == old(h.trace) + o.effects && h.dirs == o.dirs
  {
    ghost var body := SwarmBodySpec(cfg, h.world, h.dirs, req);
    ghost var trace0 := h.trace;
    // dockerLogin always returns nil, so its error check never returns
    var loginErr, login := DockerLogin(cfg, req.registry, h.world.exec);
    h.Ran(login);
    err := SwarmDeployBody(cfg, req, h);
    Around(trace0, Execs(login), body.effects, Execs(LogoutCommands(cfg, req.registry)));
    // the deferred dockerLogout
    var logoutErr, logout := DockerLogout(cfg, req.registry, h.world.exec);
    h.Ran(logout);
  }

  method SwarmDeployBody(cfg: Config, req: Request, h: Machine) returns (err: Option<Error>)
    modifies h
    ensures var o := SwarmBodySpec(cfg, h.world, old(h.dirs), req);
      err == o.err && h.trace == old(h.trace) + o.effects && h.dirs == o.dirs
  {
    var repositoryName := RepositoryName(req.gitRepository);
    if repositoryName.None? {
      return Failed;
    }
    var mountPath := MakeWorkingDir(req.destination, req.projectName);
    var clonePath := JoinPath(mountPath, repositoryName.value);
    err := SwarmFrom(cfg, req, mountPath, clonePath, h);
  }

  /** Lines 191-295 once the repository name is known. */
  method SwarmFrom(cfg: Config, req: Request, mountPath: string, clonePath: string, h: Machine) returns (err: Option<Error>)
    modifies h
    ensures var o := SwarmFromSpec(cfg, h.world, old(h.dirs), req, mountPath, clonePath);
      err == o.err && h.trace == old(h.trace) + o.effects && h.dirs == o.dirs
  {
    ghost var trace0 := h.trace;
    // record the services running before the deployment
    var serviceIDs := h.CheckRunningService(req.projectName, true);
    if serviceIDs.Failure? {
      return Some(External(serviceIDs.error));
    }
    var runningServices, forceUpdate := RecordRunning(serviceIDs.value);
    ghost var trace1 := h.trace;
    ghost var rest := SwarmPreparedSpec(cfg, h.world, h.dirs, req, mountPath, clonePath, runningServices);
    err := SwarmPrepared(cfg, req, mountPath, clonePath, runningServices, forceUpdate, h);
    Then(trace0, [CheckRunningService(req.projectName)], rest.effects);
  }

  /** Lines 200-212: the set of running services, and whether the deployment is a redeployment. */
  method RecordRunning(serviceIDs: seq<string>) returns (runningServices: set<string>, forceUpdate: bool)
    ensures runningServices == IdSet(serviceIDs)
    ensures forceUpdate <==> |runningServices| > 0
    ensures forceUpdate <==> serviceIDs != []
  {
    runningServices := RunningServices(serviceIDs);
    assert runningServices == IdSet(serviceIDs);
    forceUpdate := false;
    if |runningServices| > 0 {
      forceUpdate := true;
    }
    ForceUpdateIffRunning(serviceIDs);
  }

  /** Lines 214-295: the workspace steps, the decryption, the deployment and the update. */
  method SwarmPrepared(cfg: Config, req: Request, mountPath: string, clonePath: string,
                       runningServices: set<string>, forceUpdate: bool, h: Machine) returns (err: Option<Error>)
    requires forceUpdate <==> |runningServices| > 0
    modifies h
    ensures var o := SwarmPreparedSpec(cfg, h.world, old(h.dirs), req, mountPath, clonePath, runningServices);
      err == o.err && h.trace == old(h.trace) + o.effects && h.dirs == o.dirs
  {
    ghost var trace0 := h.trace;
    ghost var prepared := CreateSpec(h.world, h.dirs, req, mountPath, clonePath, SwarmCloneDepth);
    err := PrepareIfCreate(req, mountPath, clonePath, SwarmCloneDepth, h);
    if err.Some? {
      return;
    }
    ghost var rest := SwarmTailSpec(cfg, h.world, h.dirs, req, clonePath, runningServices);
    err := SwarmDecryptAndDeploy(cfg, req, clonePath, runningServices, forceUpdate, h);
    Then(trace0, prepared.effects, rest.effects);
  }

  /** Lines 261-295: the decryption, then the deployment and the update. */
  method SwarmDecryptAndDeploy(cfg: Config, req: Request, clonePath: string,
                               runningServices: set<string>, forceUpdate: bool, h: Machine) returns (err: Option<Error>)
    requires forceUpdate <==> |runningServices| > 0
    modifies h
    ensures var o := SwarmTailSpec(cfg, h.world, old(h.dirs), req, clonePath, runningServices);
      err == o.err && h.trace == old(h.trace) + o.effects && h.dirs == o.dirs
  {
    ghost var trace0 := h.trace;
    ghost var decrypted := DecryptSpec(cfg, h.world, req, clonePath);
    var failed, composeFilePaths := Decrypt(cfg, req, clonePath, h);
    if failed {
      return Failed;
    }
    ghost var rest := StackDeploySpec(h.world, h.dirs, req, clonePath, runningServices);
    err := DeployStackAndUpdate(req, clonePath, runningServices, forceUpdate, h);
    Then(trace0, Execs(decrypted.ran), rest.effects);
  }

  /** Lines 274-295: `deploySwarmStack`, then the forced update of a redeployment. */
  method DeployStackAndUpdate(req: Request, clonePath: string, runningServices: set<string>, forceUpdate: bool, h: Machine)
    returns (err: Option<Error>)
    requires forceUpdate <==> |runningServices| > 0
    modifies h
    ensures var o := StackDeploySpec(h.world, old(h.dirs), req, clonePath, runningServices);
      err == o.err && h.trace == old(h.trace) + o.effects && h.dirs == o.dirs
  {
    var failure := h.DeploySwarmStack(req.projectName, clonePath);
    if failure.Some? {
      return Some(External(failure.value));
    }
    if forceUpdate {
      var updatedServiceIDs := h.CheckRunningService(req.projectName, false);
      if updatedServiceIDs.Failure? {
        return Some(External(updatedServiceIDs.error));
      }
      UpdateRunning(updatedServiceIDs.value, runningServices, h);
    }
    err := None;
  }

  /** The loop over the post-deployment listing: `updateService` for each service that was running before. */
  method UpdateRunning(updatedServiceIDs: seq<string>, runningServices: set<string>, h: Machine)
    modifies h
    ensures h.trace == old(h.trace) + Updates(ServicesToUpdate(updatedServiceIDs, runningServices))
    ensures h.dirs == old(h.dirs)
  {
    var k := 0;
    while k < |updatedServiceIDs|
      invariant 0 <= k <= |updatedServiceIDs|
      invariant h.trace == old(h.trace) + Updates(ServicesToUpdate(updatedServiceIDs[..k], runningServices))
      invariant h.dirs == old(h.dirs)
    {
      var id := updatedServiceIDs[k];
      ghost var done := ServicesToUpdate(updatedServiceIDs[..k], runningServices);
      ServicesToUpdateStep(updatedServiceIDs, k, runningServices);
      if id in runningServices {
        // the error of updateService is discarded
        h.UpdateService(id);
        UpdatesSnoc(done, id);
        Then(old(h.trace), Updates(done), [UpdateService(id)]);
      } else {
        assert done + [] == done;
      }
      k := k + 1;
    }
    assert updatedServiceIDs[..k] == updatedServiceIDs;
  }

  // ---------------------------------------------------------------------
  // What the two deployments promise

  /** The clone path of a request whose repository URL is valid: `dest/stacks/project/repositoryName`. */
  function ClonePath(req: Request): string
    requires RepositoryName(req.gitRepository).Some?
  {
    JoinPath(MountPath(req), RepositoryName(req.gitRepository).value)
  }

  /**
   * A repository URL without `/` fails both deployments with the deployment
   * failure before any workspace step: only the login commands and the
   * deferred logout commands run, and the workspace is left as it was.
   */
  lemma InvalidUrlFailsFirst(cfg: Config, w: World, dirs: set<string>, req: Request)
    requires '/' !in req.gitRepository
    ensures var expected := Outcome(Failed, Execs(LoginCommands(cfg, req.registry)) + Execs(LogoutCommands(cfg, req.registry)), dirs);
      DeploySpec(cfg, w, dirs, req) == expected && SwarmDeploySpec(cfg, w, dirs, req) == expected
  {
    var login, logout := Execs(LoginCommands(cfg, req.registry)), Execs(LogoutCommands(cfg, req.registry));
    InvalidUrlBodies(cfg, w, dirs, req);
    assert login + [] + logout == login + logout;
  }

  /** Without a repository name both bodies fail at once. */
  lemma InvalidUrlBodies(cfg: Config, w: World, dirs: set<string>, req: Request)
    requires '/' !in req.gitRepository
    ensures DeployBodySpec(cfg, w, dirs, req) == Outcome(Failed, [], dirs)
    ensures SwarmBodySpec(cfg, w, dirs, req) == Outcome(Failed, [], dirs)
  {
    assert RepositoryName(req.gitRepository).None?;
  }


  /** Whatever happens, the login commands run first and the logout commands last. */
  lemma LogoutFollowsLogin(cfg: Config, w: World, dirs: set<string>, req: Request)
    ensures var login, logout := Execs(LoginCommands(cfg, req.registry)), Execs(LogoutCommands(cfg, req.registry));
      forall o :: o in {DeploySpec(cfg, w, dirs, req), SwarmDeploySpec(cfg, w, dirs, req)} ==>
        && |o.effects| >= |login| + |logout|
        && o.effects[..|login|] == login
        && o.effects[|o.effects| - |logout|..] == logout
  {
    var login, logout := Execs(LoginCommands(cfg, req.registry)), Execs(LogoutCommands(cfg, req.registry));
    Bracketed(login, DeployBodySpec(cfg, w, dirs, req).effects, logout);
    Bracketed(login, SwarmBodySpec(cfg, w, dirs, req).effects, logout);
  }

  lemma Bracketed(login: seq<Effect>, body: seq<Effect>, logout: seq<Effect>)
    ensures var all := login + body + logout;
      |all| >= |login| + |logout| && all[..|login|] == login && all[|all| - |logout|..] == logout
  {
    var all := login + body + logout;
    assert all[..|login|] == login;
    assert all[|all| - |logout|..] == logout;
  }

  /** The workspace steps touch the workspace only, and update no service; an update request has none. */
  lemma CreateSpecView(w: World, dirs: set<string>, req: Request, mountPath: string, clonePath: string, depth: nat)
    ensures WorkspaceEffects(CreateSpec(w, dirs, req, mountPath, clonePath, depth).effects) == CreateSpec(w, dirs, req, mountPath, clonePath, depth).effects
    ensures UpdatedServices(CreateSpec(w, dirs, req, mountPath, clonePath, depth).effects) == []
    ensures req.keep ==> CreateSpec(w, dirs, req, mountPath, clonePath, depth) == Outcome(None, [], dirs)
  {
    if !req.keep {
      PrepareSpecView(w, dirs, mountPath, clonePath, CloneOptionsOf(req, depth));
    }
  }

  lemma PrepareSpecView(w: World, dirs: set<string>, mountPath: string, clonePath: string, options: CloneOptions)
    ensures forall e :: e in PrepareSpec(w, dirs, mountPath, clonePath, options).effects ==> TouchesWorkspace(e)
    ensures WorkspaceEffects(PrepareSpec(w, dirs, mountPath, clonePath, options).effects) == PrepareSpec(w, dirs, mountPath, clonePath, options).effects
    ensures UpdatedServices(PrepareSpec(w, dirs, mountPath, clonePath, options).effects) == []
  {
    var effects := PrepareSpec(w, dirs, mountPath, clonePath, options).effects;
    var steps := PrepareSteps(dirs, mountPath, clonePath, options);
    PrepareSpecOrder(w, dirs, mountPath, clonePath, options);
    assert forall e :: e in steps ==> TouchesWorkspace(e);
    assert forall e :: e in effects ==> e in steps;
    AllTouch(effects);
  }

  /** Decrypting and deploying a compose stack touch no directory. */
  lemma ComposeDeploySpecQuiet(cfg: Config, w: World, dirs: set<string>, req: Request, clonePath: string)
    ensures WorkspaceEffects(ComposeDeploySpec(cfg, w, dirs, req, clonePath).effects) == []
    ensures ComposeDeploySpec(cfg, w, dirs, req, clonePath).dirs == dirs
  {
    var decrypted := DecryptSpec(cfg, w, req, clonePath);
    ExecsQuiet(decrypted.ran);
    if decrypted.err.None? {
      var deploy := ComposeDeploy(ComposePaths(clonePath, req.composeRelativeFilePaths), DeployOptions(clonePath, req.projectName, req.env, true));
      QuietStep(Execs(decrypted.ran), deploy);
    }
  }

  /** The login and logout commands are invisible to both views of the trace. */
  lemma AroundView(login: seq<Command>, body: seq<Effect>, logout: seq<Command>)
    ensures WorkspaceEffects(Execs(login) + body + Execs(logout)) == WorkspaceEffects(body)
    ensures UpdatedServices(Execs(login) + body + Execs(logout)) == UpdatedServices(body)
  {
    ExecsQuiet(login);
    ExecsQuiet(logout);
    WorkspaceEffectsAppend(Execs(login) + body, Execs(logout));
    WorkspaceEffectsAppend(Execs(login), body);
    UpdatedServicesAppend(Execs(login) + body, Execs(logout));
    UpdatedServicesAppend(Execs(login), body);
  }

  /** From the workspace steps on, a compose deployment touches the workspace by those steps only. */
  lemma ComposeFromView(cfg: Config, w: World, dirs: set<string>, req: Request, mountPath: string, clonePath: string)
    ensures var prepared := CreateSpec(w, dirs, req, mountPath, clonePath, ComposeCloneDepth);
      var o := ComposeFromSpec(cfg, w, dirs, req, mountPath, clonePath);
      WorkspaceEffects(o.effects) == prepared.effects && o.dirs == prepared.dirs
  {
    var prepared := CreateSpec(w, dirs, req, mountPath, clonePath, ComposeCloneDepth);
    var o := ComposeFromSpec(cfg, w, dirs, req, mountPath, clonePath);
    CreateSpecView(w, dirs, req, mountPath, clonePath, ComposeCloneDepth);
    if prepared.err.None? {
      var started := prepared.effects + [NewComposeDeployer];
      QuietStep(prepared.effects, NewComposeDeployer);
      if !w.newDeployerFails {
        var rest := ComposeDeploySpec(cfg, w, prepared.dirs, req, clonePath);
        assert o.effects == started + rest.effects && o.dirs == rest.dirs;
        ComposeDeploySpecQuiet(cfg, w, prepared.dirs, req, clonePath);
        QuietTail(started, rest.effects);
      } else {
        assert o.effects == started && o.dirs == prepared.dirs;
      }
    } else {
      assert o == prepared;
    }
  }

  /**
   * The only workspace effects of a compose deployment are the workspace
   * steps of a create request with a valid URL, in their order (see
   * `PrepareSpecOrder`), cloning with depth 1; an update request (`Keep`)
   * or an invalid URL neither touches nor changes the workspace.
   */
  lemma ComposeWorkspaceEffects(cfg: Config, w: World, dirs: set<string>, req: Request)
    ensures var o := DeploySpec(cfg, w, dirs, req);
      && (RepositoryName(req.gitRepository).None? || req.keep ==> WorkspaceEffects(o.effects) == [] && o.dirs == dirs)
      && (RepositoryName(req.gitRepository).Some? && !req.keep ==>
            var prepared := PrepareSpec(w, dirs, MountPath(req), ClonePath(req), CloneOptionsOf(req, ComposeCloneDepth));
            WorkspaceEffects(o.effects) == prepared.effects && o.dirs == prepared.dirs)
  {
    var body := DeployBodySpec(cfg, w, dirs, req);
    var login, logout := LoginCommands(cfg, req.registry), LogoutCommands(cfg, req.registry);
    assert DeploySpec(cfg, w, dirs, req) == Outcome(body.err, Execs(login) + body.effects + Execs(logout), body.dirs);
    AroundView(login, body.effects, logout);
    if RepositoryName(req.gitRepository).Some? {
      var mountPath, clonePath := MountPath(req), ClonePath(req);
      assert body == ComposeFromSpec(cfg, w, dirs, req, mountPath, clonePath);
      ComposeFromView(cfg, w, dirs, req, mountPath, clonePath);
      CreateSpecView(w, dirs, req, mountPath, clonePath, ComposeCloneDepth);
    } else {
      assert body == Outcome(Failed, [], dirs);
    }
  }

  /**
   * A compose deployment from the workspace steps on succeeds exactly when
   * every step does, fails with the deployment failure otherwise, and on
   * success ends with the deployment of the compose files of the clone,
   * with the clone as working directory and `ForceRecreate` set.
   */
  lemma ComposeFromOutcome(cfg: Config, w: World, dirs: set<string>, req: Request, mountPath: string, clonePath: string)
    ensures var prepared := CreateSpec(w, dirs, req, mountPath, clonePath, ComposeCloneDepth);
      var decrypted := DecryptSpec(cfg, w, req, clonePath);
      var o := ComposeFromSpec(cfg, w, dirs, req, mountPath, clonePath);
      && o.err in {None, Failed}
      && (o.err == None <==> prepared.err == None && !w.newDeployerFails && decrypted.err == None && !w.deployFails)
      && (o.err == None ==>
            o.effects == prepared.effects + [NewComposeDeployer] + Execs(decrypted.ran)
              + [ComposeDeploy(ComposePaths(clonePath, req.composeRelativeFilePaths), DeployOptions(clonePath, req.projectName, req.env, true))])
  {
    var prepared := CreateSpec(w, dirs, req, mountPath, clonePath, ComposeCloneDepth);
    PrepareSpecOrder(w, dirs, mountPath, clonePath, CloneOptionsOf(req, ComposeCloneDepth));
    if prepared.err == None && !w.newDeployerFails {
      var decrypted := DecryptSpec(cfg, w, req, clonePath);
      var deploy := ComposeDeploy(ComposePaths(clonePath, req.composeRelativeFilePaths), DeployOptions(clonePath, req.projectName, req.env, true));
      Then(prepared.effects + [NewComposeDeployer], Execs(decrypted.ran), [deploy]);
    }
  }

  /**
   * `DeployCommand.Run` returns either nothing or the deployment failure; it
   * succeeds exactly when the URL is valid and every later step succeeds,
   * and then the compose stack was deployed right before the logout.
   */
  lemma ComposeOutcome(cfg: Config, w: World, dirs: set<string>, req: Request)
    ensures var o := DeploySpec(cfg, w, dirs, req);
      && o.err in {None, Failed}
      && (o.err == None <==>
            && RepositoryName(req.gitRepository).Some?
            && CreateSpec(w, dirs, req, MountPath(req), ClonePath(req), ComposeCloneDepth).err == None
            && !w.newDeployerFails
            && DecryptSpec(cfg, w, req, ClonePath(req)).err == None
            && !w.deployFails)
      && (o.err == None ==>
            var logout := Execs(LogoutCommands(cfg, req.registry));
            && |o.effects| > |logout|
            && o.effects[|o.effects| - |logout| - 1]
                 == ComposeDeploy(ComposePaths(ClonePath(req), req.composeRelativeFilePaths), DeployOptions(ClonePath(req), req.projectName, req.env, true)))
  {
    if RepositoryName(req.gitRepository).Some? {
      var mountPath, clonePath := MountPath(req), ClonePath(req);
      ComposeFromOutcome(cfg, w, dirs, req, mountPath, clonePath);
      var body := DeployBodySpec(cfg, w, dirs, req);
      assert body == ComposeFromSpec(cfg, w, dirs, req, mountPath, clonePath);
      if body.err == None {
        var login, logout := Execs(LoginCommands(cfg, req.registry)), Execs(LogoutCommands(cfg, req.registry));
        var all := login + body.effects + logout;
        assert body.effects[|body.effects| - 1] == ComposeDeploy(ComposePaths(clonePath, req.composeRelativeFilePaths), DeployOptions(clonePath, req.projectName, req.env, true));
        assert all[|all| - |logout| - 1] == body.effects[|body.effects| - 1];
      }
    }
  }

  /**
   * A successful compose deployment has run the decrypt command of every
   * SOPS file lying inside one of the root folders `findRootPaths` returns
   * for its compose files (which, as written, need not reach every compose
   * file's folder: see `SiblingSopsFileMissed`).
   */
  lemma ComposeDecryptsSops(cfg: Config, w: World, dirs: set<string>, req: Request, e: WalkEntry, k: nat)
    requires RepositoryName(req.gitRepository).Some? && DeploySpec(cfg, w, dirs, req).err == None
    requires k < |DecryptRoots(req, ClonePath(req))| && e in w.walk && IsSopsFile(e)
    requires IsUnder(e.path, DecryptRoots(req, ClonePath(req))[k])
    ensures Exec(DecryptCommand(cfg, req.env, e.path)) in DeploySpec(cfg, w, dirs, req).effects
  {
    var mountPath, clonePath := MountPath(req), ClonePath(req);
    var files := ComposePaths(clonePath, req.composeRelativeFilePaths);
    var command := DecryptCommand(cfg, req.env, e.path);
    ComposeOutcome(cfg, w, dirs, req);
    var decrypted := DecryptSpec(cfg, w, req, clonePath);
    DecryptReachesSops(cfg, files, req.env, w.walk, w.exec, e, k);
    var k :| 0 <= k < |decrypted.ran| && decrypted.ran[k] == command;
    ExecsSpec(decrypted.ran);
    var execs := Execs(decrypted.ran);
    assert execs[k] == Exec(command);
    ComposeFromOutcome(cfg, w, dirs, req, mountPath, clonePath);
    var prepared := CreateSpec(w, dirs, req, mountPath, clonePath, ComposeCloneDepth);
    var body := DeployBodySpec(cfg, w, dirs, req);
    assert body == ComposeFromSpec(cfg, w, dirs, req, mountPath, clonePath);
    var deploy := ComposeDeploy(files, DeployOptions(clonePath, req.projectName, req.env, true));
    assert body.effects == (prepared.effects + [NewComposeDeployer]) + (execs + [deploy]);
    InLeft(execs, [deploy], Exec(command));
    InRight(prepared.effects + [NewComposeDeployer], execs + [deploy], Exec(command));
    var login, logout := Execs(LoginCommands(cfg, req.registry)), Execs(LogoutCommands(cfg, req.registry));
    InRight(login, body.effects, Exec(command));
    InLeft(login + body.effects, logout, Exec(command));
  }

  // ---------------------------------------------------------------------
  // What a swarm deployment promises

  /**
   * The services a successful redeployment forces to update: those of the
   * post-deployment listing that were running before; none when nothing
   * was running before.
   */
  function ForcedUpdates(w: World, running: set<string>): seq<string> {
    if |running| > 0 && w.servicesAfter.Success? then ServicesToUpdate(w.servicesAfter.value, running) else []
  }

  /** A failed step updates no service; a successful one updates the forced updates, for which the listing succeeded. */
  predicate UpdatesAsForced(w: World, running: set<string>, o: Outcome) {
    && UpdatedServices(o.effects) == (if o.err == None then ForcedUpdates(w, running) else [])
    && (o.err == None && |running| > 0 ==> w.servicesAfter.Success?)
  }

  /** An error is the deployment failure or a message the swarm manager reported. */
  predicate ErrorFromWorld(w: World, err: Option<Error>) {
    || err == None
    || err == Failed
    || (&& err.Some? && err.value.External?
        && (|| (w.servicesBefore.Failure? && err.value.message == w.servicesBefore.error)
            || w.swarmDeploy == Some(err.value.message)
            || (w.servicesAfter.Failure? && err.value.message == w.servicesAfter.error)))
  }

  /** The stack deployment and the update touch no directory and update exactly the forced updates. */
  lemma StackDeployView(w: World, dirs: set<string>, req: Request, clonePath: string, running: set<string>)
    ensures var o := StackDeploySpec(w, dirs, req, clonePath, running);
      ErrorFromWorld(w, o.err) && UpdatesAsForced(w, running, o) && WorkspaceEffects(o.effects) == [] && o.dirs == dirs
  {
    var deployed := [DeploySwarmStack(req.projectName, clonePath)];
    var checked := deployed + [CheckRunningService(req.projectName)];
    NoUpdatesIn(deployed);
    NoUpdatesIn(checked);
    QuietStep([], DeploySwarmStack(req.projectName, clonePath));
    QuietStep(deployed, CheckRunningService(req.projectName));
    if w.swarmDeploy.None? && |running| > 0 && w.servicesAfter.Success? {
      var ids := ServicesToUpdate(w.servicesAfter.value, running);
      UpdatesView(ids);
      UpdatedServicesAppend(checked, Updates(ids));
      QuietTail(checked, Updates(ids));
    }
  }

  /** From the decryption on, likewise. */
  lemma SwarmTailView(cfg: Config, w: World, dirs: set<string>, req: Request, clonePath: string, running: set<string>)
    ensures var o := SwarmTailSpec(cfg, w, dirs, req, clonePath, running);
      ErrorFromWorld(w, o.err) && UpdatesAsForced(w, running, o) && WorkspaceEffects(o.effects) == [] && o.dirs == dirs
  {
    var decrypted := DecryptSpec(cfg, w, req, clonePath);
    var o := SwarmTailSpec(cfg, w, dirs, req, clonePath, running);
    ExecsQuiet(decrypted.ran);
    if decrypted.err.None? {
      var rest := StackDeploySpec(w, dirs, req, clonePath, running);
      assert o == Outcome(rest.err, Execs(decrypted.ran) + rest.effects, rest.dirs);
      StackDeployView(w, dirs, req, clonePath, running);
      UpdatedServicesAppend(Execs(decrypted.ran), rest.effects);
      WorkspaceEffectsAppend(Execs(decrypted.ran), rest.effects);
    } else {
      assert o == Outcome(Failed, Execs(decrypted.ran), dirs);
    }
  }

  /** From the workspace steps on: the workspace is touched by those steps only. */
  lemma SwarmPreparedView(cfg: Config, w: World, dirs: set<string>, req: Request, mountPath: string, clonePath: string, running: set<string>)
    ensures var prepared := CreateSpec(w, dirs, req, mountPath, clonePath, SwarmCloneDepth);
      var o := SwarmPreparedSpec(cfg, w, dirs, req, mountPath, clonePath, running);
      ErrorFromWorld(w, o.err) && UpdatesAsForced(w, running, o) && WorkspaceEffects(o.effects) == prepared.effects && o.dirs == prepared.dirs
  {
    var prepared := CreateSpec(w, dirs, req, mountPath, clonePath, SwarmCloneDepth);
    var o := SwarmPreparedSpec(cfg, w, dirs, req, mountPath, clonePath, running);
    CreateSpecView(w, dirs, req, mountPath, clonePath, SwarmCloneDepth);
    PrepareSpecOrder(w, dirs, mountPath, clonePath, CloneOptionsOf(req, SwarmCloneDepth));
    if prepared.err.None? {
      var rest := SwarmTailSpec(cfg, w, prepared.dirs, req, clonePath, running);
      assert o == Outcome(rest.err, prepared.effects + rest.effects, rest.dirs);
      SwarmTailView(cfg, w, prepared.dirs, req, clonePath, running);
      UpdatedServicesAppend(prepared.effects, rest.effects);
      QuietTail(prepared.effects, rest.effects);
    } else {
      assert o == prepared;
    }
  }

  /**
   * From the first service query on: a failing query ends the deployment
   * with its error before anything else happens; otherwise the services it
   * reports are the running set of the rest.
   */
  lemma SwarmFromView(cfg: Config, w: World, dirs: set<string>, req: Request, mountPath: string, clonePath: string)
    ensures var o := SwarmFromSpec(cfg, w, dirs, req, mountPath, clonePath);
      && (w.servicesBefore.Failure? ==>
            o == Outcome(Some(External(w.servicesBefore.error)), [CheckRunningService(req.projectName)], dirs))
      && (w.servicesBefore.Success? ==>
            var prepared := CreateSpec(w, dirs, req, mountPath, clonePath, SwarmCloneDepth);
            && ErrorFromWorld(w, o.err) && UpdatesAsForced(w, IdSet(w.servicesBefore.value), o)
            && WorkspaceEffects(o.effects) == prepared.effects && o.dirs == prepared.dirs)
  {
    if w.servicesBefore.Success? {
      var o := SwarmFromSpec(cfg, w, dirs, req, mountPath, clonePath);
      var checked := [CheckRunningService(req.projectName)];
      var running := IdSet(w.servicesBefore.value);
      var rest := SwarmPreparedSpec(cfg, w, dirs, req, mountPath, clonePath, running);
      assert o == Outcome(rest.err, checked + rest.effects, rest.dirs);
      SwarmPreparedView(cfg, w, dirs, req, mountPath, clonePath, running);
      NoUpdatesIn(checked);
      UpdatedServicesAppend(checked, rest.effects);
      CheckQuiet(req.projectName);
      WorkspaceEffectsAppend(checked, rest.effects);
    }
  }

  /** A service query touches no directory. */
  lemma CheckQuiet(projectName: string)
    ensures WorkspaceEffects([CheckRunningService(projectName)]) == []
  {
    QuietStep([], CheckRunningService(projectName));
    assert [] + [CheckRunningService(projectName)] == [CheckRunningService(projectName)];
  }

  /**
   * The update of a swarm redeployment is forced exactly when the first
   * service query reported running services: a successful deployment with
   * none updates nothing, one with some updates the services of the second
   * listing that were running before, in its order, and a failed deployment
   * updates nothing.
   */
  lemma SwarmForceUpdate(cfg: Config, w: World, dirs: set<string>, req: Request)
    ensures var o := SwarmDeploySpec(cfg, w, dirs, req);
      var updated := UpdatedServices(o.effects);
      && (o.err != None ==> updated == [])
      && (o.err == None ==> RepositoryName(req.gitRepository).Some? && w.servicesBefore.Success?)
      && (o.err == None && w.servicesBefore.Success? && w.servicesBefore.value == [] ==> updated == [])
      && (o.err == None && w.servicesBefore.Success? && w.servicesBefore.value != [] ==>
            && w.servicesAfter.Success?
            && updated == ServicesToUpdate(w.servicesAfter.value, IdSet(w.servicesBefore.value)))
  {
    var body := SwarmBodySpec(cfg, w, dirs, req);
    var login, logout := LoginCommands(cfg, req.registry), LogoutCommands(cfg, req.registry);
    assert SwarmDeploySpec(cfg, w, dirs, req) == Outcome(body.err, Execs(login) + body.effects + Execs(logout), body.dirs);
    AroundView(login, body.effects, logout);
    if RepositoryName(req.gitRepository).Some? {
      var mountPath, clonePath := MountPath(req), ClonePath(req);
      assert body == SwarmFromSpec(cfg, w, dirs, req, mountPath, clonePath);
      SwarmFromView(cfg, w, dirs, req, mountPath, clonePath);
      if w.servicesBefore.Success? {
        ForceUpdateIffRunning(w.servicesBefore.value);
      } else {
        NoUpdatesIn([CheckRunningService(req.projectName)]);
      }
    } else {
      assert body == Outcome(Failed, [], dirs);
    }
  }

  /**
   * A swarm deployment touches the workspace only by the workspace steps of
   * a create request with a valid URL whose first service query succeeded,
   * cloning with depth 100; otherwise the workspace is untouched.
   */
  lemma SwarmWorkspaceEffects(cfg: Config, w: World, dirs: set<string>, req: Request)
    ensures var o := SwarmDeploySpec(cfg, w, dirs, req);
      && (RepositoryName(req.gitRepository).None? || req.keep || w.servicesBefore.Failure? ==>
            WorkspaceEffects(o.effects) == [] && o.dirs == dirs)
      && (RepositoryName(req.gitRepository).Some? && !req.keep && w.servicesBefore.Success? ==>
            var prepared := PrepareSpec(w, dirs, MountPath(req), ClonePath(req), CloneOptionsOf(req, SwarmCloneDepth));
            WorkspaceEffects(o.effects) == prepared.effects && o.dirs == prepared.dirs)
  {
    var body := SwarmBodySpec(cfg, w, dirs, req);
    var login, logout := LoginCommands(cfg, req.registry), LogoutCommands(cfg, req.registry);
    assert SwarmDeploySpec(cfg, w, dirs, req) == Outcome(body.err, Execs(login) + body.effects + Execs(logout), body.dirs);
    AroundView(login, body.effects, logout);
    if RepositoryName(req.gitRepository).Some? {
      var mountPath, clonePath := MountPath(req), ClonePath(req);
      assert body == SwarmFromSpec(cfg, w, dirs, req, mountPath, clonePath);
      SwarmFromView(cfg, w, dirs, req, mountPath, clonePath);
      CreateSpecView(w, dirs, req, mountPath, clonePath, SwarmCloneDepth);
      if w.servicesBefore.Failure? {
        CheckQuiet(req.projectName);
      }
    } else {
      assert body == Outcome(Failed, [], dirs);
    }
  }

  /**
   * A swarm deployment fails only with the deployment failure or with an
   * error the swarm manager reported; a failing first service query is
   * passed up as it is, before the workspace is touched.
   */
  lemma SwarmErrors(cfg: Config, w: World, dirs: set<string>, req: Request)
    ensures var o := SwarmDeploySpec(cfg, w, dirs, req);
      && ErrorFromWorld(w, o.err)
      && (RepositoryName(req.gitRepository).Some? && w.servicesBefore.Failure? ==>
            o == Outcome(Some(External(w.servicesBefore.error)),
                         Execs(LoginCommands(cfg, req.registry)) + [CheckRunningService(req.projectName)] + Execs(LogoutCommands(cfg, req.registry)),
                         dirs))
  {
    if RepositoryName(req.gitRepository).Some? {
      var mountPath, clonePath := MountPath(req), ClonePath(req);
      assert SwarmBodySpec(cfg, w, dirs, req) == SwarmFromSpec(cfg, w, dirs, req, mountPath, clonePath);
      SwarmFromView(cfg, w, dirs, req, mountPath, clonePath);
    }
  }
}
