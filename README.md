# compose-unpacker, modelled in Dafny

compose-unpacker deploys and removes Docker Compose and Docker Swarm stacks
whose files live in a Git repository. This project models its four
commands and the helpers they rely on:

- `DeployCommand.Run` logs in to the registries and derives the repository
  name and the working directories from the URL. For a create request it
  empties the project folder, recreates it and clones the repository.
  It then decrypts the SOPS files found by walking the root folders that
  `findRootPaths` derives from the compose files, and deploys the stack
  with `ForceRecreate`. The registry logout is deferred and runs last.
- `SwarmDeployCommand.Run` does the same for a swarm stack. It first records
  the services already running. After deploying the stack, it forces an
  update of the services that were running before and still are.
- `UndeployCommand.Run` removes a compose stack.
- `SwarmUndeployCommand.Run` removes a swarm stack.

Both removals then delete the project folder for a stop request. A failure
of that deletion is only logged.

The outside world is a `Host.World` of answers fixed in advance:

- process outcomes and their stderr;
- which file-system and library calls fail;
- the entries the directory walk reports;
- the two service listings of a swarm deployment.

A `Host.Machine` holds the workspace directories and the trace of every
effect, in order. Each command is a method on a `Machine`. It is proved
equal to a specification function (`DeploySpec`, `SwarmDeploySpec`,
`UndeploySpec`, `SwarmUndeploySpec`). The lemmas then state the commands'
promises about that function:

- which error comes back, and when;
- what happens to the workspace;
- that the login comes first and the logout last;
- which services are updated;
- which SOPS files are decrypted.

Modules, in dependency order:

| module | what it holds |
|---|---|
| `Wrappers` | Option and Result |
| `Strings` | the `strings` functions used, byte-wise order, `sort.Strings` by its result |
| `Paths` | `filepath.Dir` / `Base`, `path.Join`, "inside a directory" |
| `Process` | configuration, command lines, errors |
| `Workspace` | repository name, working directory, compose paths, `getAuth` |
| `Registry` | `dockerLogin` / `dockerLogout` |
| `Roots` | `findRootPaths` as written, and the corrected reduction |
| `Sops` | `sopsDecrypt` |
| `Swarm` | the service reconciliation |
| `Host` | the world and the machine |
| `Traces` | views of a trace |
| `Deploy` | the two deploy commands |
| `Undeploy` | the two undeploy commands |

## Model

| member | source | states |
|---|---|---|
| Strings.LastIndex | deploy.go:47-48 | -1 exactly when the URL has no `/`; otherwise the index of a `/` with no `/` after it |
| Strings.Split | deploy.go:409 | splitting always yields at least one piece |
| Strings.SplitCount | deploy.go:409-410 | splitting on `:` gives one more piece than there are colons |
| Strings.SplitPiecesFree | deploy.go:409 | no piece of the split contains the separator |
| Strings.SplitJoin | deploy.go:409 | joining the pieces with the separator gives the entry back |
| Strings.TrimSuffix | deploy.go:55 | a URL ending in the suffix is the result followed by the suffix; any other URL is returned as it is |
| Strings.ContainsAt | deploy.go:318 | a name contains the marker exactly when the marker occurs in it at some index |
| Strings.ReplaceAllAbsent | deploy.go:340 | a name without `.sops.` is left as it is by the replacement |
| Strings.ReplaceAllShrinks | deploy.go:340 | replacing `.sops.` by `.` never lengthens a name, and shortens it when the marker occurs |
| Strings.Sort | deploy.go:391 | the sorted folders have the same length and the same elements with multiplicity |
| Strings.SortSorted | deploy.go:391 | the sorted folders ascend in Go's byte-wise string order |
| Strings.SortSameElements | deploy.go:391 | a folder is in the sorted slice exactly when it was in the input |
| Strings.InsertSorted | deploy.go:391 | inserting into an ascending sequence keeps it ascending |
| Strings.LexLeTotal | deploy.go:391 | any two strings are comparable in the order used by the sort |
| Paths.DirBaseJoin | deploy.go:338-339 | a file's folder and base name join back to its path, and the base name holds no `/` |
| Paths.DirContains | deploy.go:338 | a path with a `/` lies inside its folder; a bare name's folder is `.` (also line 379) |
| Paths.BaseEnds | deploy.go:339 | the base name holds no `/` and ends the path |
| Paths.JoinIsUnder | deploy.go:62 | a joined path ends with its second element and lies inside its first, as the clone lies inside the mount path when the repository name is one clean path element (also line 121) |
| Paths.BaseOfJoin | deploy.go:121 | joining a folder and a name without `/` gives a path whose base name is that name |
| Paths.UnderHasPrefix | deploy.go:397 | lying inside a folder implies starting with it as a string; the converse fails (see Findings) |
| Workspace.RepositoryName | deploy.go:47-55 | none exactly when the URL has no `/`; otherwise a name without `/` such that the URL ends in `/name` or `/name.git`, and in `/name.git` whenever it ends in `.git` |
| Workspace.MakeWorkingDir | deploy.go:515-517 | for a project name that is one clean path element, the working directory is `target/stacks/name` and lies inside the destination |
| Workspace.WorkingDirsDistinct | deploy.go:515-517 | two different project names that are clean path elements never share a working directory |
| Workspace.ComposeFilePaths | deploy.go:119-122 | one path per relative compose path, in order, each joined to the clone, and lying inside it when the relative path has no `.` or `..` segment |
| Workspace.GetAuth | deploy.go:502-513 | no credentials exactly when the password is empty; otherwise that password with the given user, or `token` when none is given |
| Process.DockerBinaryFound | deploy.go:519-525 | the docker binary's base name is `docker` (`docker.exe` on Windows) and it lies inside `BIN_PATH` |
| Process.SopsBinaryFound | deploy.go:363-369 | the sops binary's base name is `sops` (`sops.exe` on Windows) and it lies inside `BIN_PATH` |
| Registry.DockerLogin | deploy.go:405-434 | always returns nil, and runs exactly the login commands of the well-formed entries, in order |
| Registry.DockerLogout | deploy.go:436-465 | always returns nil, and runs exactly the logout commands of the well-formed entries, in order |
| Registry.WellFormedIffTwoColons | deploy.go:409-410 | an entry is used exactly when it holds two colons |
| Registry.HostPortSkipped | deploy.go:409-416 | an entry whose server is written `host:port` is skipped |
| Registry.WellFormedEntriesSpec | deploy.go:408-416 | the entries logged in to are exactly the input's well-formed entries |
| Registry.LoginCommandsSpec | deploy.go:418-421 | one login command per well-formed entry, in order, with `--config P login --username user --password password server` |
| Registry.LogoutMirrorsLogin | deploy.go:449-452 | the logouts pair up with the logins one for one, in the same order, with the same config path and server |
| Roots.FolderPaths | deploy.go:377-380 | the folder of every file, in input order |
| Roots.RootPaths | deploy.go:371-403 | the as-written roots are empty exactly when there are no compose files |
| Roots.FindRootPaths | deploy.go:371-403 | the loops and the sort compute the as-written root folders |
| Roots.RootPathsSpec | deploy.go:371-403 | no roots for no files; otherwise the roots are folders of input files, strictly ascending, none a string prefix of another, and every file's folder starts with some root |
| Roots.ReduceProperties | deploy.go:395-400 | the reduction loop keeps the roots strictly ascending and free of string prefixes |
| Roots.ReduceCovers | deploy.go:395-400 | every folder the reduction sees starts with a kept root |
| Roots.ReduceExtends | deploy.go:395-400 | the reduction only appends, and only folders it was given |
| Roots.StringPrefixDropsSibling | deploy.go:397 | for files in `/a/x` and `/a/xy` only `/a/x` is kept, although `/a/xy` is not inside it |
| Roots.FindRootDirs | deploy.go:371-403 | the corrected loop computes the corrected root folders |
| Roots.KeepOutermost | deploy.go:395-400 | the corrected reduction loop keeps exactly the folders not inside a root kept before them |
| Roots.InsideSomeRoot | deploy.go:397 | the corrected test: true exactly when the folder lies inside some kept root |
| Roots.RootDirsSpec | deploy.go:371-403 | corrected roots: each is an input folder, none lies inside another, and every file's folder lies inside some root |
| Roots.ReduceUnderProperties | deploy.go:395-400 | the corrected reduction keeps the roots non-nested and puts every folder it sees inside a root |
| Roots.RootDirsKeepsSibling | deploy.go:397 | for files in `/a/x` and `/a/xy` the corrected reduction keeps both folders |
| Sops.MatchesSopsPatternAt | deploy.go:318 | a base name matches `*.sops.*` exactly when it holds no `/` and `.sops.` occurs in it |
| Sops.SopsDecrypt | deploy.go:298-361 | the decryption walks the root folders `findRootPaths` returns as written, collects the SOPS files and decrypts them in order up to the first failure |
| Sops.SopsDecryptCorrected | deploy.go:298-361 | the same walk and decrypt loop over the corrected root folders (see Findings) |
| Sops.WalkRoots | deploy.go:302-333 | the walk results are concatenated root by root |
| Sops.WalkRoot | deploy.go:308-332 | one walk keeps the non-directory entries inside the root named `*.sops.*`, skipping entries reported with an error |
| Sops.DecryptFiles | deploy.go:335-358 | the decrypt loop's error and commands are those of running the commands until the first failure |
| Sops.RunUntilFailureSpec | deploy.go:337-358 | the commands run are a prefix of the commands given; the last one run is the first that fails and its stderr is the error; no error means all ran and succeeded |
| Sops.DecryptAllSpec | deploy.go:337-358 | the k-th command decrypts the k-th collected file in its own folder, with output name and input name; on success every file was decrypted |
| Sops.CollectSopsSound | deploy.go:308-330 | every collected path is a SOPS file the walk reported inside one of the roots |
| Sops.CollectSopsComplete | deploy.go:308-330 | every reported SOPS file inside one of the roots is collected |
| Sops.OutputDropsMarker | deploy.go:340 | `name.sops.ext` decrypts to `name.ext` |
| Sops.OutputNameDiffers | deploy.go:340 | the decrypted file's name is shorter than the encrypted one, so decryption never overwrites its input |
| Sops.SiblingSopsFileMissed | deploy.go:300-333 | with compose files in `/a/x` and `/a/xy`, the as-written roots never reach `/a/xy/s.sops.env`, while the corrected roots do |
| Sops.CorrectedRootsReachSops | deploy.go:300-333 | with the corrected roots, every SOPS file inside a compose file's folder is collected |
| Sops.DecryptReachesSops | deploy.go:298-361 | as written: a successful decryption has decrypted every SOPS file the walk reports inside one of the roots `findRootPaths` returns |
| Sops.DecryptOnlySops | deploy.go:298-361 | every command the decryption runs decrypts a SOPS file the walk reported inside one of the as-written roots |
| Sops.CorrectedDecryptReachesSops | deploy.go:298-361 | with the corrected roots, a successful decryption has decrypted every SOPS file inside a compose file's folder |
| Swarm.RunningServices | deploy.go:200-203 | the running set holds exactly the identifiers the first query reported |
| Swarm.ForceUpdateIffRunning | deploy.go:205-212 | the running set is non-empty exactly when the query reported some identifier |
| Swarm.ServicesToUpdateMembers | deploy.go:287-292 | a service is updated exactly when it is in the second listing and was running before |
| Swarm.ServicesToUpdateOrdered | deploy.go:287-292 | the updates follow the order of the second listing |
| Swarm.ServicesToUpdateSkipsNew | deploy.go:288-291 | a listed service that was not running before adds no update |
| Swarm.ServicesToUpdateCounts | deploy.go:287-292 | a service is updated as many times as the second listing holds it when it was running before, and never otherwise |
| Host.Machine.Ran | deploy.go:35-36 | commands run through the process runner are appended to the trace; the workspace is unchanged |
| Host.Machine.Exec | deploy.go:467-483 | a process run returns the world's stderr for that command and is recorded |
| Host.Machine.RemoveAll | deploy.go:66 | on success nothing at or below the path is left; on failure what the world spares below the path is left, and nothing outside it is touched |
| Host.PartlyRemovedBounds | deploy.go:66 | a failed removal leaves at least what a successful one leaves and at most what was there, and every such set is the outcome of some failure |
| Host.Machine.MkdirAll | deploy.go:75 | on success the directory exists; on failure the workspace is unchanged |
| Host.Machine.Clone | deploy.go:102 | on success the clone directory exists; the clone options are recorded |
| Host.Machine.NewComposeDeployer | deploy.go:111 | the world decides whether the deployer can be created |
| Host.Machine.ComposeDeploy | deploy.go:138-145 | the files and deploy options are recorded, and the world decides the outcome |
| Host.Machine.ComposeRemove | undeploy.go:36 | the stack removal is recorded, and the world decides the outcome |
| Host.Machine.CheckRunningService | deploy.go:195 | the first or second service query returns the world's listing or error |
| Host.Machine.DeploySwarmStack | deploy.go:274 | the stack deployment returns the world's error, if any |
| Host.Machine.UpdateService | deploy.go:290 | the forced update of one service is recorded |
| Deploy.PrepareWorkspace | deploy.go:63-109 | removal of an existing mount path, creation, then clone; the first failure returns the deployment failure |
| Deploy.PrepareIfCreate | deploy.go:63-109 | the workspace steps run only for a create request (no `Keep`) |
| Deploy.PrepareSpecOrder | deploy.go:63-109 | the steps happen in fixed order and stop at the first failure, whose error is the deployment failure |
| Deploy.PrepareSpecFresh | deploy.go:63-109 | after successful steps the mount and clone paths exist, and nothing of an earlier deployment is left below the mount path |
| Deploy.Decrypt | deploy.go:119-130 | the compose paths are computed and the decryption runs over them, recording its commands |
| Deploy.DeployRun | deploy.go:26-156 | `DeployCommand.Run` leaves the error, trace and workspace of its specification |
| Deploy.DeployBody | deploy.go:47-156 | the body fails before any effect when the URL has no `/` |
| Deploy.ComposeFrom | deploy.go:61-152 | workspace steps, deployer creation, decryption and deployment, stopping at the first failure |
| Deploy.DecryptAndDeploy | deploy.go:119-152 | decryption, then the deployment with the clone as working directory and `ForceRecreate` set |
| Deploy.InvalidUrlFailsFirst | deploy.go:47-54 | a URL without `/` fails both deployments with the deployment failure; only login and logout commands run and the workspace is untouched (also lines 177-184) |
| Deploy.LogoutFollowsLogin | deploy.go:35-36 | whatever happens, the trace starts with the login commands and ends with the logout commands (also lines 165-166) |
| Deploy.ComposeWorkspaceEffects | deploy.go:63-109 | the only workspace effects are the steps of a create request with a valid URL; an update request or an invalid URL leaves the workspace untouched |
| Deploy.ComposeFromOutcome | deploy.go:111-152 | success exactly when every step succeeds; any failure is the deployment failure; success ends with the deployment of the clone's compose files |
| Deploy.ComposeOutcome | deploy.go:26-156 | `DeployCommand.Run` returns nil or the deployment failure; nil exactly when the URL is valid and every step succeeds; the deployment comes right before the logout |
| Deploy.ComposeDecryptsSops | deploy.go:119-138 | a successful compose deployment has decrypted every SOPS file the walk reports inside one of the roots `findRootPaths` returns for the clone's compose files |
| Deploy.SwarmDeployRun | deploy.go:158-296 | `SwarmDeployCommand.Run` leaves the error, trace and workspace of its specification |
| Deploy.SwarmDeployBody | deploy.go:177-296 | the body fails before any effect when the URL has no `/` |
| Deploy.SwarmFrom | deploy.go:191-296 | the first service query, the running set, then the rest |
| Deploy.RecordRunning | deploy.go:200-212 | the running set is the reported identifiers; the update is forced exactly when it is non-empty |
| Deploy.SwarmPrepared | deploy.go:214-296 | the workspace steps with clone depth 100, decryption, deployment and update |
| Deploy.SwarmDecryptAndDeploy | deploy.go:261-296 | decryption, then the stack deployment and the update |
| Deploy.DeployStackAndUpdate | deploy.go:274-295 | the stack deployment's error is passed up; a redeployment queries again and updates; the query's error is passed up |
| Deploy.UpdateRunning | deploy.go:287-292 | the loop updates exactly the listed services that were running before, in listing order, and touches no directory |
| Deploy.StackDeployView | deploy.go:274-295 | deployment and update touch no directory and update exactly the forced services |
| Deploy.SwarmFromView | deploy.go:195-198 | a failing first query ends the deployment with its error before anything else |
| Deploy.SwarmForceUpdate | deploy.go:279-293 | no update unless the deployment succeeds and the first query reported services; then exactly the second listing's services that were running before, in order |
| Deploy.SwarmWorkspaceEffects | deploy.go:214-259 | workspace effects only from the steps of a create request with a valid URL and a successful first query |
| Deploy.SwarmErrors | deploy.go:274-285 | errors are the deployment failure or a message from the swarm manager; a failing first query returns its error with only login, query and logout in the trace |
| Undeploy.Cleanup | undeploy.go:45-51 | a stop request removes the project folder; the result is always nil (also lines 74-80) |
| Undeploy.UndeployRun | undeploy.go:14-54 | `UndeployCommand.Run` leaves the error, trace and workspace of its specification |
| Undeploy.SwarmUndeployRun | undeploy.go:56-83 | `SwarmUndeployCommand.Run` leaves the error, trace and workspace of its specification |
| Undeploy.CleanupSpecRemoves | undeploy.go:45-51 | after a successful removal nothing is left at or below the project folder; nothing outside it is ever removed; a failed removal leaves at least what a successful one would; an update request leaves the workspace unchanged |
| Undeploy.UndeployOutcome | undeploy.go:14-54 | nil or the deployment failure; nil exactly when the URL has a `/` and the stack removal succeeds; an invalid URL fails before any effect |
| Undeploy.StackRemoveCommandRunsDocker | undeploy.go:62-68 | the swarm removal runs the docker binary of `BIN_PATH` on `stack rm` and the project name, and no other project's removal is the same command |
| Undeploy.SwarmUndeployOutcome | undeploy.go:56-83 | fails exactly when `docker stack rm` fails, with its stderr and before the cleanup |
| Undeploy.UndeploymentsAgree | undeploy.go:74-80 | after their stack removals, both undeployments clean up the same way |
| Undeploy.UndeployRemovesDeployment | undeploy.go:45-51 | after a successful create deployment whose repository name is one clean path element, an undeployment with successful removals leaves neither the project folder nor the clone |

## Left out

- Logging (`zerolog`), the command context, and the CLI definitions of the command structs are not part of this model.
- Process environments: `runCommandAndCaptureStdErr` (deploy.go:467-483) appends `env` to `os.Environ()`. The model records only the extra `env`.
- `runCommand` (deploy.go:485-500) is not called by the core and is not modelled.
- `deploySwarmStack`, `checkRunningService` and `updateService` are not part of this model. Their results are answers of the `World`.
- The errors of `updateService` are discarded by the source and so are not modelled.
- `git.PlainCloneContext`, `compose.NewComposeDeployer`, `Deploy` and `Remove` are opaque library calls. The model has only their success or failure.
- `Host.Machine.MkdirAll`: the parent directories that `os.MkdirAll` also creates are not added to the workspace.
- `Paths.Dir`: `filepath.Clean` is not modelled. `Dir`, `Base` and `JoinPath` work on `/`-separated, already clean paths. `JoinPath` does not collapse `..` or repeated separators.
- `runtime.GOOS` is the `windows` flag of `Process.Config`.
- `Strings.Sort`: `sort.Strings` is modelled by its result, an insertion sort. The library's algorithm is not modelled.
- `Sops.MatchesSopsPattern`: `filepath.Match("*.sops.*", name)` is modelled as "contains `.sops.` and no `/`". With a constant, well-formed pattern, the error branch of `Match` (deploy.go:319-321) cannot occur.
- `Sops.WalkRoot`: the directory walk is the list of entries the `World` reports, in walk order. An entry reported with an error is skipped, as the callback's `return nil` does. Pruning of unreadable directories is not modelled.
- The `if err != nil` after `dockerLogin` (deploy.go:37-39 and 167-169) is dead code, because `dockerLogin` always returns nil (proved by `Registry.DockerLogin`).
- `Undeploy.UndeployRun`: `compose.NewComposeDeployer()` in undeploy.go:30 takes no arguments, cannot fail and is not recorded as an effect.
- `Undeploy.SwarmUndeployRun` ignores the repository URL, as the source does.
- `Sops.SopsDecrypt` and the two deploy commands walk the root folders `findRootPaths` returns, as written. The corrected roots are used only by `Sops.SopsDecryptCorrected` and the lemmas about it (see Findings).
- The SOPS marker is `.sops.` (deploy.go:318 and 340).
- The forced swarm update depends only on the services running before the deployment (deploy.go:205-212).
- `Workspace.MakeWorkingDir`: `filepath.Join` cleans its result. The model does not, so its contract covers only a clean destination and a project name that is one clean path element; a name such as `..` or `a/` is not covered.
- `Paths.JoinIsUnder`: the containment holds for the model's `JoinPath`, which does not clean. For Go's `path.Join` it holds only when every `/`-separated segment of the second element is one clean path element; a repository name `..` (a URL ending in `/..` or `/..git`) puts the clone at `<dest>/stacks`, outside the project folder.
- `Workspace.ComposeFilePaths`: for the same reason, a relative compose path with a `..` segment (`../x.yml`) lies outside the clone in Go, although the model's path lies inside it.
- `Deploy.ComposeDecryptsSops`: a relative compose path with a `.` or `..` segment (`./docker-compose.yml`) gives the model a root folder such as `clone/.`, where Go's cleaned `filepath.Dir` gives `clone`; the roots, and so the files collected, then differ from Go's.
- `Undeploy.UndeployRemovesDeployment`: covers only repository names that are one clean path element, for the same reason.
- `Workspace.WorkingDirsDistinct`: for the same reason, names that differ only before cleaning (`a` and `a/`) are not covered.

## Findings

| source | as written | input that shows it | evidently intended | confidence | as-written member | corrected member |
|---|---|---|---|---|---|---|
| deploy.go:397 | a folder is dropped when it starts with the last kept root as a plain string (`strings.HasPrefix`) | compose files `/a/x/f` and `/a/xy/f`, with the SOPS file `/a/xy/s.sops.env`: only `/a/x` is kept, and its walk never enters `/a/xy`, so that file is never decrypted | drop a folder only when it lies inside a kept root, comparing whole path components | not executed | Sops.SiblingSopsFileMissed | Sops.CorrectedRootsReachSops |
