/**
 * External processes as data: the configuration the binaries are found
 * through, the command lines the deployment issues, and the error values
 * it returns.
 */
module Process {
  import opened Paths

  /** Process-wide settings: `BIN_PATH`, `PORTAINER_DOCKER_CONFIG_PATH` and `runtime.GOOS`. */
  datatype Config = Config(binPath: string, dockerConfigPath: string, windows: bool)

  /**
   * One run of `runCommandAndCaptureStdErr`: the binary, its arguments, the
   * extra environment appended to the process environment, and the working
   * directory (`""` for the caller's own).
   */
  datatype Command = Command(binary: string, args: seq<string>, env: seq<string>, dir: string)

  /**
   * What the commands return: `errDeployComposeFailure`, or an error passed
   * up unchanged from a collaborator (a command's captured stderr, a failed
   * service query).
   */
  datatype Error = DeployComposeFailure | External(message: string)

  /** `getDockerBinaryPath`: the `docker` binary, `docker.exe` on Windows, in `BIN_PATH`. */
  function DockerBinary(cfg: Config): string
  {
    JoinPath(cfg.binPath, if cfg.windows then "docker.exe" else "docker")
  }

  /** `getSopsBinaryPath`: the `sops` binary, `sops.exe` on Windows, in `BIN_PATH`. */
  function SopsBinary(cfg: Config): string
  {
    JoinPath(cfg.binPath, if cfg.windows then "sops.exe" else "sops")
  }

  /** The docker binary is the file `docker` (`docker.exe` on Windows) inside `BIN_PATH`. */
  lemma DockerBinaryFound(cfg: Config)
    ensures Base(DockerBinary(cfg)) == if cfg.windows then "docker.exe" else "docker"
    ensures cfg.binPath != "" ==> IsUnder(DockerBinary(cfg), cfg.binPath)
  {
    BaseOfJoin(cfg.binPath, if cfg.windows then "docker.exe" else "docker");
    JoinIsUnder(cfg.binPath, if cfg.windows then "docker.exe" else "docker");
  }

  /** The sops binary is the file `sops` (`sops.exe` on Windows) inside `BIN_PATH`. */
  lemma SopsBinaryFound(cfg: Config)
    ensures Base(SopsBinary(cfg)) == if cfg.windows then "sops.exe" else "sops"
    ensures cfg.binPath != "" ==> IsUnder(SopsBinary(cfg), cfg.binPath)
  {
    BaseOfJoin(cfg.binPath, if cfg.windows then "sops.exe" else "sops");
    JoinIsUnder(cfg.binPath, if cfg.windows then "sops.exe" else "sops");
  }
}
