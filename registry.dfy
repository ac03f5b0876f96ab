/**
 * `dockerLogin` / `dockerLogout`: one `docker login` (or `logout`) per
 * registry entry `user:password:server`, best effort. An entry that does not
 * split on `:` into exactly three parts is skipped, and so is a command that
 * fails; both functions always return nil.
 */
module Registry {
  import opened Wrappers
  import opened Strings
  import opened Process

  /** The entry splits on `:` into exactly user, password and server. */
  predicate WellFormed(registry: string) {
    |Split(registry, ':')| == 3
  }

  /** The well-formed entries, in input order. */
  function WellFormedEntries(registries: seq<string>): seq<string> {
    if registries == [] then []
    else
      var last := registries[|registries| - 1];
      WellFormedEntries(registries[..|registries| - 1]) + (if WellFormed(last) then [last] else [])
  }

  function LoginCommand(cfg: Config, registry: string): Command
    requires WellFormed(registry)
  {
    var c := Split(registry, ':');
    Command(DockerBinary(cfg), ["--config", cfg.dockerConfigPath, "login", "--username", c[0], "--password", c[1], c[2]], [], "")
  }

  function LogoutCommand(cfg: Config, registry: string): Command
    requires WellFormed(registry)
  {
    var c := Split(registry, ':');
    Command(DockerBinary(cfg), ["--config", cfg.dockerConfigPath, "logout", c[2]], [], "")
  }

  /** The commands `dockerLogin` runs, in order. */
  function LoginCommands(cfg: Config, registries: seq<string>): seq<Command> {
    if registries == [] then []
    else
      var last := registries[|registries| - 1];
      LoginCommands(cfg, registries[..|registries| - 1]) + (if WellFormed(last) then [LoginCommand(cfg, last)] else [])
  }

  /** The commands `dockerLogout` runs, in order. */
  function LogoutCommands(cfg: Config, registries: seq<string>): seq<Command> {
    if registries == [] then []
    else
      var last := registries[|registries| - 1];
      LogoutCommands(cfg, registries[..|registries| - 1]) + (if WellFormed(last) then [LogoutCommand(cfg, last)] else [])
  }

  /**
   * `dockerLogin`: runs the login command of every well-formed entry in
   * order; malformed entries and failed commands are skipped, and the
   * result is always nil.
   */
  method DockerLogin(cfg: Config, registries: seq<string>, exec: Command -> Option<string>)
    returns (err: Option<Error>, ran: seq<Command>)
    ensures err == None
    ensures ran == LoginCommands(cfg, registries)
  {
    ran := [];
    var k := 0;
    while k < |registries|
      invariant 0 <= k <= |registries|
      invariant ran == LoginCommands(cfg, registries[..k])
    {
      assert registries[..k + 1][..k] == registries[..k];
      var credentials := Split(registries[k], ':');
      if |credentials| != 3 {
        k := k + 1;
        continue;
      }
      var command := LoginCommand(cfg, registries[k]);
      var failure := exec(command);  // a failed login is only logged
      ran := ran + [command];
      k := k + 1;
    }
    assert registries[..k] == registries;
    err := None;
  }

  /**
   * `dockerLogout`: the logout command of every well-formed entry, in order,
   * with the same skip policy; always nil.
   */
  method DockerLogout(cfg: Config, registries: seq<string>, exec: Command -> Option<string>)
    returns (err: Option<Error>, ran: seq<Command>)
    ensures err == None
    ensures ran == LogoutCommands(cfg, registries)
  {
    ran := [];
    var k := 0;
    while k < |registries|
      invariant 0 <= k <= |registries|
      invariant ran == LogoutCommands(cfg, registries[..k])
    {
      assert registries[..k + 1][..k] == registries[..k];
      var credentials := Split(registries[k], ':');
      if |credentials| != 3 {
        k := k + 1;
        continue;
      }
      var command := LogoutCommand(cfg, registries[k]);
      var failure := exec(command);  // a failed logout is only logged
      ran := ran + [command];
      k := k + 1;
    }
    assert registries[..k] == registries;
    err := None;
  }

  // ---------------------------------------------------------------------
  // What the two loops promise

  /** An entry is well formed exactly when it holds two `:`. */
  lemma WellFormedIffTwoColons(registry: string)
    ensures WellFormed(registry) <==> Count(registry, ':') == 2
  {
    SplitCount(registry, ':');
  }

  lemma {:induction false} CountAppend(a: string, b: string, c: char)
    ensures Count(a + b, c) == Count(a, c) + Count(b, c)
  {
    if a != [] {
      assert (a + b)[1..] == a[1..] + b;
      CountAppend(a[1..], b, c);
    } else {
      assert a + b == b;
    }
  }

  /** A server written `host:port` makes the entry malformed, so it is skipped. */
  lemma HostPortSkipped(user: string, password: string, host: string, port: string)
    ensures !WellFormed(user + ":" + password + ":" + host + ":" + port)
  {
    var s := user + ":" + password + ":" + host + ":" + port;
    var a, b := user + ":" + password, user + ":" + password + ":" + host;
    assert b == a + (":" + host) && s == b + (":" + port) && a == user + (":" + password);
    CountAppend(b, ":" + port, ':');
    CountAppend(a, ":" + host, ':');
    CountAppend(user, ":" + password, ':');
    assert (":" + port)[1..] == port && (":" + host)[1..] == host && (":" + password)[1..] == password;
    WellFormedIffTwoColons(s);
  }

  /** The well-formed entries are exactly the input's well-formed entries, in order. */
  lemma {:induction false} WellFormedEntriesSpec(registries: seq<string>)
    ensures forall x :: x in WellFormedEntries(registries) <==> x in registries && WellFormed(x)
  {
    if registries != [] {
      var init := registries[..|registries| - 1];
      WellFormedEntriesSpec(init);
      assert registries == init + [registries[|registries| - 1]];
    }
  }

  /**
   * `dockerLogin` issues exactly one command per well-formed entry, in input
   * order, with the argument vector
   * `--config P login --username user --password password server`.
   */
  lemma {:induction false} LoginCommandsSpec(cfg: Config, registries: seq<string>)
    ensures var cmds, entries := LoginCommands(cfg, registries), WellFormedEntries(registries);
      && |cmds| == |entries|
      && forall k :: 0 <= k < |cmds| ==>
        var c := Split(entries[k], ':');
        && |c| == 3
        && cmds[k] == Command(DockerBinary(cfg), ["--config", cfg.dockerConfigPath, "login", "--username", c[0], "--password", c[1], c[2]], [], "")
  {
    if registries != [] {
      LoginCommandsSpec(cfg, registries[..|registries| - 1]);
    }
  }

  /**
   * `dockerLogout` undoes `dockerLogin` entry by entry: as many commands, in
   * the same order, each `--config P logout server` for the server the
   * matching login used.
   */
  lemma {:induction false} LogoutMirrorsLogin(cfg: Config, registries: seq<string>)
    ensures var ins, outs := LoginCommands(cfg, registries), LogoutCommands(cfg, registries);
      && |outs| == |ins|
      && forall k :: 0 <= k < |outs| ==>
        && |ins[k].args| == 8
        && outs[k] == Command(ins[k].binary, ["--config", ins[k].args[1], "logout", ins[k].args[7]], [], "")
  {
    if registries != [] {
      LogoutMirrorsLogin(cfg, registries[..|registries| - 1]);
    }
  }
}
