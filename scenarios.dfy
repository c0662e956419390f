/**
 * The handler on concrete webhooks: config `{repo: "infra", service: "api"}`
 * and scripted answers of the OS. Every command not mentioned spawns and
 * exits with status 0.
 */
module Scenarios {
  import opened Substring
  import opened WebDeploy

  const Infra := DeployConfig("infra", "api")
  const InfraPush := Deploy(DeployRepo("infra"))
  const OtherPush := Deploy(DeployRepo("other"))

  const Quiet := Output(Exited(0), [], [])
  const UpdatingBytes := AsciiBytes("Updating abc123..def456\n")

  /** Every command prints "Already up to date.\n". */
  function CurrentRepo(k: nat): Spawn
  {
    Spawned(Output(Exited(0), UpToDateMarker + AsciiBytes("\n"), []))
  }

  /** Every command prints a fast-forward notice. */
  function NewCommits(k: nat): Spawn
  {
    Spawned(Output(Exited(0), UpdatingBytes, []))
  }

  /** As `NewCommits`, but the build (the fifth command) exits with 101. */
  function BrokenBuild(k: nat): Spawn
  {
    if k == 4 then Spawned(Output(Exited(101), [], [])) else NewCommits(k)
  }

  /** `git pull` cannot be spawned. */
  function NoGit(k: nat): Spawn
  {
    if k == PullStep then SpawnFailed("No such file or directory (os error 2)") else Spawned(Quiet)
  }

  lemma MarkerFound()
    ensures SaysUpToDate(CurrentRepo(PullStep).output)
  {
    IsSubSelf(UpToDateMarker);
    IsSubInContext([], UpToDateMarker, AsciiBytes("\n"), UpToDateMarker);
    assert [] + UpToDateMarker + AsciiBytes("\n") == CurrentRepo(PullStep).output.stdout;
  }

  lemma MarkerAbsent()
    ensures !SaysUpToDate(NewCommits(PullStep).output)
  {
    assert UpToDateMarker[0] == 'A' as int as byte;
    NotSubWithoutFirst(UpdatingBytes, UpToDateMarker);
  }

  /** The repository is current: "Already up to date", four commands, no
      build and no restart. */
  lemma AlreadyCurrent(result: Result<string>, trace: seq<Command>)
    requires DeployBehaviour(Infra, InfraPush, CurrentRepo, result, trace)
    ensures result == Ok(UpToDateReply) && |trace| == 4
    ensures forall c :: c in trace ==> c.program != "cargo" && c.program != "systemctl"
  {
    MarkerFound();
    UpToDateSkipsBuildAndRestart(Infra, InfraPush, CurrentRepo, result, trace);
  }

  /** A push to another repository: rejected with its name, a 500 whose body
      names it, and no command issued. */
  lemma WrongRepository(result: Result<string>, trace: seq<Command>)
    requires DeployBehaviour(Infra, OtherPush, NewCommits, result, trace)
    ensures result == Err(WrongRepo("other")) && trace == []
    ensures HandlerResponse(result) == Response(500, "tried to deploy a different repo: other")
  {
  }

  /** New commits: "Deployed" after the build and the restart of `api`. */
  lemma NewCommitsDeployed(result: Result<string>, trace: seq<Command>)
    requires DeployBehaviour(Infra, InfraPush, NewCommits, result, trace)
    ensures result == Ok(DeployedReply) && |trace| == 6
    ensures trace[4] == Command("cargo", ["build", "--release"], Some("/var/www/infra"))
    ensures trace[5] == Command("systemctl", ["restart", "api"], None)
  {
    MarkerAbsent();
    FreshPullBuildsThenRestarts(Infra, InfraPush, NewCommits, result, trace);
    assert WebRoot + Infra.repo == "/var/www/infra";
  }

  /** A failing build does not stop the handler: exit statuses are never
      inspected, so `api` is restarted and the reply is still "Deployed". */
  lemma BrokenBuildStillDeployed(result: Result<string>, trace: seq<Command>)
    requires DeployBehaviour(Infra, InfraPush, BrokenBuild, result, trace)
    ensures result == Ok(DeployedReply) && |trace| == 6
    ensures trace[5] == Command("systemctl", ["restart", "api"], None)
  {
    MarkerAbsent();
    FreshPullBuildsThenRestarts(Infra, InfraPush, BrokenBuild, result, trace);
  }

  /** Without `git`, the handler answers with the I/O error; `kill` is never
      issued. */
  lemma MissingGit(result: Result<string>, trace: seq<Command>)
    requires DeployBehaviour(Infra, InfraPush, NoGit, result, trace)
    ensures result == Err(IO("No such file or directory (os error 2)"))
    ensures trace == [StartAgent, EnterDir("/var/www/infra"), Pull]
  {
    assert NoGit(0).Spawned? && NoGit(1).Spawned? && NoGit(PullStep).SpawnFailed?;
    SpawnErrorEndsChain(Infra, InfraPush, NoGit, result, trace, PullStep);
    assert WebRoot + Infra.repo == "/var/www/infra";
  }

  /** The same new commits with DEBUG events disabled: only `git pull` runs,
      yet the reply is "Deployed". */
  lemma NewCommitsWithDebugOff(result: Result<string>, trace: seq<Command>)
    requires QuietBehaviour(Infra, InfraPush, NewCommits, result, trace)
    ensures result == Ok(DeployedReply) && trace == [Pull]
  {
    MarkerAbsent();
  }
}
