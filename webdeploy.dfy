/**
 * The `/deploy` webhook handler of the deployment agent: the repository
 * check, the target directory, the chain of external commands with its early
 * exits, and the rendering of errors as HTTP responses.
 *
 * Process spawning is an oracle: `run(k)` is what the k-th command issued by
 * one handler invocation yields, either a spawn error or the captured output.
 */
module WebDeploy {
  import opened Substring

  newtype byte = b: int | 0 <= b < 256

  datatype Option<T> = None | Some(value: T)

  /** The configured repository name and the systemd unit to restart. */
  datatype DeployConfig = DeployConfig(repo: string, service: string)

  /** The decoded webhook body; only `repository.name` is read. */
  datatype DeployRepo = DeployRepo(name: string)
  datatype Deploy = Deploy(repository: DeployRepo)

  /** The handler's error enum. `cause` stands for the display text of the
      wrapped `std::io::Error`, which the model does not interpret. */
  datatype Error = WrongRepo(name: string) | IO(cause: string)

  /** `Result<_, Error>`, failure-compatible so that `:-` plays the part of `?`. */
  datatype Result<T> = Ok(value: T) | Err(error: Error) {
    predicate IsFailure() { Err? }

    function PropagateFailure<U>(): Result<U>
      requires Err?
    {
      Err(error)
    }

    function Extract(): T
      requires Ok?
    {
      value
    }
  }

  // ---------------------------------------------------------------------
  // Error messages and responses
  // ---------------------------------------------------------------------

  const WrongRepoPrefix := "tried to deploy a different repo: "
  const IOPrefix := "io error: "

  /** Reads the rejected repository name back out of a response body. */
  function RejectedRepo(body: string): Option<string>
  {
    if WrongRepoPrefix <= body then Some(body[|WrongRepoPrefix|..]) else None
  }

  /** The `Display` text of an error, as derived by `thiserror`: the name of
      a rejected repository reads back exactly, and an I/O error's text never
      reads as a rejection. */
  function Message(e: Error): (m: string)
    ensures RejectedRepo(m) == if e.WrongRepo? then Some(e.name) else None
    ensures e.IO? ==> IOPrefix <= m && m[|IOPrefix|..] == e.cause
  {
    match e
    case WrongRepo(name) => WrongRepoPrefix + name
    case IO(cause) =>
      assert (IOPrefix + cause)[0] == 'i' && WrongRepoPrefix[0] == 't';
      IOPrefix + cause
  }

  /** Distinct errors have distinct display texts. */
  lemma MessageInjective(e1: Error, e2: Error)
    requires Message(e1) == Message(e2)
    ensures e1 == e2
  {
    if e1.IO? && e2.IO? {
      assert e1.cause == Message(e1)[|IOPrefix|..];
    }
  }

  const StatusOk: nat := 200
  const StatusInternalServerError: nat := 500

  datatype Response = Response(status: nat, body: string)

  /** `Error::into_response`: an internal server error whose body is the
      display text. */
  function ErrorResponse(e: Error): (resp: Response)
    ensures resp.status == StatusInternalServerError && resp.status != StatusOk
    ensures resp.body == Message(e)
  {
    Response(StatusInternalServerError, Message(e))
  }

  /** The handler's `Result` as a response: a plain-text 200 for either
      success message, `ErrorResponse` for an error. */
  function HandlerResponse(r: Result<string>): (resp: Response)
    ensures resp.status == StatusOk <==> r.Ok?
  {
    match r
    case Ok(msg) => Response(StatusOk, msg)
    case Err(e) => ErrorResponse(e)
  }

  /** A client can tell every outcome of the handler apart from its
      response alone: success from failure by the status, the two success
      messages and the errors by the body. */
  lemma HandlerResponseInjective(r1: Result<string>, r2: Result<string>)
    requires HandlerResponse(r1) == HandlerResponse(r2)
    ensures r1 == r2
  {
    if r1.Err? && r2.Err? {
      MessageInjective(r1.error, r2.error);
    }
  }

  // ---------------------------------------------------------------------
  // The repository check and the target directory
  // ---------------------------------------------------------------------

  const WebRoot := "/var/www/"

  /** The `let dir = if ... else return Err(...)` step. */
  function TargetDir(config: DeployConfig, deploy: Deploy): (r: Result<string>)
    ensures r.Ok? <==> deploy.repository.name == config.repo
    ensures r.Ok? ==> WebRoot <= r.value && r.value[|WebRoot|..] == config.repo
    ensures r.Err? ==> r.error == WrongRepo(deploy.repository.name)
  {
    if deploy.repository.name == config.repo then Ok(Dir(config))
    else Err(WrongRepo(deploy.repository.name))
  }

  /** The directory of the configured repository. */
  function Dir(config: DeployConfig): string
  {
    WebRoot + config.repo
  }

  /** Distinct repositories get distinct directories. */
  lemma DirInjective(c1: DeployConfig, c2: DeployConfig)
    requires Dir(c1) == Dir(c2)
    ensures c1.repo == c2.repo
  {
    assert c1.repo == Dir(c1)[|WebRoot|..];
  }

  // ---------------------------------------------------------------------
  // Commands and the process-runner oracle
  // ---------------------------------------------------------------------

  /** A command as handed to the OS: program, arguments, working directory
      (`None`: the agent's own). Arguments are literal: no shell is involved. */
  datatype Command = Command(program: string, args: seq<string>, cwd: Option<string>)

  const StartAgent := Command("eval", ["`ssh-agent`"], None)

  function EnterDir(dir: string): Command
  {
    Command("cd", [dir], None)
  }

  const Pull := Command("git", ["pull"], None)
  const KillAgent := Command("kill", ["$SSH_AGENT_PID"], None)

  function Build(dir: string): Command
  {
    Command("cargo", ["build", "--release"], Some(dir))
  }

  function Restart(service: string): Command
  {
    Command("systemctl", ["restart", service], None)
  }

  /** Every command the handler can issue, in the order it issues them: six
      distinct commands, `git pull` third and `kill` fourth, and the build
      and the restart only after `kill`. */
  function Chain(config: DeployConfig): (cs: seq<Command>)
    ensures |cs| == 6 && cs[PullStep] == Pull && cs[KillStep] == KillAgent
    ensures forall i, j :: 0 <= i < j < |cs| ==> cs[i] != cs[j]
    ensures forall i :: 0 <= i <= KillStep ==> cs[i].program != "cargo" && cs[i].program != "systemctl"
  {
    [StartAgent, EnterDir(Dir(config)), Pull, KillAgent, Build(Dir(config)), Restart(config.service)]
  }

  /** Positions in `Chain`. */
  const PullStep: nat := 2
  const KillStep: nat := 3

  datatype ExitStatus = Exited(code: int) | Signalled(signal: int)
  datatype Output = Output(status: ExitStatus, stdout: seq<byte>, stderr: seq<byte>)

  /** What spawning one command yields: `io::Result<Output>`. */
  datatype Spawn = Spawned(output: Output) | SpawnFailed(cause: string)

  /** The OS, as seen by one handler invocation: the outcome of its k-th command. */
  type Runner = nat -> Spawn

  /** `Command::output().await?`: the command is issued (appended to the
      trace of issued commands), and a spawn error becomes `Error::IO`.
      A non-zero exit is an ordinary output. */
  method RunCommand(run: Runner, issued: seq<Command>, cmd: Command)
    returns (r: Result<Output>, issued': seq<Command>)
    ensures issued' == issued + [cmd]
    ensures run(|issued|).Spawned? ==> r == Ok(run(|issued|).output)
    ensures run(|issued|).SpawnFailed? ==> r == Err(IO(run(|issued|).cause))
  {
    issued' := issued + [cmd];
    match run(|issued|)
    case Spawned(o) => r := Ok(o);
    case SpawnFailed(cause) => r := Err(IO(cause));
  }

  // ---------------------------------------------------------------------
  // The pipeline
  // ---------------------------------------------------------------------

  /** The bytes of an ASCII string. */
  function AsciiBytes(s: string): seq<byte>
    requires forall i :: 0 <= i < |s| ==> s[i] as int < 256
  {
    seq(|s|, i requires 0 <= i < |s| => s[i] as int as byte)
  }

  const UpToDateMarker: seq<byte> := AsciiBytes("Already up to date.")
  const UpToDateReply := "Already up to date"
  const DeployedReply := "Deployed"

  /** The idempotency check on the output of `git pull`: the marker
      occurs somewhere in its stdout. */
  predicate SaysUpToDate(o: Output): (b: bool)
    ensures b <==> exists i: nat :: OccursAt(o.stdout, UpToDateMarker, i)
  {
    IsSubIffOccurs(o.stdout, UpToDateMarker);
    IsSub(o.stdout, UpToDateMarker)
  }

  ghost predicate PullUpToDate(run: Runner)
  {
    run(PullStep).Spawned? && SaysUpToDate(run(PullStep).output)
  }

  /** What one invocation of the handler may do, given the OS's answers:
      everything it issues is an initial part of `Chain`, a wrong repository
      issues nothing, a spawn error ends the chain at once with `Error::IO`,
      and a spawned command is followed by the next one except after `kill`
      when the pull reported the marker. */
  ghost predicate DeployBehaviour(config: DeployConfig, deploy: Deploy, run: Runner,
                                  result: Result<string>, trace: seq<Command>)
  {
    var matches := deploy.repository.name == config.repo;
    // commands are issued only in the fixed order, each at most once
    && |trace| <= |Chain(config)| && trace == Chain(config)[..|trace|]
    // the repository check runs first and touches nothing on a mismatch
    && (!matches <==> trace == [])
    && (!matches ==> result == Err(WrongRepo(deploy.repository.name)))
    // every issued command but the last one was spawned
    && (forall k :: 0 <= k < |trace| - 1 ==> run(k).Spawned?)
    // how the chain ends
    && (trace != [] ==>
          match run(|trace| - 1)
          case SpawnFailed(cause) => result == Err(IO(cause))
          case Spawned(_) =>
            if PullUpToDate(run) then |trace| == 4 && result == Ok(UpToDateReply)
            else |trace| == 6 && result == Ok(DeployedReply))
    // after the marker nothing is issued past `kill`
    && (PullUpToDate(run) ==> |trace| <= KillStep + 1)
  }

  /** `deploy_post`, with every command issued unconditionally (see
      `DeployPostAsWritten` for the commands placed inside `debug!`). */
  method DeployPost(config: DeployConfig, deploy: Deploy, run: Runner)
    returns (result: Result<string>, trace: seq<Command>)
    ensures DeployBehaviour(config, deploy, run, result, trace)
  {
    trace := [];
    var dir :- TargetDir(config, deploy);
    ghost var chain := Chain(config);
    var agent, cd, pull, kill, build, restart: Output;
    agent, trace :- RunCommand(run, trace, StartAgent);
    assert trace == chain[..1];
    cd, trace :- RunCommand(run, trace, EnterDir(dir));
    assert trace == chain[..2];
    pull, trace :- RunCommand(run, trace, Pull);
    assert trace == chain[..3];
    kill, trace :- RunCommand(run, trace, KillAgent);
    assert trace == chain[..4];
    if SaysUpToDate(pull) {
      return Ok(UpToDateReply), trace;
    }
    build, trace :- RunCommand(run, trace, Build(dir));
    assert trace == chain[..5];
    restart, trace :- RunCommand(run, trace, Restart(config.service));
    result := Ok(DeployedReply);
  }

  // ---------------------------------------------------------------------
  // What callers can rely on
  // ---------------------------------------------------------------------

  /** Only whether each command spawned, the causes of spawn errors and the
      pull's stdout decide what the handler does: exit statuses and all other
      output are never inspected. In particular `DeployBehaviour` determines
      the result and the trace completely. */
  lemma BehaviourDependsOnlyOnSpawnsAndPull(config: DeployConfig, deploy: Deploy,
                                            run1: Runner, result1: Result<string>, trace1: seq<Command>,
                                            run2: Runner, result2: Result<string>, trace2: seq<Command>)
    requires forall k :: run1(k).SpawnFailed? <==> run2(k).SpawnFailed?
    requires forall k :: run1(k).SpawnFailed? ==> run1(k).cause == run2(k).cause
    requires run1(PullStep).Spawned? ==> run1(PullStep).output.stdout == run2(PullStep).output.stdout
    requires DeployBehaviour(config, deploy, run1, result1, trace1)
    requires DeployBehaviour(config, deploy, run2, result2, trace2)
    ensures result1 == result2 && trace1 == trace2
  {
  }

  /** The marker in a spawned pull, with a spawned `kill`: the reply is
      "Already up to date" and neither `cargo` nor `systemctl` is issued. */
  lemma UpToDateSkipsBuildAndRestart(config: DeployConfig, deploy: Deploy, run: Runner,
                                     result: Result<string>, trace: seq<Command>)
    requires DeployBehaviour(config, deploy, run, result, trace)
    requires deploy.repository.name == config.repo
    requires forall k :: 0 <= k <= KillStep ==> run(k).Spawned?
    requires PullUpToDate(run)
    ensures result == Ok(UpToDateReply)
    ensures trace == [StartAgent, EnterDir(WebRoot + config.repo), Pull, KillAgent]
    ensures forall c :: c in trace ==> c.program != "cargo" && c.program != "systemctl"
  {
  }

  /** A pull without the marker, with every command spawned: `cargo build
      --release` in the target directory, then `systemctl restart <service>`,
      after the four earlier commands, and the reply "Deployed". */
  lemma FreshPullBuildsThenRestarts(config: DeployConfig, deploy: Deploy, run: Runner,
                                    result: Result<string>, trace: seq<Command>)
    requires DeployBehaviour(config, deploy, run, result, trace)
    requires deploy.repository.name == config.repo
    requires forall k :: 0 <= k < |Chain(config)| ==> run(k).Spawned?
    requires !PullUpToDate(run)
    ensures result == Ok(DeployedReply)
    ensures trace == [StartAgent, EnterDir(WebRoot + config.repo), Pull, KillAgent,
                      Command("cargo", ["build", "--release"], Some(WebRoot + config.repo)),
                      Command("systemctl", ["restart", config.service], None)]
  {
  }

  /** A spawn error of the k-th command (one the chain reaches) ends the
      handler with that error; nothing after it is issued. */
  lemma SpawnErrorEndsChain(config: DeployConfig, deploy: Deploy, run: Runner,
                            result: Result<string>, trace: seq<Command>, k: nat)
    requires DeployBehaviour(config, deploy, run, result, trace)
    requires deploy.repository.name == config.repo
    requires k < |Chain(config)|
    requires forall j :: 0 <= j < k ==> run(j).Spawned?
    requires run(k).SpawnFailed?
    requires k <= KillStep || !PullUpToDate(run)
    ensures result == Err(IO(run(k).cause))
    ensures trace == Chain(config)[..k + 1]
  {
  }

  /** A `git pull` that cannot be spawned returns before `kill`: the agent
      is not released on that path. */
  lemma PullSpawnErrorLeavesAgent(config: DeployConfig, deploy: Deploy, run: Runner,
                                  result: Result<string>, trace: seq<Command>)
    requires DeployBehaviour(config, deploy, run, result, trace)
    requires deploy.repository.name == config.repo
    requires run(0).Spawned? && run(1).Spawned? && run(PullStep).SpawnFailed?
    ensures result == Err(IO(run(PullStep).cause))
    ensures |trace| == PullStep + 1 && trace[PullStep] == Pull
    ensures KillAgent !in trace
  {
  }

  /** A successful reply always comes after `kill` was issued and spawned,
      and the pull came right before it. */
  lemma SuccessIssuedKill(config: DeployConfig, deploy: Deploy, run: Runner,
                          result: Result<string>, trace: seq<Command>)
    requires DeployBehaviour(config, deploy, run, result, trace)
    requires result.Ok?
    ensures |trace| > KillStep && trace[PullStep] == Pull && trace[KillStep] == KillAgent
    ensures run(PullStep).Spawned? && run(KillStep).Spawned?
    ensures result.value == if PullUpToDate(run) then UpToDateReply else DeployedReply
  {
  }

  // ---------------------------------------------------------------------
  // The handler as written: commands inside `debug!`
  // ---------------------------------------------------------------------

  /** What the handler does when DEBUG events are disabled: `tracing` then
      does not evaluate the arguments of `debug!`, so only `git pull` runs. */
  ghost predicate QuietBehaviour(config: DeployConfig, deploy: Deploy, run: Runner,
                                 result: Result<string>, trace: seq<Command>)
  {
    if deploy.repository.name != config.repo then
      result == Err(WrongRepo(deploy.repository.name)) && trace == []
    else
      && trace == [Pull]
      && result == match run(0)
                   case SpawnFailed(cause) => Err(IO(cause))
                   case Spawned(o) => Ok(if SaysUpToDate(o) then UpToDateReply else DeployedReply)
  }

  /** `deploy_post` as written: `eval`, `cd`, `kill`, `cargo` and `systemctl`
      are spawned inside the arguments of `debug!`, so they run only when the
      subscriber enables DEBUG events (`debugEnabled`); `git pull` always runs. */
  method DeployPostAsWritten(config: DeployConfig, deploy: Deploy, run: Runner, debugEnabled: bool)
    returns (result: Result<string>, trace: seq<Command>)
    ensures debugEnabled ==> DeployBehaviour(config, deploy, run, result, trace)
    ensures !debugEnabled ==> QuietBehaviour(config, deploy, run, result, trace)
  {
    trace := [];
    var dir :- TargetDir(config, deploy);
    ghost var chain := Chain(config);
    var agent, cd, pull, kill, build, restart: Output;
    if debugEnabled {
      agent, trace :- RunCommand(run, trace, StartAgent);
    }
    if debugEnabled {
      cd, trace :- RunCommand(run, trace, EnterDir(dir));
      assert trace == chain[..2];
    }
    pull, trace :- RunCommand(run, trace, Pull);
    if debugEnabled {
      assert trace == chain[..3];
      kill, trace :- RunCommand(run, trace, KillAgent);
      assert trace == chain[..4];
    } else {
      assert trace == [Pull];
    }
    if SaysUpToDate(pull) {
      return Ok(UpToDateReply), trace;
    }
    if debugEnabled {
      build, trace :- RunCommand(run, trace, Build(dir));
      assert trace == chain[..5];
    }
    if debugEnabled {
      restart, trace :- RunCommand(run, trace, Restart(config.service));
    }
    result := Ok(DeployedReply);
  }

  /** With DEBUG disabled, a pull that fetched changes is answered
      "Deployed" although nothing was built or restarted. */
  lemma QuietDeployNeverBuilds(config: DeployConfig, deploy: Deploy, run: Runner,
                               result: Result<string>, trace: seq<Command>)
    requires QuietBehaviour(config, deploy, run, result, trace)
    requires deploy.repository.name == config.repo
    requires run(0).Spawned? && !SaysUpToDate(run(0).output)
    ensures result == Ok(DeployedReply)
    ensures forall c :: c in trace ==> c.program != "cargo" && c.program != "systemctl"
  {
  }
}
