# webdeploy: a Dafny model of the `/deploy` webhook handler

The agent serves one HTTP route, `POST /deploy`. A push notification names a
repository. If that name differs from the configured `repo`, the handler
answers `WrongRepo(name)` and spawns nothing. Otherwise it works in
`/var/www/<repo>` and is meant to spawn a fixed chain of external commands
with `Command::output().await?`:

1. `eval` with the argument `` `ssh-agent` ``
2. `cd <dir>`
3. `git pull`
4. `kill $SSH_AGENT_PID`
5. `cargo build --release`, run in `<dir>`
6. `systemctl restart <service>`

After step 4 the handler checks the stdout of `git pull` for the bytes
`Already up to date.`. If they are there, it replies "Already up to date".
Otherwise it runs steps 5 and 6 and replies "Deployed". A command that cannot
be spawned ends the handler at once with `Error::IO`. Exit statuses are never
inspected. An error becomes a 500 response whose body is the error's display
text.

As written, every command but `git pull` is spawned inside the arguments of a
`debug!` event. `tracing` evaluates those only when DEBUG events are enabled,
so with DEBUG off only `git pull` runs (see "## Findings").
`WebDeploy.DeployPostAsWritten` models the code as written.
`WebDeploy.DeployPost` is the corrected handler, which spawns the whole chain.

The model has three modules:

- `Substring` (`substring.dfy`) is `is_sub`. It is modelled as functions over
  `seq<T>`: `Windows` is `slice::windows` and `AnyEqual` is `Iterator::any`.
  Lemmas tie `is_sub` to the "occurs at some position" definition.
- `WebDeploy` (`webdeploy.dfy`) holds the rest:
  - the config, notification and error types;
  - the error messages and responses;
  - the repository check and the target directory;
  - the command records;
  - the process runner, as an oracle `run: nat -> Spawn` that gives the
    outcome of the k-th command one invocation issues;
  - the handler.

  `DeployPost` is a method. It issues the commands one by one, appending each
  to the trace it returns, and it uses `:-` where the source uses `?`. Its
  contract is `DeployBehaviour`, which pins down the result and the trace
  completely (`BehaviourDependsOnlyOnSpawnsAndPull`). The lemmas beside it
  derive each early exit from that contract.
- `Scenarios` (`scenarios.dfy`) states what the handler's contract implies for
  concrete webhooks and scripted OS answers.

External collaborators enter as parameters:

- The OS is the `Runner` oracle.
- The logging subscriber's DEBUG switch is the `debugEnabled` parameter of
  `DeployPostAsWritten`.
- The config and the notification arrive as already-decoded values.

The error enum has only `WrongRepo` and `IO`. Exit statuses are never read: a
build that exits non-zero still leads to a restart and a "Deployed" reply
(`Scenarios.BrokenBuildStillDeployed`). A `git pull` that cannot be spawned
returns before `kill` is issued, so the credential agent is not released on
that path (`WebDeploy.PullSpawnErrorLeavesAgent`).

## Model

| member | source | states |
|---|---|---|
| `Substring.Windows` | src/lib.rs:97 | `windows(size)` yields every contiguous slice of length `size`, in order: `|s| - size + 1` of them, slice `i` being `s[i..i+size]`, and none when `s` is shorter; `size` must be positive (`windows(0)` panics) |
| `Substring.AnyEqual` | src/lib.rs:97 | `.any(\|c\| c == needle)` is true exactly when the needle is one of the windows |
| `Substring.IsSub` | src/lib.rs:96-98 | `is_sub` needs a non-empty needle and is false whenever the haystack is shorter than the needle |
| `Substring.IsSubIffOccurs` | src/lib.rs:96-98 | `is_sub(h, n)` holds iff some `i` with `i + |n| <= |h|` has `h[i..i+|n|] == n` |
| `Substring.IsSubInContext` | src/lib.rs:96-98 | an occurrence is still found whatever bytes precede or follow it |
| `Substring.IsSubSelf` | src/lib.rs:96-98 | a needle is found in itself |
| `Substring.NotSubWithoutFirst` | src/lib.rs:96-98 | a haystack lacking the needle's first element does not contain the needle |
| `WebDeploy.Message` | src/lib.rs:34-39 | the display text of `WrongRepo(name)` starts with `"tried to deploy a different repo: "` and exactly `name` is read back after it; the text of `IO(cause)` is `"io error: "` followed by exactly `cause`, and it never reads as a wrong-repository message |
| `WebDeploy.MessageInjective` | src/lib.rs:34-39 | two errors with the same display text are the same error |
| `WebDeploy.ErrorResponse` | src/lib.rs:42-46 | `into_response` answers every error with status 500, never 200, and the error's display text as body |
| `WebDeploy.HandlerResponse` | src/lib.rs:52 | the handler's reply has status 200 exactly when its result is `Ok` |
| `WebDeploy.HandlerResponseInjective` | src/lib.rs:42-52 | the reply determines the handler's result: equal responses come from equal results, so success, each success message and each error can be told apart by status and body |
| `WebDeploy.TargetDir` | src/lib.rs:54-58 | the check succeeds iff the notification names the configured repository; on success the directory is `"/var/www/"` followed by exactly `config.repo`; on failure the error is `WrongRepo` carrying the notification's own name |
| `WebDeploy.DirInjective` | src/lib.rs:55 | two configurations with the same target directory have the same repository |
| `WebDeploy.Chain` | src/lib.rs:60-92 | the handler's commands are six distinct commands; `git pull` is the third and `kill` the fourth, and neither `cargo` nor `systemctl` comes before or at `kill` |
| `WebDeploy.SaysUpToDate` | src/lib.rs:72 | the pull reports "up to date" exactly when the bytes `Already up to date.` occur at some position of its stdout |
| `WebDeploy.RunCommand` | src/lib.rs:62 | `Command::output().await?`: the command is appended to the issued commands; a spawn error becomes `Error::IO` with its cause, and any spawned output (whatever its exit status) is returned |
| `WebDeploy.DeployPost` | src/lib.rs:49-94 | the handler, with every command issued: the trace is always an initial part of the fixed six-command chain; a wrong repository gives `WrongRepo(name)` and an empty trace, a matching one issues at least `eval`; every command but the last spawned; the last one, if it failed to spawn, gives `IO` with its cause; otherwise the chain stopped after `kill` with "Already up to date" when the pull printed the marker, or after `systemctl` with "Deployed"; after the marker nothing past `kill` is issued |
| `WebDeploy.BehaviourDependsOnlyOnSpawnsAndPull` | src/lib.rs:60-93 | two runs whose OS answers agree on which commands spawned, on the spawn errors and on the pull's stdout give the same result and the same trace; exit statuses and all other output make no difference, and the handler's contract determines its outcome |
| `WebDeploy.UpToDateSkipsBuildAndRestart` | src/lib.rs:72-74 | with the marker in the pull's stdout and the first four commands spawned, the reply is "Already up to date", the trace is `eval`, `cd <dir>`, `git pull`, `kill`, and neither `cargo` nor `systemctl` is issued |
| `WebDeploy.FreshPullBuildsThenRestarts` | src/lib.rs:76-93 | without the marker and with every command spawned, `cargo build --release` runs in `/var/www/<repo>`, then `systemctl restart <service>` runs, after the four earlier commands, and the reply is "Deployed" |
| `WebDeploy.SpawnErrorEndsChain` | src/lib.rs:60-92 | a spawn error at step k (one the chain reaches) gives `Err(IO(cause))`, and exactly the first k+1 commands of the chain are issued; a failing `kill` ends the handler even when the pull printed the marker, because `kill` comes before the marker check |
| `WebDeploy.PullSpawnErrorLeavesAgent` | src/lib.rs:65-70 | when `git pull` cannot be spawned, the handler returns `IO` after three commands and `kill` is never issued |
| `WebDeploy.SuccessIssuedKill` | src/lib.rs:65-74 | every successful reply comes after spawned `git pull` and `kill` at positions 2 and 3, and the reply is "Already up to date" exactly when the pull printed the marker |
| `WebDeploy.DeployPostAsWritten` | src/lib.rs:60-93 | the handler as written: with DEBUG events enabled it behaves exactly as `DeployPost`; with them disabled only `git pull` is issued, and the reply follows from the pull alone |
| `WebDeploy.QuietDeployNeverBuilds` | src/lib.rs:76-93 | with DEBUG events disabled, a spawned pull without the marker is answered "Deployed" while neither `cargo` nor `systemctl` was issued |
| `Scenarios.MarkerFound` | src/lib.rs:72 | a pull that printed `"Already up to date.\n"` is recognised as up to date, since the marker occurs in it followed by a newline |
| `Scenarios.AlreadyCurrent` | src/lib.rs:72-74 | pull output `"Already up to date.\n"` (for repo `infra`, service `api`): "Already up to date" after four commands, no build and no restart |
| `Scenarios.WrongRepository` | src/lib.rs:54-58 | a push for `other`: `WrongRepo("other")`, no command, and the response is 500 with body `tried to deploy a different repo: other` |
| `Scenarios.NewCommitsDeployed` | src/lib.rs:76-93 | pull output `"Updating abc123..def456\n"`: "Deployed" after `cargo build --release` in `/var/www/infra` and `systemctl restart api` |
| `Scenarios.BrokenBuildStillDeployed` | src/lib.rs:76-93 | a build that exits with 101 is followed by the restart and the reply "Deployed" |
| `Scenarios.MissingGit` | src/lib.rs:65 | `git` cannot be spawned: `IO` carrying the OS's message, after exactly `eval`, `cd /var/www/infra` and `git pull`, so `kill` is never issued |
| `Scenarios.NewCommitsWithDebugOff` | src/lib.rs:60-93 | the new-commits webhook with DEBUG disabled: only `git pull` is issued, and the reply is "Deployed" |

## Findings

| source | as written | input that shows it | evidently intended | confidence | as-written member | corrected member |
|---|---|---|---|---|---|---|
| src/lib.rs:60-92 | `eval`, `cd`, `kill`, `cargo build --release` and `systemctl restart` are spawned inside the arguments of `debug!`. `tracing` evaluates those arguments only when the subscriber enables DEBUG events, so with DEBUG off only `git pull` runs. | A notification for the configured repository, pull output `"Updating abc123..def456\n"`, and a subscriber at INFO level: the reply is "Deployed", but nothing was built or restarted and no agent was started or killed. | Spawn every command unconditionally and log its output at DEBUG, as lines 65-66 already do for `git pull`. | not executed; rests on `tracing` evaluating a disabled event's fields lazily, and on the subscriber configuration, which lies outside this file | `WebDeploy.DeployPostAsWritten`, `WebDeploy.QuietDeployNeverBuilds`, `Scenarios.NewCommitsWithDebugOff` | `WebDeploy.DeployPost` |

## Left out

- The axum router, the `Extension` layer and `Json` extraction (src/lib.rs:9-16, 49-52) are framework plumbing. The config and the notification are plain values.
- serde decoding of the body is left out. The model starts from the decoded `repository.name`.
- tokio's process spawning and `async`/`.await` are replaced by the `Runner` oracle. Whether `eval` and `cd` exist as executables on the host is up to the oracle. Shell semantics are not modelled: `eval` and `cd` affect nothing later, `$SSH_AGENT_PID` is a literal argument, and `git pull` runs in the agent's own working directory.
- The log output of `warn!`, `debug!` and `error!` is left out. The only effect of logging that is modelled is that the commands inside `debug!` run only when DEBUG is enabled.
- The `std::io::Error` payload is reduced to its display text, the opaque `cause` string.
- `is_sub` is generic over `T: PartialEq`, which need not be reflexive. Substring.IsSub compares elements with Dafny's equality, which agrees with `PartialEq` on `u8`, the only element type the handler uses. For a non-reflexive `PartialEq` (floating-point NaN, say), `Substring.IsSubSelf` and `Substring.IsSubIffOccurs` would not describe the source.
- Response headers (such as the content type) are left out. Only the status and the body are modelled.
- WebDeploy.DeployPostAsWritten: DEBUG enablement is one boolean for all five `debug!` call sites, fixed for the whole invocation. A subscriber that filters these call sites differently, or changes its filter during a request, is not modelled.
- The model does not claim the following, because the code does not implement it: failure kinds based on exit status, agent release on every path, per-repository locking, timeouts, and behaviour under concurrent requests.
