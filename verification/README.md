# LinuxVersionedDirUpdater: run orchestration and background aggregation

This project models the orchestration layer of LinuxVersionedDirUpdater in Dafny. That layer keeps a fixed,
ordered set of versioned directories under `/versioned` in step with a deployment
version published at a URL. It has two parts:

- **The master updater** (`Updater`). Construction validates the URL, the deployment version and the target
  list, then builds one `DirectoryHandler` per target. `run` makes one synchronous pass:
  `starting(N)`, then each handler's `update` in order, then `finished()`. It returns `true`
  iff no handler returned `Outcome.Failed`. `getState` collects one triad per handler.
  `main` maps the result of a single pass to an exit code.
- **The background updater** (`AppBackgroundUpdater`). It is the callback for repeated passes. It keeps the
  expected count, the started count and one counter per outcome kind, and exposes five
  predicates to its `statsReady` hook. It repeats the pass while the hook calls `runAgain()`.

Modules:

- `Outcomes` (`outcomes.dfy`): the four outcome kinds the code uses. These are `CriticalUpdate`,
  `Updated` (the non-critical update), `NoUpdate` and `Failed`.
- `Callback` (`callback.dfy`): the callback protocol as events. A `Session` is what one
  handler reports: the `start` arguments and one terminal call. `ProtocolTrace` is the
  well-formed trace of one pass.
- `MasterUpdater` (`master_updater.dfy`): construction, `Run` as a method that returns the calls it makes
  and its result, `GetState`, and the exit-code decision.
- `BackgroundUpdater` (`background_updater.dfy`): the counter record and its step functions (one per
  callback), the five predicates, `Replay` (the counters after a sequence of callback
  events), and the repeat loop.

Handlers are not modelled. Their results are inputs instead:
- the outcome each `update` returns;
- the session each handler reports through the callback;
- the triad each handler's `getState` returns;
- how many times the hook calls `runAgain()` in each pass.

## Model

| member | source | states |
|---|---|---|
| MasterUpdater.CreateDirectoryHandlers | src/org/litesoft/linuxversioneddirupdater/Updater.java:30-36 | exactly one handler per target, handler i for target i, each rooted at `/versioned` |
| MasterUpdater.NewUpdater | src/org/litesoft/linuxversioneddirupdater/Updater.java:20-28 | construction succeeds iff the URL, the version and the raw target argument are non-empty and the parsed entries are at least one with none empty. An empty target argument is rejected before it is parsed. The error names the first rejected argument (`URL`, then `DeploymentVersion`, then `CSVTargets`). On success, the URL and version are kept and there is one `/versioned` handler per parsed entry, in order |
| MasterUpdater.Run | src/org/litesoft/linuxversioneddirupdater/Updater.java:63-71 | the calls the pass makes are the reference trace (`starting(N)`, then the updates in order, then `finished()`). The pass returns true iff no handler returned `Failed` |
| MasterUpdater.FailureFlagIff | src/org/litesoft/linuxversioneddirupdater/Updater.java:64-70 | the OR-accumulated failure flag is set iff some outcome is `Failed` (both directions) |
| MasterUpdater.FailureFlagMonotone | src/org/litesoft/linuxversioneddirupdater/Updater.java:67 | once the failure flag is set after some handler, it stays set after every later handler |
| MasterUpdater.UpdateCallsAt | src/org/litesoft/linuxversioneddirupdater/Updater.java:66-68 | update call i goes to handler i, with the pass's URL, version, verbosity and callback |
| MasterUpdater.RunTraceShape | src/org/litesoft/linuxversioneddirupdater/Updater.java:65-69 | the positions of `starting` in a pass are exactly {first}, with argument N; the positions of `finished` are exactly {last}; position i+1 is handler i's update, with the shared arguments. So each handler is updated exactly once, in array order |
| MasterUpdater.GetState | src/org/litesoft/linuxversioneddirupdater/Updater.java:76-82 | the snapshot carries the deployment version and one triad per handler, triad i from handler i |
| MasterUpdater.MainExitCodes | src/org/litesoft/linuxversioneddirupdater/Updater.java:38-56 | exit 1 iff the argument count is not 3. Exit 2 iff there are 3 arguments that construction rejects, the third being the raw target argument. Exit 3 iff the configuration is valid, some handler failed and the state is not runnable. Exit 0 otherwise, including failures while the state stays runnable |
| MasterUpdater.EmptyTargetArgument | src/org/litesoft/linuxversioneddirupdater/Updater.java:26 | an empty third argument exits with 2, whatever the target parser would return |
| Callback.ProtocolTraceShape | src/org/litesoft/linuxversioneddirupdater/AppBackgroundUpdater.java:75-115 | in a well-formed pass, `starting(N)` is the only starting call and comes first. `finished` is the only finishing call and comes last. Session i's `start` and terminal call sit at positions 2i+1 and 2i+2 |
| BackgroundUpdater.OnStarting | src/org/litesoft/linuxversioneddirupdater/AppBackgroundUpdater.java:77-81 | `starting(n)` sets expected to n, started to 0 and every outcome counter to 0, whatever the prior state |
| BackgroundUpdater.ReplayAfterStarting | src/org/litesoft/linuxversioneddirupdater/AppBackgroundUpdater.java:77-81 | everything after `starting(n)` behaves the same whatever the statistics before it were |
| BackgroundUpdater.OnStart | src/org/litesoft/linuxversioneddirupdater/AppBackgroundUpdater.java:84-87 | `start` increments started by one and leaves expected and every counter unchanged |
| BackgroundUpdater.Record | src/org/litesoft/linuxversioneddirupdater/AppBackgroundUpdater.java:71-73 | recording an outcome increments that kind's counter by one. Every other counter, expected and started are unchanged |
| BackgroundUpdater.TerminalCallsCountOwnKind | src/org/litesoft/linuxversioneddirupdater/AppBackgroundUpdater.java:95-115 | each of the four terminal calls increments exactly its own kind's counter: critical, non-critical (`Updated`), no-update or failed. Expected and started are untouched |
| BackgroundUpdater.TallyCounts | src/org/litesoft/linuxversioneddirupdater/AppBackgroundUpdater.java:63-69 | after recording a sequence of outcomes, each counter is the number of occurrences of its kind, and `completed()` is the length of the sequence |
| BackgroundUpdater.FinishedPass | src/org/litesoft/linuxversioneddirupdater/AppBackgroundUpdater.java:43-92 | at `finished` after a well-formed pass of N sessions, expected = started = completed = N. Each counter is its kind's occurrence count. `areUnfinished` and `areNotStarted` are false. `areCriticalUpdates`, `areNonCriticalUpdates` and `areFailed` are each true iff some session had that outcome |
| BackgroundUpdater.MidPass | src/org/litesoft/linuxversioneddirupdater/AppBackgroundUpdater.java:55-87 | at every point of a pass, completed <= started <= expected. `areUnfinished` holds exactly between a `start` and its terminal call. `areNotStarted` holds exactly until the last `start` |
| BackgroundUpdater.RunAgreesWithStats | src/org/litesoft/linuxversioneddirupdater/AppBackgroundUpdater.java:51-53 | when each handler reports one session and returns the outcome it reported, the pass's success flag is the negation of `areFailed` at `finished` |
| BackgroundUpdater.RaiseRunAgain | src/org/litesoft/linuxversioneddirupdater/AppBackgroundUpdater.java:39-41 | after any number of `runAgain()` calls, the flag is set iff it was already set or there was at least one call. Repeated calls act as one |
| BackgroundUpdater.BackgroundLoop | src/org/litesoft/linuxversioneddirupdater/AppBackgroundUpdater.java:22-26 | the flag is cleared before every pass, so a stale flag is ignored. Every pass before the last called `runAgain()`. The loop has stopped iff the last pass did not call it; otherwise the thread is still looping when the observed pass budget runs out |
| BackgroundUpdater.AlwaysAskingNeverStops | src/org/litesoft/linuxversioneddirupdater/AppBackgroundUpdater.java:22-26 | a hook that calls `runAgain()` in every pass never lets the loop stop |
| BackgroundUpdater.PassCount | src/org/litesoft/linuxversioneddirupdater/AppBackgroundUpdater.java:22-26 | total passes = 1 + the number of passes in which `runAgain()` was called |
| BackgroundUpdater.StopsAfterUnique | src/org/litesoft/linuxversioneddirupdater/AppBackgroundUpdater.java:22-26 | the hook's calls determine the number of passes uniquely |
| BackgroundUpdater.AnotherPassIffAsked | src/org/litesoft/linuxversioneddirupdater/AppBackgroundUpdater.java:22-26 | in a loop that stops, pass i is followed by another pass iff `runAgain()` was called during pass i |

## Left out

- Threads: thread creation, `setDaemon`, `start` and the cross-thread visibility of the flag and counters (AppBackgroundUpdater.java:19-30) are not modelled. Only the loop body on its own thread is.
- `DirectoryHandler.update`, `DirectoryHandler.getState`, `State.isRunnable`, `VersionedTargetTriad` and `CallbackConsole`: their code is not part of this model. Their results are inputs (outcomes, sessions, a triad function, a `runnable` flag).
- `Strings.validateNotNullOrEmpty`, `parseSimpleCSV`, `checkForEmptyEntries` and `validateAtLeastOne` are not part of this model. The parser is a function parameter (`split`).
- MasterUpdater.NewUpdater: assumes the helpers' rules are exactly "non-empty string", "no empty entry" and "at least one entry". Null arguments are not represented, and any trimming the validators do is not modelled.
- `System.out` messages and `System.exit` are left out. `MainExit` returns the exit status instead.
- MasterUpdater.MainExitCodes: an `IllegalArgumentException` raised inside `run` or `getState` would also exit with 2. The model only gives 2 for rejected construction arguments.
- Exceptions escaping a handler's `update` are not modelled. In the source, such an exception ends the pass with no `finished()` and ends the background thread.
- BackgroundUpdater.BackgroundLoop: a loop that never stops cannot be returned from, so the method observes at most a given number of passes and reports whether the thread had stopped by then. `AlwaysAskingNeverStops` states the non-terminating case.
- Counter width: Java `int` counters are unbounded `nat`/`int` here. `MidPass` shows that no counter exceeds N under the protocol, so they cannot wrap.
- Protocol violations: `Replay` accepts any event order, but the lemmas only speak about well-formed passes. The source does not defend against violations either.
- `AppBackgroundUpdater.getState` (AppBackgroundUpdater.java:33-35) only delegates to the master updater's `getState`, which `MasterUpdater.GetState` models.
- The `statsReady` hook is represented only by the number of `runAgain()` calls it makes in each pass, as a function over all passes. Anything else it does is outside the model. So are `runAgain()` calls from other threads during a pass.
- The code resets the counters in `starting(n)`, not at the top of the loop, and nothing enforces `started <= expected` outside a well-formed pass. The model follows the code, so these invariants are proved only for well-formed passes (`MidPass`).
