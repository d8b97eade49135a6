/**
  The master updater: a validated, ordered list of directory handlers, one synchronous
  pass over them reporting through a callback, the on-demand state snapshot, and the
  exit-code decision of the command-line entry point.

  A directory handler's own update and state query read and write the file system;
  here their results are inputs: the outcome each handler's update returns, and the
  triad each handler reports.
 */
module MasterUpdater {
  import opened Outcomes

  const InvalidParameterCount: nat := 1
  const InvalidArguments: nat := 2
  const InvalidFailures: nat := 3
  const NormalExit: nat := 0

  /** The single root under which every target directory lives. */
  const VersionedRootPath: string := "/versioned"

  /** A handler for one target, located at `root`/`target`. */
  datatype DirectoryHandler = DirectoryHandler(root: string, target: string)

  datatype Updater = Updater(url: string, deploymentVersion: string, handlers: seq<DirectoryHandler>)

  /** A rejected construction argument, named as the source names it. */
  datatype ConfigError = InvalidArgument(field: string)

  datatype Result<T> = Ok(value: T) | Err(error: ConfigError)

  /** The identity of the callback object a pass reports to. */
  type CallbackId = nat

  /** The snapshot: the deployment version and one triad per handler. */
  datatype State<T> = State(deploymentVersion: string, triads: seq<T>)

  /**
    What construction accepts: a non-empty URL, version and target argument, whose
    entries under `split` are at least one and none empty. `split` stands for the
    comma-separated-value parser, whose code is not part of this model.
   */
  predicate ValidConfig(url: string, deploymentVersion: string, csvTargets: string, split: string -> seq<string>)
  {
    && url != ""
    && deploymentVersion != ""
    && csvTargets != ""
    && |split(csvTargets)| > 0
    && forall i :: 0 <= i < |split(csvTargets)| ==> split(csvTargets)[i] != ""
  }

  /** One handler per target, in order, each rooted at the versioned root. */
  function CreateDirectoryHandlers(targets: seq<string>): (handlers: seq<DirectoryHandler>)
    ensures |handlers| == |targets|
    ensures forall i :: 0 <= i < |targets| ==>
      handlers[i].root == VersionedRootPath && handlers[i].target == targets[i]
  {
    if |targets| == 0 then []
    else [DirectoryHandler(VersionedRootPath, targets[0])] + CreateDirectoryHandlers(targets[1..])
  }

  /**
    Construction. The URL is checked first, then the version, then the raw target
    argument, and only then its entries under `split`.
   */
  function NewUpdater(url: string, deploymentVersion: string, csvTargets: string, split: string -> seq<string>): (r: Result<Updater>)
    ensures r.Ok? <==> ValidConfig(url, deploymentVersion, csvTargets, split)
    ensures r.Ok? ==>
      && r.value.url == url
      && r.value.deploymentVersion == deploymentVersion
      && |r.value.handlers| == |split(csvTargets)|
      && forall i :: 0 <= i < |split(csvTargets)| ==>
           r.value.handlers[i] == DirectoryHandler(VersionedRootPath, split(csvTargets)[i])
    ensures r.Err? && url == "" ==> r.error.field == "URL"
    ensures r.Err? && url != "" && deploymentVersion == "" ==> r.error.field == "DeploymentVersion"
    ensures r.Err? && url != "" && deploymentVersion != "" ==> r.error.field == "CSVTargets"
    ensures url != "" && deploymentVersion != "" && csvTargets == "" ==> r == Err(InvalidArgument("CSVTargets"))
  {
    if url == "" then Err(InvalidArgument("URL"))
    else if deploymentVersion == "" then Err(InvalidArgument("DeploymentVersion"))
    else if csvTargets == "" then Err(InvalidArgument("CSVTargets"))
    else
      var targets := split(csvTargets);
      if exists i :: 0 <= i < |targets| && targets[i] == "" then Err(InvalidArgument("CSVTargets"))
      else if |targets| == 0 then Err(InvalidArgument("CSVTargets"))
      else Ok(Updater(url, deploymentVersion, CreateDirectoryHandlers(targets)))
  }

  /** The calls one pass makes: on the callback, and on each handler. */
  datatype RunCall =
    | StartingCall(callback: CallbackId, targets: int)
    | UpdateCall(handler: DirectoryHandler, verbose: bool, url: string, deploymentVersion: string, callback: CallbackId)
    | FinishedCall(callback: CallbackId)

  /** The update calls on `handlers`, in order, all with the same arguments. */
  function UpdateCalls(u: Updater, verbose: bool, cb: CallbackId, handlers: seq<DirectoryHandler>): (calls: seq<RunCall>)
    ensures |calls| == |handlers|
  {
    if |handlers| == 0 then []
    else
      UpdateCalls(u, verbose, cb, handlers[..|handlers| - 1])
      + [UpdateCall(handlers[|handlers| - 1], verbose, u.url, u.deploymentVersion, cb)]
  }

  /** Reference definition of the calls of one pass. */
  function RunTrace(u: Updater, verbose: bool, cb: CallbackId): seq<RunCall>
  {
    [StartingCall(cb, |u.handlers|)] + UpdateCalls(u, verbose, cb, u.handlers) + [FinishedCall(cb)]
  }

  /** The failure flag after seeing `outcomes`: each outcome ORs in whether it is `Failed`. */
  function FailureFlag(outcomes: seq<Outcome>): bool
  {
    if |outcomes| == 0 then false
    else FailureFlag(outcomes[..|outcomes| - 1]) || outcomes[|outcomes| - 1] == Failed
  }

  /**
    One pass. `outcomes[i]` is what handler i's update returns. The pass reports
    success iff no handler failed; a failure does not stop the remaining handlers.
   */
  method Run(u: Updater, verbose: bool, cb: CallbackId, outcomes: seq<Outcome>) returns (trace: seq<RunCall>, ok: bool)
    requires |outcomes| == |u.handlers|
    ensures trace == RunTrace(u, verbose, cb)
    ensures ok <==> Failed !in outcomes
  {
    var failures := false;
    trace := [StartingCall(cb, |u.handlers|)];
    var i := 0;
    while i < |u.handlers|
      invariant 0 <= i <= |u.handlers|
      invariant trace == [StartingCall(cb, |u.handlers|)] + UpdateCalls(u, verbose, cb, u.handlers[..i])
      invariant failures == FailureFlag(outcomes[..i])
    {
      trace := trace + [UpdateCall(u.handlers[i], verbose, u.url, u.deploymentVersion, cb)];
      failures := failures || outcomes[i] == Failed;
      assert u.handlers[..i + 1][..i] == u.handlers[..i];
      assert outcomes[..i + 1][..i] == outcomes[..i];
      i := i + 1;
    }
    trace := trace + [FinishedCall(cb)];
    assert u.handlers[..i] == u.handlers;
    assert outcomes[..i] == outcomes;
    FailureFlagIff(outcomes);
    ok := !failures;
  }

  /** The failure flag is set exactly when some outcome is `Failed`. */
  lemma {:induction false} FailureFlagIff(outcomes: seq<Outcome>)
    ensures FailureFlag(outcomes) <==> Failed in outcomes
    decreases |outcomes|
  {
    if |outcomes| > 0 {
      var init := outcomes[..|outcomes| - 1];
      FailureFlagIff(init);
      assert outcomes == init + [outcomes[|outcomes| - 1]];
    }
  }

  /** Once set, the failure flag stays set for the rest of the pass. */
  lemma {:induction false} FailureFlagMonotone(outcomes: seq<Outcome>, i: nat, j: nat)
    requires i <= j <= |outcomes|
    requires FailureFlag(outcomes[..i])
    ensures FailureFlag(outcomes[..j])
    decreases j - i
  {
    if i < j {
      assert outcomes[..i + 1][..i] == outcomes[..i];
      FailureFlagMonotone(outcomes, i + 1, j);
    }
  }

  /** Update call i is on handler i, with the pass's shared arguments. */
  lemma {:induction false} UpdateCallsAt(u: Updater, verbose: bool, cb: CallbackId, handlers: seq<DirectoryHandler>)
    ensures forall i :: 0 <= i < |handlers| ==>
      UpdateCalls(u, verbose, cb, handlers)[i] == UpdateCall(handlers[i], verbose, u.url, u.deploymentVersion, cb)
    decreases |handlers|
  {
    if |handlers| > 0 {
      UpdateCallsAt(u, verbose, cb, handlers[..|handlers| - 1]);
    }
  }

  /**
    A pass calls `starting` exactly once, first, with the number of handlers; updates
    every handler exactly once, in order, with the same URL, version, verbosity and
    callback; and calls `finished` exactly once, last.
   */
  lemma RunTraceShape(u: Updater, verbose: bool, cb: CallbackId)
    ensures var t := RunTrace(u, verbose, cb);
      && |t| == |u.handlers| + 2
      && t[0] == StartingCall(cb, |u.handlers|)
      && t[|t| - 1] == FinishedCall(cb)
      && (set j | 0 <= j < |t| && t[j].StartingCall?) == {0}
      && (set j | 0 <= j < |t| && t[j].FinishedCall?) == {|t| - 1}
      && (forall i :: 0 <= i < |u.handlers| ==>
            t[i + 1] == UpdateCall(u.handlers[i], verbose, u.url, u.deploymentVersion, cb))
  {
    var t := RunTrace(u, verbose, cb);
    UpdateCallsAt(u, verbose, cb, u.handlers);
    forall j | 1 <= j < |t| - 1
      ensures t[j].UpdateCall?
    {
      assert t[j] == UpdateCalls(u, verbose, cb, u.handlers)[j - 1];
    }
    var starts := set j | 0 <= j < |t| && t[j].StartingCall?;
    assert 0 in starts;
    assert starts == {0};
    var ends := set j | 0 <= j < |t| && t[j].FinishedCall?;
    assert |t| - 1 in ends;
    assert ends == {|t| - 1};
  }

  /** The snapshot: `triadOf` stands for each handler's own current-version query. */
  method GetState<T>(u: Updater, triadOf: DirectoryHandler -> T) returns (s: State<T>)
    ensures s.deploymentVersion == u.deploymentVersion
    ensures |s.triads| == |u.handlers|
    ensures forall i :: 0 <= i < |u.handlers| ==> s.triads[i] == triadOf(u.handlers[i])
  {
    var triads: seq<T> := [];
    var i := 0;
    while i < |u.handlers|
      invariant 0 <= i <= |u.handlers|
      invariant |triads| == i
      invariant forall k :: 0 <= k < i ==> triads[k] == triadOf(u.handlers[k])
    {
      triads := triads + [triadOf(u.handlers[i])];
      i := i + 1;
    }
    s := State(u.deploymentVersion, triads);
  }

  /**
    The entry point's exit status. `split` parses the third argument, `outcomes` is
    what the handlers' updates return in the single verbose pass (one per target), and
    `runnable` is what the state snapshot taken after that pass reports.
   */
  function MainExit(args: seq<string>, split: string -> seq<string>, outcomes: seq<Outcome>, runnable: bool): (code: nat)
    requires |args| == 3 ==> |outcomes| == |split(args[2])|
  {
    if |args| != 3 then InvalidParameterCount
    else match NewUpdater(args[0], args[1], args[2], split)
      case Err(_) => InvalidArguments
      case Ok(_) => if !FailureFlag(outcomes) || runnable then NormalExit else InvalidFailures
  }

  /**
    Wrong argument count gives 1; rejected arguments give 2; a failed pass whose state
    is not runnable gives 3; every other case, failures included, exits normally.
   */
  lemma MainExitCodes(args: seq<string>, split: string -> seq<string>, outcomes: seq<Outcome>, runnable: bool)
    requires |args| == 3 ==> |outcomes| == |split(args[2])|
    ensures var code := MainExit(args, split, outcomes, runnable);
      && (code == InvalidParameterCount <==> |args| != 3)
      && (code == InvalidArguments <==> |args| == 3 && !ValidConfig(args[0], args[1], args[2], split))
      && (code == InvalidFailures <==>
            |args| == 3 && ValidConfig(args[0], args[1], args[2], split) && Failed in outcomes && !runnable)
      && (code == NormalExit <==>
            |args| == 3 && ValidConfig(args[0], args[1], args[2], split) && (Failed !in outcomes || runnable))
  {
    FailureFlagIff(outcomes);
  }

  /** An empty target argument exits with 2 whatever the parser would make of it. */
  lemma EmptyTargetArgument(args: seq<string>, split: string -> seq<string>, outcomes: seq<Outcome>, runnable: bool)
    requires |args| == 3 && args[2] == "" && |outcomes| == |split("")|
    ensures MainExit(args, split, outcomes, runnable) == InvalidArguments
  {
  }
}
