/**
  The background updater's bookkeeping: per-pass counters driven by the callback
  protocol, the five predicates a subclass reads from its `statsReady` hook, and the
  repeat loop driven by `runAgain`. Only the single-threaded loop body is modelled.
 */
module BackgroundUpdater {
  import opened Outcomes
  import opened Callback
  import MasterUpdater

  /** One counter per outcome kind. */
  datatype Counts = Counts(critical: nat, updated: nat, noUpdate: nat, failed: nat) {

    function Get(o: Outcome): nat
    {
      match o
      case CriticalUpdate => critical
      case Updated => updated
      case NoUpdate => noUpdate
      case Failed => failed
    }

    /** Sum over all kinds. */
    function Total(): nat
    {
      critical + updated + noUpdate + failed
    }

    /** Bumps the counter of `o`. */
    function Inc(o: Outcome): (r: Counts)
      ensures r.Get(o) == Get(o) + 1
      ensures forall k :: k != o ==> r.Get(k) == Get(k)
      ensures r.Total() == Total() + 1
    {
      match o
      case CriticalUpdate => this.(critical := critical + 1)
      case Updated => this.(updated := updated + 1)
      case NoUpdate => this.(noUpdate := noUpdate + 1)
      case Failed => this.(failed := failed + 1)
    }
  }

  const NoCounts := Counts(0, 0, 0, 0)

  /** The per-pass statistics: expected targets, started targets, outcome counts. */
  datatype Stats = Stats(expected: int, started: nat, counts: Counts)

  /** `starting(n)`: a fresh pass expecting `n` targets, whatever came before. */
  function OnStarting(s: Stats, n: int): (r: Stats)
    ensures r.expected == n && r.started == 0
    ensures forall o :: r.counts.Get(o) == 0
  {
    Stats(n, 0, NoCounts)
  }

  /** `start(target, localVersion)`: one more target started, nothing else changes. */
  function OnStart(s: Stats, target: string, localVersion: string): (r: Stats)
    ensures r.started == s.started + 1
    ensures r.expected == s.expected && r.counts == s.counts
  {
    s.(started := s.started + 1)
  }

  /** `record(o)`: the counter of `o` goes up by one, nothing else changes. */
  function Record(s: Stats, o: Outcome): (r: Stats)
    ensures r.counts.Get(o) == s.counts.Get(o) + 1
    ensures forall k :: k != o ==> r.counts.Get(k) == s.counts.Get(k)
    ensures r.expected == s.expected && r.started == s.started
  {
    s.(counts := s.counts.Inc(o))
  }

  /** A session's terminal call records its own outcome kind. */
  function OnComplete(s: Stats, call: TerminalCall): Stats
  {
    Record(s, OutcomeOf(call))
  }

  /** The number of targets that reached a terminal call. */
  function Completed(s: Stats): nat
  {
    s.counts.Total()
  }

  predicate AreCriticalUpdates(s: Stats) { s.counts.Get(CriticalUpdate) != 0 }

  predicate AreNonCriticalUpdates(s: Stats) { s.counts.Get(Updated) != 0 }

  predicate AreFailed(s: Stats) { s.counts.Get(Failed) != 0 }

  predicate AreUnfinished(s: Stats) { s.started > Completed(s) }

  predicate AreNotStarted(s: Stats) { s.expected > s.started }

  /** The effect of one callback event; `finished` only hands the statistics to the hook. */
  function Apply(s: Stats, e: Event): Stats
  {
    match e
    case Starting(n) => OnStarting(s, n)
    case Start(target, localVersion) => OnStart(s, target, localVersion)
    case Complete(call) => OnComplete(s, call)
    case Finished => s
  }

  /** The statistics after `events`, in order, starting from `s`. */
  function Replay(s: Stats, events: seq<Event>): Stats
  {
    if |events| == 0 then s
    else Apply(Replay(s, events[..|events| - 1]), events[|events| - 1])
  }

  /** The counts a sequence of outcomes would leave, tallied one at a time. */
  function Tally(outcomes: seq<Outcome>): Counts
  {
    if |outcomes| == 0 then NoCounts
    else Tally(outcomes[..|outcomes| - 1]).Inc(outcomes[|outcomes| - 1])
  }

  /** Each counter of a tally is the number of occurrences of its kind, and they sum to the length. */
  lemma {:induction false} TallyCounts(outcomes: seq<Outcome>)
    ensures forall o :: Tally(outcomes).Get(o) == multiset(outcomes)[o]
    ensures Tally(outcomes).Total() == |outcomes|
    decreases |outcomes|
  {
    if |outcomes| > 0 {
      var init := outcomes[..|outcomes| - 1];
      var last := outcomes[|outcomes| - 1];
      assert outcomes == init + [last];
      TallyCounts(init);
      assert multiset(outcomes) == multiset(init) + multiset{last};
      assert Tally(outcomes) == Tally(init).Inc(last);
      forall o
        ensures Tally(outcomes).Get(o) == multiset(outcomes)[o]
      {
        if o == last {
          assert multiset(outcomes)[o] == multiset(init)[o] + 1;
        } else {
          assert multiset(outcomes)[o] == multiset(init)[o];
        }
      }
    }
  }

  /** Each terminal call bumps exactly the counter of its own kind. */
  lemma TerminalCallsCountOwnKind(s: Stats, version: string, message: string)
    ensures OnComplete(s, CompleteWithCriticalUpdate(version)).counts
      == s.counts.(critical := s.counts.critical + 1)
    ensures OnComplete(s, CompleteWithNonCriticalUpdate(version)).counts
      == s.counts.(updated := s.counts.updated + 1)
    ensures OnComplete(s, CompleteNoUpdate).counts
      == s.counts.(noUpdate := s.counts.noUpdate + 1)
    ensures OnComplete(s, Fail(message)).counts
      == s.counts.(failed := s.counts.failed + 1)
    ensures forall call :: OnComplete(s, call).expected == s.expected && OnComplete(s, call).started == s.started
  {
  }

  /** Replaying two event lists is replaying the first, then the second. */
  lemma {:induction false} ReplayAppend(s: Stats, a: seq<Event>, b: seq<Event>)
    ensures Replay(s, a + b) == Replay(Replay(s, a), b)
    decreases |b|
  {
    if |b| == 0 {
      assert a + b == a;
    } else {
      assert (a + b)[..|a + b| - 1] == a + b[..|b| - 1];
      ReplayAppend(s, a, b[..|b| - 1]);
    }
  }

  /** Replaying a single event is applying it. */
  lemma ReplayOne(s: Stats, e: Event)
    ensures Replay(s, [e]) == Apply(s, e)
  {
    assert [e][..0] == [];
  }

  /** The first i+1 elements are the first i followed by element i. */
  lemma SliceSnoc<T>(a: seq<T>, i: nat)
    requires i < |a|
    ensures a[..i + 1] == a[..i] + [a[i]]
  {
  }

  /** A `start` followed by its terminal call: one more started, one more of the call's kind. */
  lemma ReplaySession(s: Stats, x: Session)
    ensures Replay(s, [Start(x.target, x.localVersion), Complete(x.call)])
      == Stats(s.expected, s.started + 1, s.counts.Inc(OutcomeOf(x.call)))
  {
    var start := Start(x.target, x.localVersion);
    assert [start, Complete(x.call)] == [start] + [Complete(x.call)];
    ReplayAppend(s, [start], [Complete(x.call)]);
    ReplayOne(s, start);
    ReplayOne(Apply(s, start), Complete(x.call));
  }

  /** Complete sessions replayed on a fresh pass: one start and one count per session. */
  lemma {:induction false} ReplaySessions(n: int, sessions: seq<Session>)
    ensures Replay(Stats(n, 0, NoCounts), SessionEvents(sessions))
      == Stats(n, |sessions|, Tally(OutcomesOf(sessions)))
    decreases |sessions|
  {
    if |sessions| > 0 {
      var init := sessions[..|sessions| - 1];
      var last := sessions[|sessions| - 1];
      var pre := SessionEvents(init);
      var pair := [Start(last.target, last.localVersion), Complete(last.call)];
      var os := OutcomesOf(sessions);
      assert SessionEvents(sessions) == pre + pair;
      assert os == OutcomesOf(init) + [OutcomeOf(last.call)];
      assert os[..|os| - 1] == OutcomesOf(init);
      assert Tally(os) == Tally(OutcomesOf(init)).Inc(OutcomeOf(last.call));
      ReplayAppend(Stats(n, 0, NoCounts), pre, pair);
      ReplaySessions(n, init);
      ReplaySession(Stats(n, |init|, Tally(OutcomesOf(init))), last);
    }
  }

  /** After `starting(n)` the prior statistics are forgotten. */
  lemma ReplayAfterStarting(prior: Stats, n: int, rest: seq<Event>)
    ensures Replay(prior, [Starting(n)] + rest) == Replay(Stats(n, 0, NoCounts), rest)
  {
    ReplayAppend(prior, [Starting(n)], rest);
    ReplayOne(prior, Starting(n));
  }

  /** The statistics at `finished` of a well-formed pass, whatever they were before. */
  lemma FinishedPassStats(prior: Stats, sessions: seq<Session>)
    ensures Replay(prior, ProtocolTrace(sessions))
      == Stats(|sessions|, |sessions|, Tally(OutcomesOf(sessions)))
  {
    var n := |sessions|;
    var body := SessionEvents(sessions);
    var head := [Starting(n)] + body;
    var mid := Replay(prior, head);
    assert ProtocolTrace(sessions) == head + [Finished];
    ReplayAppend(prior, head, [Finished]);
    ReplayOne(mid, Finished);
    assert Replay(prior, ProtocolTrace(sessions)) == mid;
    ReplayAfterStarting(prior, n, body);
    ReplaySessions(n, sessions);
    assert mid == Stats(n, n, Tally(OutcomesOf(sessions)));
  }

  /**
    At `finished` after a well-formed pass, whatever the statistics before it: all
    expected targets started and completed, each counter holds the number of sessions
    of its kind, nothing reads as unfinished or not started, and each `are` predicate
    holds iff some session had that outcome.
   */
  lemma FinishedPass(prior: Stats, sessions: seq<Session>)
    ensures var f := Replay(prior, ProtocolTrace(sessions));
      && f.expected == |sessions|
      && f.started == |sessions|
      && Completed(f) == f.started
      && (forall o :: f.counts.Get(o) == multiset(OutcomesOf(sessions))[o])
      && !AreUnfinished(f)
      && !AreNotStarted(f)
      && (AreCriticalUpdates(f) <==> CriticalUpdate in OutcomesOf(sessions))
      && (AreNonCriticalUpdates(f) <==> Updated in OutcomesOf(sessions))
      && (AreFailed(f) <==> Failed in OutcomesOf(sessions))
  {
    var os := OutcomesOf(sessions);
    var f := Replay(prior, ProtocolTrace(sessions));
    FinishedPassStats(prior, sessions);
    assert f.counts == Tally(os);
    TallyCounts(os);
    assert Completed(f) == |sessions|;
    assert AreCriticalUpdates(f) <==> multiset(os)[CriticalUpdate] > 0;
    assert AreNonCriticalUpdates(f) <==> multiset(os)[Updated] > 0;
    assert AreFailed(f) <==> multiset(os)[Failed] > 0;
  }

  /** The events of the first k sessions: k started, all of them completed. */
  lemma SessionPrefixClosed(n: int, sessions: seq<Session>, k: nat)
    requires k <= |sessions|
    ensures Replay(Stats(n, 0, NoCounts), SessionEvents(sessions)[..2 * k])
      == Stats(n, k, Tally(OutcomesOf(sessions[..k])))
  {
    var done := sessions[..k];
    if k < |sessions| {
      SessionEventsAt(sessions, k);
    } else {
      assert done == sessions;
      assert 2 * k == |SessionEvents(sessions)|;
      assert SessionEvents(sessions)[..2 * k] == SessionEvents(sessions);
    }
    assert SessionEvents(sessions)[..2 * k] == SessionEvents(done);
    ReplaySessions(n, done);
  }

  /** One event further: session k has started but not completed. */
  lemma SessionPrefixOpen(n: int, sessions: seq<Session>, k: nat)
    requires k < |sessions|
    ensures Replay(Stats(n, 0, NoCounts), SessionEvents(sessions)[..2 * k + 1])
      == Stats(n, k + 1, Tally(OutcomesOf(sessions[..k])))
  {
    var x := sessions[k];
    var start := Start(x.target, x.localVersion);
    var body := SessionEvents(sessions);
    var closed := body[..2 * k];
    SliceSnoc(body, 2 * k);
    SessionEventsAt(sessions, k);
    assert body[..2 * k + 1] == closed + [start];
    ReplayAppend(Stats(n, 0, NoCounts), closed, [start]);
    SessionPrefixClosed(n, sessions, k);
    ReplayOne(Stats(n, k, Tally(OutcomesOf(sessions[..k]))), start);
  }

  /** The statistics after the first p events of a well-formed pass, before `finished`. */
  lemma PassPrefixStats(prior: Stats, sessions: seq<Session>, p: nat)
    requires 1 <= p <= 2 * |sessions| + 1
    ensures Replay(prior, ProtocolTrace(sessions)[..p])
      == Stats(|sessions|, p / 2, Tally(OutcomesOf(sessions[..(p - 1) / 2])))
  {
    var n := |sessions|;
    var body := SessionEvents(sessions);
    var q := p - 1;
    var k := q / 2;
    assert ProtocolTrace(sessions)[..p] == [Starting(n)] + body[..q];
    ReplayAfterStarting(prior, n, body[..q]);
    if q % 2 == 0 {
      assert q == 2 * k && p / 2 == k;
      SessionPrefixClosed(n, sessions, k);
    } else {
      assert q == 2 * k + 1 && p / 2 == k + 1;
      SessionPrefixOpen(n, sessions, k);
    }
  }

  /**
    Part way through a well-formed pass, after its first `p` events: the counters
    never run ahead (completed <= started <= expected); a target is unfinished exactly
    between its `start` and its terminal call; and targets are still to start exactly
    until the last `start`.
   */
  lemma MidPass(prior: Stats, sessions: seq<Session>, p: nat)
    requires 1 <= p <= 2 * |sessions| + 1
    ensures var s := Replay(prior, ProtocolTrace(sessions)[..p]);
      && s.expected == |sessions|
      && s.started == p / 2
      && Completed(s) <= s.started <= s.expected
      && (AreUnfinished(s) <==> p % 2 == 0)
      && (AreNotStarted(s) <==> p < 2 * |sessions|)
  {
    var k := (p - 1) / 2;
    var s := Replay(prior, ProtocolTrace(sessions)[..p]);
    PassPrefixStats(prior, sessions, p);
    assert s.counts == Tally(OutcomesOf(sessions[..k]));
    TallyCounts(OutcomesOf(sessions[..k]));
    assert Completed(s) == k;
    if p % 2 == 0 {
      assert p / 2 == k + 1;
    } else {
      assert p / 2 == k;
    }
  }

  /**
    A pass of the master updater reported through this callback: when each handler
    opens and closes one session and returns the outcome it reported, the pass
    succeeds iff the statistics at `finished` show no failure.
   */
  lemma RunAgreesWithStats(u: MasterUpdater.Updater, sessions: seq<Session>, outcomes: seq<Outcome>, prior: Stats)
    requires |sessions| == |u.handlers| == |outcomes|
    requires forall i :: 0 <= i < |sessions| ==> outcomes[i] == OutcomeOf(sessions[i].call)
    ensures var f := Replay(prior, ProtocolTrace(sessions));
      && f.expected == |u.handlers|
      && (!MasterUpdater.FailureFlag(outcomes) <==> !AreFailed(f))
  {
    FinishedPass(prior, sessions);
    MasterUpdater.FailureFlagIff(outcomes);
    assert outcomes == OutcomesOf(sessions);
  }

  /** The run-again flag after `runAgain()` was called `calls` times: repeated calls act as one. */
  function RaiseRunAgain(flag: bool, calls: nat): (r: bool)
    ensures r <==> flag || calls > 0
    decreases calls
  {
    if calls == 0 then flag else RaiseRunAgain(true, calls - 1)
  }

  /**
    The `statsReady` hook, as far as the loop sees it: how often it calls `runAgain()`
    during each pass. It may ask again in every pass.
   */
  type Hook = nat -> nat

  /** The thread's loop stops after `passes` passes: every pass but the last asked to run again. */
  predicate StopsAfter(calls: Hook, passes: nat)
  {
    && passes >= 1
    && (forall i :: 0 <= i < passes - 1 ==> calls(i) > 0)
    && calls(passes - 1) == 0
  }

  /**
    The background thread's loop, observed for at most `budget` passes after the
    first: the flag is cleared before each pass, the pass runs (its hook calling
    `runAgain()` `calls(pass)` times), and the loop repeats while the flag is set.
    A flag left over from before the first pass is discarded. `stopped` is false
    when the thread is still looping once the budget is spent.
   */
  method BackgroundLoop(staleRunAgain: bool, calls: Hook, budget: nat) returns (passes: nat, stopped: bool)
    ensures 1 <= passes <= budget + 1
    ensures forall i :: 0 <= i < passes - 1 ==> calls(i) > 0
    ensures stopped <==> calls(passes - 1) == 0
    ensures stopped ==> StopsAfter(calls, passes)
    ensures !stopped ==> passes == budget + 1
  {
    var runAgain := staleRunAgain;
    runAgain := false;
    runAgain := RaiseRunAgain(runAgain, calls(0));
    passes := 1;
    while runAgain && passes <= budget
      invariant 1 <= passes <= budget + 1
      invariant runAgain <==> calls(passes - 1) > 0
      invariant forall i :: 0 <= i < passes - 1 ==> calls(i) > 0
      decreases budget + 1 - passes
    {
      runAgain := false;
      runAgain := RaiseRunAgain(runAgain, calls(passes));
      passes := passes + 1;
    }
    stopped := !runAgain;
  }

  /** A hook that asks again in every pass keeps the thread looping: no pass count ends it. */
  lemma AlwaysAskingNeverStops(calls: Hook, passes: nat)
    requires forall i :: calls(i) > 0
    ensures !StopsAfter(calls, passes)
  {
  }

  /** The number of passes among the first `n` in which `runAgain()` was called. */
  function PassesAskingAgain(calls: Hook, n: nat): nat
  {
    if n == 0 then 0
    else PassesAskingAgain(calls, n - 1) + (if calls(n - 1) > 0 then 1 else 0)
  }

  /** Total passes are one plus the number of passes that called `runAgain()`. */
  lemma PassCount(calls: Hook, passes: nat)
    requires StopsAfter(calls, passes)
    ensures passes == 1 + PassesAskingAgain(calls, passes)
  {
    PrefixAllAsked(calls, passes - 1);
  }

  lemma {:induction false} PrefixAllAsked(calls: Hook, n: nat)
    requires forall i :: 0 <= i < n ==> calls(i) > 0
    ensures PassesAskingAgain(calls, n) == n
    decreases n
  {
    if n > 0 {
      PrefixAllAsked(calls, n - 1);
    }
  }

  /** The stopping point is unique: the loop's pass count is determined by the hook's calls. */
  lemma StopsAfterUnique(calls: Hook, p: nat, q: nat)
    requires StopsAfter(calls, p) && StopsAfter(calls, q)
    ensures p == q
  {
  }

  /** Pass i is followed by another pass iff the hook called `runAgain()` during pass i. */
  lemma AnotherPassIffAsked(calls: Hook, passes: nat, i: nat)
    requires StopsAfter(calls, passes) && i < passes
    ensures i + 1 < passes <==> calls(i) > 0
  {
  }
}
