/**
  The callback protocol between one update pass and its observer: `starting(n)` once,
  then per target a `start(name, localVersion)` that opens a session closed by exactly
  one terminal call, then `finished()` once.
 */
module Callback {
  import opened Outcomes

  /** The terminal call that closes a per-target session; the strings are carried, never interpreted. */
  datatype TerminalCall =
    | CompleteWithCriticalUpdate(pendingUpdatedVersion: string)
    | CompleteWithNonCriticalUpdate(pendingUpdatedVersion: string)
    | CompleteNoUpdate
    | Fail(message: string)

  /** The outcome kind a terminal call stands for. */
  function OutcomeOf(call: TerminalCall): Outcome
  {
    match call
    case CompleteWithCriticalUpdate(_) => CriticalUpdate
    case CompleteWithNonCriticalUpdate(_) => Updated
    case CompleteNoUpdate => NoUpdate
    case Fail(_) => Failed
  }

  /** One call an observer receives. */
  datatype Event =
    | Starting(targets: int)
    | Start(target: string, localVersion: string)
    | Complete(call: TerminalCall)
    | Finished

  /** What one target's handler reports: the `start` arguments and the terminal call. */
  datatype Session = Session(target: string, localVersion: string, call: TerminalCall)

  /** The two events of each session, sessions in order. */
  function SessionEvents(sessions: seq<Session>): (events: seq<Event>)
    ensures |events| == 2 * |sessions|
  {
    if |sessions| == 0 then []
    else
      var last := sessions[|sessions| - 1];
      SessionEvents(sessions[..|sessions| - 1]) + [Start(last.target, last.localVersion), Complete(last.call)]
  }

  /** The well-formed trace of one pass whose targets report `sessions`. */
  function ProtocolTrace(sessions: seq<Session>): seq<Event>
  {
    [Starting(|sessions|)] + SessionEvents(sessions) + [Finished]
  }

  /** The outcome of each session, in order. */
  function OutcomesOf(sessions: seq<Session>): (outcomes: seq<Outcome>)
    ensures |outcomes| == |sessions|
    ensures forall i :: 0 <= i < |sessions| ==> outcomes[i] == OutcomeOf(sessions[i].call)
  {
    if |sessions| == 0 then []
    else OutcomesOf(sessions[..|sessions| - 1]) + [OutcomeOf(sessions[|sessions| - 1].call)]
  }

  /** Session events distribute over concatenation of session lists. */
  lemma {:induction false} SessionEventsAppend(a: seq<Session>, b: seq<Session>)
    ensures SessionEvents(a + b) == SessionEvents(a) + SessionEvents(b)
    decreases |b|
  {
    if |b| == 0 {
      assert a + b == a;
    } else {
      var init := b[..|b| - 1];
      var last := b[|b| - 1];
      assert (a + b)[..|a + b| - 1] == a + init;
      SessionEventsAppend(a, init);
      assert b[..|b| - 1] == init;
    }
  }

  /** Session k opens at event 2k and closes at event 2k+1, and the events before it are those of the earlier sessions. */
  lemma SessionEventsAt(sessions: seq<Session>, k: nat)
    requires k < |sessions|
    ensures SessionEvents(sessions)[..2 * k] == SessionEvents(sessions[..k])
    ensures SessionEvents(sessions)[2 * k] == Start(sessions[k].target, sessions[k].localVersion)
    ensures SessionEvents(sessions)[2 * k + 1] == Complete(sessions[k].call)
  {
    var rest := sessions[k..];
    assert sessions == sessions[..k] + rest;
    SessionEventsAppend(sessions[..k], rest);
    assert rest == [rest[0]] + rest[1..];
    SessionEventsAppend([rest[0]], rest[1..]);
    assert [rest[0]][..0] == [];
  }

  /**
    A well-formed trace calls `starting` once, first, with the number of sessions;
    `finished` once, last; and between them session i's `start` and terminal call
    at positions 2i+1 and 2i+2.
   */
  lemma ProtocolTraceShape(sessions: seq<Session>)
    ensures var t := ProtocolTrace(sessions);
      && |t| == 2 * |sessions| + 2
      && t[0] == Starting(|sessions|)
      && t[|t| - 1] == Finished
      && (forall j :: 0 <= j < |t| ==> (t[j].Starting? <==> j == 0))
      && (forall j :: 0 <= j < |t| ==> (t[j].Finished? <==> j == |t| - 1))
      && (forall i :: 0 <= i < |sessions| ==>
            t[2 * i + 1] == Start(sessions[i].target, sessions[i].localVersion)
            && t[2 * i + 2] == Complete(sessions[i].call))
  {
    var t := ProtocolTrace(sessions);
    var body := SessionEvents(sessions);
    forall i | 0 <= i < |sessions|
      ensures t[2 * i + 1] == Start(sessions[i].target, sessions[i].localVersion)
      ensures t[2 * i + 2] == Complete(sessions[i].call)
    {
      SessionEventsAt(sessions, i);
    }
    forall j | 1 <= j < |t| - 1
      ensures t[j] == body[j - 1]
      ensures body[j - 1].Start? || body[j - 1].Complete?
    {
      var i := (j - 1) / 2;
      SessionEventsAt(sessions, i);
    }
  }
}
