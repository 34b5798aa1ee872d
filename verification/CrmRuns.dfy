/** Whole runs of one tenant's CRM calls: any number of calls arrive, wait, send, sleep and are
    cancelled in any order while the clock advances. A run is any sequence of steps; a step that
    is not possible changes nothing. */
module CrmRuns {
  import opened Wrappers
  import opened Resilience
  import opened CrmProvider

  datatype Config = Config(settings: Settings, maxConcurrency: nat)

  datatype Step = Tick(d: real) | Arrive(id: nat, readOnly: bool) | Resume(id: nat, wake: Wake)

  datatype Event =
    | Admitted(id: nat, half: bool, at: real)
    | Rejected(id: nat, at: real)
    | Sent(id: nat, attempt: nat)
    | Retried(id: nat, attempt: nat, outcome: Outcome)
    | Ended(id: nat, attempt: nat, outcome: Outcome, at: real)
    | Dropped(id: nat)

  datatype System = System(now: real, gate: Gate, calls: map<nat, ToolCall>, log: seq<Event>)

  function Init(c: Config): System {
    System(0.0, Gate(NEW_BREAKER, c.maxConcurrency), map[], [])
  }

  function EventOf(id: nat, call: ToolCall, at: real, w: Wake): Event {
    match w
    case Acquired => Sent(id, 1)
    case Slept => Sent(id, call.attempt + 1)
    case Back(o) => if Retries(call, o) then Retried(id, call.attempt, o) else Ended(id, call.attempt, o, at)
    case Cancelled => Dropped(id)
  }

  function Next(c: Config, s: System, step: Step): System {
    match step
    case Tick(d) => if d >= 0.0 then s.(now := s.now + d) else s
    case Arrive(id, readOnly) =>
      if id in s.calls then s
      else if !Admits(s.gate.breaker, c.settings, s.now) then s.(log := s.log + [Rejected(id, s.now)])
      else System(s.now, Admission(s.gate, c.settings, s.now), s.calls[id := NewCall(readOnly)],
                  s.log + [Admitted(id, PhaseAt(s.gate.breaker, c.settings, s.now).HalfOpen?, s.now)])
    case Resume(id, w) =>
      if id !in s.calls || !CanWake(s.gate.permits, s.calls[id], w) then s
      else
        var n := Woken(s.gate, c.settings, s.now, s.calls[id], w);
        System(s.now, n.0, s.calls[id := n.1], s.log + [EventOf(id, s.calls[id], s.now, w)])
  }

  function RunFrom(c: Config, s: System, steps: seq<Step>): System {
    if steps == [] then s else Next(c, RunFrom(c, s, steps[..|steps| - 1]), steps[|steps| - 1])
  }

  function Run(c: Config, steps: seq<Step>): System {
    RunFrom(c, Init(c), steps)
  }

  // ---------------------------------------------------------------- breaker = history

  function OpsOf(e: Event): seq<Op> {
    match e
    case Admitted(_, _, at) => [BeforeCall(at)]
    case Rejected(_, at) => [BeforeCall(at)]
    case Ended(_, _, o, at) => Verdict(at, o)
    case Dropped(_) => [ReleaseTrial]
    case _ => []
  }

  function History(log: seq<Event>): seq<Op> {
    if log == [] then [] else History(log[..|log| - 1]) + OpsOf(log[|log| - 1])
  }

  lemma HistoryAppend(log: seq<Event>, e: Event)
    ensures History(log + [e]) == History(log) + OpsOf(e)
  {
    assert (log + [e])[..|log|] == log;
  }

  /** One event, and the breaker moved by exactly the operations it stands for. */
  lemma BreakerMoves(c: Config, s: System, t: System, e: Event)
    requires s.gate.breaker == Replay(NEW_BREAKER, c.settings, History(s.log)) && t.log == s.log + [e]
    requires t.gate.breaker == Replay(s.gate.breaker, c.settings, OpsOf(e))
    ensures t.gate.breaker == Replay(NEW_BREAKER, c.settings, History(t.log))
  {
    HistoryAppend(s.log, e);
    ReplayAppend(NEW_BREAKER, c.settings, History(s.log), OpsOf(e));
  }

  lemma BreakerStep(c: Config, s: System, step: Step)
    requires s.gate.breaker == Replay(NEW_BREAKER, c.settings, History(s.log))
    ensures var t := Next(c, s, step); t.gate.breaker == Replay(NEW_BREAKER, c.settings, History(t.log))
  {
    var t := Next(c, s, step);
    if t.log != s.log {
      var e := t.log[|s.log|];
      ReplaySmall(s.gate.breaker, c.settings, BeforeCall(s.now), ReleaseTrial);
      BreakerMoves(c, s, t, e);
    }
  }

  /** In every run the breaker is open exactly when the failure verdicts since the last success
      reach the threshold, since the last of them. */
  lemma {:induction false} BreakerEqualsHistory(c: Config, steps: seq<Step>)
    ensures var s := Run(c, steps); var ops := History(s.log); var b := s.gate.breaker;
      && b == Replay(NEW_BREAKER, c.settings, ops)
      && b.failures == ConsecutiveFailures(ops)
      && b.openedAt == (if b.failures > 0 && b.failures >= c.settings.threshold then LastFailure(ops) else None)
  {
    if steps != [] {
      BreakerEqualsHistory(c, steps[..|steps| - 1]);
      BreakerStep(c, Run(c, steps[..|steps| - 1]), steps[|steps| - 1]);
    }
    BreakerIsItsHistory(c.settings, History(Run(c, steps).log));
  }

  // ---------------------------------------------------------------- breaker = answers

  /** One event after `n` calls failed in a row: a server error or no answer makes one more, an
      answer that shows the CRM up none; cancelled calls and other errors do not break the row. */
  function Tally(n: nat, e: Event): nat {
    if !e.Ended? then n
    else
      match e.outcome
      case Reply(_) => 0
      case Http(code) => if code >= 500 then n + 1 else 0
      case ReadTimeout => n + 1
      case Timeout => n + 1
      case TransportFailure => n + 1
      case OtherError => n
  }

  function FailedInARow(log: seq<Event>): nat {
    if log == [] then 0 else Tally(FailedInARow(log[..|log| - 1]), log[|log| - 1])
  }

  predicate Failed(e: Event) {
    && e.Ended?
    && (e.outcome.ReadTimeout? || e.outcome.Timeout? || e.outcome.TransportFailure?
        || (e.outcome.Http? && e.outcome.code >= 500))
  }

  /** When the last such call ended. */
  function LastFailedAt(log: seq<Event>): Option<real> {
    if log == [] then None
    else if Failed(log[|log| - 1]) then Some(log[|log| - 1].at)
    else LastFailedAt(log[..|log| - 1])
  }

  lemma CountsAppend(ops: seq<Op>, x: Op)
    ensures ConsecutiveFailures(ops + [x]) ==
      match x case RecordSuccess => 0 case RecordFailure(_) => ConsecutiveFailures(ops) + 1 case _ => ConsecutiveFailures(ops)
    ensures LastFailure(ops + [x]) == match x case RecordFailure(at) => Some(at) case _ => LastFailure(ops)
  {
    assert (ops + [x])[..|ops|] == ops;
  }

  lemma EventTallies(ops: seq<Op>, e: Event)
    ensures ConsecutiveFailures(ops + OpsOf(e)) == Tally(ConsecutiveFailures(ops), e)
    ensures LastFailure(ops + OpsOf(e)) == if Failed(e) then Some(e.at) else LastFailure(ops)
  {
    if e.Ended? && e.outcome == Reply(false) {
      CountsAppend(ops, RecordSuccess);
      CountsAppend(ops + [RecordSuccess], ReleaseTrial);
      assert ops + OpsOf(e) == ops + [RecordSuccess] + [ReleaseTrial];
    } else if OpsOf(e) == [] {
      assert ops + OpsOf(e) == ops;
    } else {
      CountsAppend(ops, OpsOf(e)[0]);
      assert OpsOf(e) == [OpsOf(e)[0]];
    }
  }

  lemma {:induction false} HistoryTallies(log: seq<Event>)
    ensures ConsecutiveFailures(History(log)) == FailedInARow(log)
    ensures LastFailure(History(log)) == LastFailedAt(log)
  {
    if log != [] {
      HistoryTallies(log[..|log| - 1]);
      EventTallies(History(log[..|log| - 1]), log[|log| - 1]);
    }
  }

  /** In every run the breaker counts the answers: its failures are the calls that failed in a
      row, and it is open, since the last of them, exactly when they reach the threshold. */
  lemma BreakerCountsAnswers(c: Config, steps: seq<Step>)
    ensures var s := Run(c, steps); var n := FailedInARow(s.log);
      && s.gate.breaker.failures == n
      && (n > 0 ==> LastFailedAt(s.log).Some?)
      && s.gate.breaker.openedAt == if n > 0 && n >= c.settings.threshold then LastFailedAt(s.log) else None
  {
    BreakerEqualsHistory(c, steps);
    BreakerIsItsHistory(c.settings, History(Run(c, steps).log));
    HistoryTallies(Run(c, steps).log);
  }

  /** What the log says of an answer, in every run: the first answer to a read is tried again
      exactly when it is a 502, 503, 504, a timeout of asyncio or a failed connection, and the
      breaker then is not told; any other ends the call and gives its permit back. */
  lemma AnswerIsRecorded(c: Config, steps: seq<Step>, id: nat, o: Outcome)
    requires var s := Run(c, steps); id in s.calls && s.calls[id].stage.Sending?
    ensures var s := Run(c, steps); var t := Next(c, s, Resume(id, Back(o))); var call := s.calls[id];
      if call.readOnly && call.attempt == 1
         && (o == Http(502) || o == Http(503) || o == Http(504) || o == Timeout || o == TransportFailure)
      then t.log == s.log + [Retried(id, 1, o)] && t.calls[id].stage == Backoff && t.gate == s.gate
      else t.log == s.log + [Ended(id, call.attempt, o, s.now)] && t.calls[id].stage == Gone(Some(o))
           && t.gate.permits == s.gate.permits + 1
  {
    CallsFitRun(c, steps);
    assert IdFits(Run(c, steps), id);
  }

  /** No call in the log ended in a transport failure or a server error. */
  predicate NoBadEnd(log: seq<Event>) {
    forall e | e in log && e.Ended? :: !EndsBadly(e.outcome)
  }

  /** A run in which no call ends badly keeps the breaker closed and turns no call away. */
  lemma {:induction false} StaysClosed(c: Config, steps: seq<Step>)
    requires NoBadEnd(Run(c, steps).log)
    ensures var s := Run(c, steps); s.gate.breaker == NEW_BREAKER && forall e | e in s.log :: !e.Rejected?
  {
    if steps != [] {
      var s, step := Run(c, steps[..|steps| - 1]), steps[|steps| - 1];
      var t := Next(c, s, step);
      LogGrows(c, s, step);
      StaysClosed(c, steps[..|steps| - 1]);
      if t.log != s.log {
        var e := t.log[|s.log|];
        assert e in t.log && t.log == s.log + [e];
        ReplaySmall(NEW_BREAKER, c.settings, RecordSuccess, ReleaseTrial);
        ReplaySmall(NEW_BREAKER, c.settings, ReleaseTrial, ReleaseTrial);
      }
    }
  }

  /** A step adds at most one event. */
  lemma LogGrows(c: Config, s: System, step: Step)
    ensures var t := Next(c, s, step); t.log == s.log || (|t.log| == |s.log| + 1 && t.log[..|s.log|] == s.log)
    ensures forall e | e in s.log :: e in Next(c, s, step).log
  {
  }

  // ---------------------------------------------------------------- permits

  function Holders(calls: map<nat, ToolCall>): set<nat> {
    set id | id in calls && (calls[id].stage.Sending? || calls[id].stage.Backoff?)
  }

  function InTransport(calls: map<nat, ToolCall>): set<nat> {
    set id | id in calls && calls[id].stage.Sending?
  }

  predicate Holds(call: ToolCall) {
    call.stage.Sending? || call.stage.Backoff?
  }

  lemma HoldersUpdate(calls: map<nat, ToolCall>, id: nat, call: ToolCall)
    ensures |Holders(calls[id := call])| ==
      |Holders(calls)| - (if id in calls && Holds(calls[id]) then 1 else 0) + if Holds(call) then 1 else 0
  {
    var h, rest := Holders(calls), Holders(calls) - {id};
    assert h == if id in h then rest + {id} else rest;
    assert Holders(calls[id := call]) == if Holds(call) then rest + {id} else rest;
  }

  lemma PermitStep(c: Config, s: System, step: Step)
    requires |Holders(s.calls)| + s.gate.permits == c.maxConcurrency
    ensures var t := Next(c, s, step); |Holders(t.calls)| + t.gate.permits == c.maxConcurrency
  {
    var t := Next(c, s, step);
    match step
    case Tick(_) =>
    case Arrive(id, readOnly) => HoldersUpdate(s.calls, id, NewCall(readOnly));
    case Resume(id, w) =>
      if id in s.calls { HoldersUpdate(s.calls, id, t.calls[id]); }
  }

  /** A tenant never has more calls in transport than its limit. */
  lemma {:induction false} ConcurrencyBounded(c: Config, steps: seq<Step>)
    ensures var s := Run(c, steps);
      && |Holders(s.calls)| + s.gate.permits == c.maxConcurrency
      && |InTransport(s.calls)| <= c.maxConcurrency
  {
    var s := Run(c, steps);
    if steps == [] {
      assert Holders(s.calls) == {};
    } else {
      ConcurrencyBounded(c, steps[..|steps| - 1]);
      PermitStep(c, Run(c, steps[..|steps| - 1]), steps[|steps| - 1]);
    }
    Subset(InTransport(s.calls), Holders(s.calls));
  }

  lemma {:induction false} Subset(a: set<nat>, b: set<nat>)
    requires a <= b
    ensures |a| <= |b|
  {
    if a != {} {
      var x :| x in a;
      Subset(a - {x}, b - {x});
    }
  }

  // ---------------------------------------------------------------- attempts and verdicts of one call

  /** Success and failure verdicts among breaker operations. */
  function Judgements(ops: seq<Op>): nat {
    if ops == [] then 0
    else Judgements(ops[..|ops| - 1]) + if ops[|ops| - 1].RecordSuccess? || ops[|ops| - 1].RecordFailure? then 1 else 0
  }

  /** Verdicts the breaker got from call `id`. */
  function VerdictsOf(log: seq<Event>, id: nat): nat {
    if log == [] then 0
    else VerdictsOf(log[..|log| - 1], id) + if log[|log| - 1].id == id then Judgements(OpsOf(log[|log| - 1])) else 0
  }

  /** Transport calls made for call `id`. */
  function SendsOf(log: seq<Event>, id: nat): nat {
    if log == [] then 0
    else SendsOf(log[..|log| - 1], id) + if log[|log| - 1].Sent? && log[|log| - 1].id == id then 1 else 0
  }

  lemma CountAppend(log: seq<Event>, e: Event, id: nat)
    ensures VerdictsOf(log + [e], id) == VerdictsOf(log, id) + if e.id == id then Judgements(OpsOf(e)) else 0
    ensures SendsOf(log + [e], id) == SendsOf(log, id) + if e.Sent? && e.id == id then 1 else 0
  {
    assert (log + [e])[..|log|] == log;
  }

  lemma OneJudgement(e: Event)
    ensures Judgements(OpsOf(e)) <= 1
    ensures !e.Ended? ==> Judgements(OpsOf(e)) == 0
  {
    forall x: Op, y: Op
      ensures Judgements([x]) == (if x.RecordSuccess? || x.RecordFailure? then 1 else 0)
      ensures Judgements([x, y]) == Judgements([x]) + if y.RecordSuccess? || y.RecordFailure? then 1 else 0
    {
      assert [x][..0] == [] && [x, y][..1] == [x];
    }
    assert e.Ended? && e.outcome == Reply(false) ==> OpsOf(e) == [RecordSuccess, ReleaseTrial];
  }

  /** A transport call after the first one follows a retryable answer to the one before. */
  predicate RetryBehind(log: seq<Event>, id: nat, attempt: nat) {
    exists i | 0 <= i < |log| :: log[i].Retried? && log[i].id == id && log[i].attempt == attempt && Retryable(log[i].outcome)
  }

  predicate CallFits(log: seq<Event>, id: nat, call: ToolCall) {
    && SendsOf(log, id) == call.attempt <= Attempts(call.readOnly)
    && match call.stage
       case Waiting => call.attempt == 0 && VerdictsOf(log, id) == 0
       case Sending => call.attempt >= 1 && VerdictsOf(log, id) == 0
       case Backoff => call.attempt < Attempts(call.readOnly) && VerdictsOf(log, id) == 0 && RetryBehind(log, id, call.attempt)
       case Gone(_) => VerdictsOf(log, id) <= 1
  }

  predicate IdFits(s: System, id: nat) {
    if id in s.calls then CallFits(s.log, id, s.calls[id]) else SendsOf(s.log, id) == 0 && VerdictsOf(s.log, id) == 0
  }

  ghost predicate CallsFit(s: System) {
    && (forall id: nat :: IdFits(s, id))
    && forall j | 0 <= j < |s.log| && s.log[j].Sent? && s.log[j].attempt > 1 ::
         RetryBehind(s.log[..j], s.log[j].id, s.log[j].attempt - 1)
  }

  lemma RetryStays(log: seq<Event>, e: Event, id: nat, attempt: nat)
    ensures RetryBehind(log, id, attempt) ==> RetryBehind(log + [e], id, attempt)
    ensures e.Retried? && e.id == id && e.attempt == attempt && Retryable(e.outcome) ==> RetryBehind(log + [e], id, attempt)
  {
    if RetryBehind(log, id, attempt) {
      var i :| 0 <= i < |log| && log[i].Retried? && log[i].id == id && log[i].attempt == attempt && Retryable(log[i].outcome);
      assert (log + [e])[i] == log[i];
    }
    assert (log + [e])[|log|] == e;
  }

  lemma CallFitsOther(log: seq<Event>, e: Event, id: nat, call: ToolCall)
    requires e.id != id && CallFits(log, id, call)
    ensures CallFits(log + [e], id, call)
  {
    CountAppend(log, e, id);
    RetryStays(log, e, id, call.attempt);
  }

  lemma CallFitsResumed(log: seq<Event>, id: nat, call: ToolCall, g: Gate, c: Settings, at: real, w: Wake)
    requires CallFits(log, id, call) && CanWake(g.permits, call, w)
    ensures CallFits(log + [EventOf(id, call, at, w)], id, Woken(g, c, at, call, w).1)
  {
    var e := EventOf(id, call, at, w);
    CountAppend(log, e, id);
    OneJudgement(e);
    RetryStays(log, e, id, call.attempt);
  }

  lemma CallFitsAdmitted(log: seq<Event>, id: nat, half: bool, at: real, readOnly: bool)
    requires SendsOf(log, id) == 0 && VerdictsOf(log, id) == 0
    ensures CallFits(log + [Admitted(id, half, at)], id, NewCall(readOnly))
  {
    CountAppend(log, Admitted(id, half, at), id);
    OneJudgement(Admitted(id, half, at));
  }

  /** A call the event is not about, or one that never was admitted. */
  lemma CallFitsBystander(s: System, e: Event, id: nat)
    requires CallsFit(s) && (e.id != id || (e.Rejected? && id !in s.calls))
    ensures var log := s.log + [e];
      if id in s.calls then CallFits(log, id, s.calls[id]) else SendsOf(log, id) == 0 && VerdictsOf(log, id) == 0
  {
    assert IdFits(s, id);
    CountAppend(s.log, e, id);
    OneJudgement(e);
    if id in s.calls { CallFitsOther(s.log, e, id, s.calls[id]); }
  }

  lemma ArriveFits(c: Config, s: System, arriving: nat, readOnly: bool, id: nat)
    requires CallsFit(s)
    ensures IdFits(Next(c, s, Arrive(arriving, readOnly)), id)
  {
    assert IdFits(s, id) && IdFits(s, arriving);
    if arriving !in s.calls {
      if !Admits(s.gate.breaker, c.settings, s.now) {
        CallFitsBystander(s, Rejected(arriving, s.now), id);
      } else {
        var half := PhaseAt(s.gate.breaker, c.settings, s.now).HalfOpen?;
        if arriving == id {
          CallFitsAdmitted(s.log, id, half, s.now, readOnly);
        } else {
          CallFitsBystander(s, Admitted(arriving, half, s.now), id);
        }
      }
    }
  }

  lemma ResumeFits(c: Config, s: System, resumed: nat, w: Wake, id: nat)
    requires CallsFit(s)
    ensures IdFits(Next(c, s, Resume(resumed, w)), id)
  {
    assert IdFits(s, id) && IdFits(s, resumed);
    if resumed in s.calls && CanWake(s.gate.permits, s.calls[resumed], w) {
      if resumed == id {
        CallFitsResumed(s.log, id, s.calls[id], s.gate, c.settings, s.now, w);
      } else {
        CallFitsBystander(s, EventOf(resumed, s.calls[resumed], s.now, w), id);
      }
    }
  }

  lemma CallFitsStep(c: Config, s: System, step: Step, id: nat)
    requires CallsFit(s)
    ensures IdFits(Next(c, s, step), id)
  {
    match step
    case Tick(_) => assert IdFits(s, id);
    case Arrive(arriving, readOnly) => ArriveFits(c, s, arriving, readOnly, id);
    case Resume(resumed, w) => ResumeFits(c, s, resumed, w, id);
  }

  lemma CallsFitStep(c: Config, s: System, step: Step)
    requires CallsFit(s)
    ensures CallsFit(Next(c, s, step))
  {
    var t := Next(c, s, step);
    forall id: nat ensures IdFits(t, id) { CallFitsStep(c, s, step, id); }
    forall j | 0 <= j < |t.log| && t.log[j].Sent? && t.log[j].attempt > 1
      ensures RetryBehind(t.log[..j], t.log[j].id, t.log[j].attempt - 1)
    {
      LogGrows(c, s, step);
      if j < |s.log| {
        assert t.log[..j] == s.log[..j] && t.log[j] == s.log[j];
      } else {
        assert IdFits(s, t.log[j].id);
        assert t.log[..j] == s.log;
      }
    }
  }

  lemma {:induction false} CallsFitRun(c: Config, steps: seq<Step>)
    ensures CallsFit(Run(c, steps))
  {
    if steps != [] {
      CallsFitRun(c, steps[..|steps| - 1]);
      CallsFitStep(c, Run(c, steps[..|steps| - 1]), steps[|steps| - 1]);
    }
  }

  /** In every run a call hands the breaker at most one verdict, and none before it is gone; a
      write makes at most one transport call and a read two, the second only after an answer
      that may be retried, which a read timeout is not. */
  lemma OneVerdictBoundedAttempts(c: Config, steps: seq<Step>, id: nat)
    ensures var s := Run(c, steps);
      && VerdictsOf(s.log, id) <= 1
      && (id in s.calls ==> SendsOf(s.log, id) <= Attempts(s.calls[id].readOnly))
      && (id in s.calls && !s.calls[id].stage.Gone? ==> VerdictsOf(s.log, id) == 0)
      && (id !in s.calls ==> SendsOf(s.log, id) == 0)
    ensures forall j | 0 <= j < |Run(c, steps).log| ::
      var e := Run(c, steps).log[j];
      e.Sent? && e.attempt > 1 ==> RetryBehind(Run(c, steps).log[..j], e.id, e.attempt - 1)
    ensures !Retryable(ReadTimeout)
  {
    CallsFitRun(c, steps);
    assert IdFits(Run(c, steps), id);
  }
}
