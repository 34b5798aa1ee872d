/** Calls of CRM tools (app/tools/crm_provider.py): admission by the tenant's breaker, the
    semaphore, one retry for reads, and the verdict each call hands to the breaker. The code
    between two awaits is one atomic step; any number of calls interleave. */
module CrmProvider {
  import opened Wrappers
  import opened Resilience

  /** How `transport.call` comes back. */
  datatype Outcome =
    | Reply(wellFormed: bool)   // a response; one that cannot be decoded raises after it arrived
    | Http(code: int)           // a response with an error status
    | ReadTimeout
    | Timeout                   // asyncio's own timeout
    | TransportFailure          // any other transport error, such as a refused connection
    | OtherError

  predicate RetryableStatus(code: int) {
    code == 502 || code == 503 || code == 504
  }

  predicate Retryable(o: Outcome) {
    match o
    case Http(code) => RetryableStatus(code)
    case Timeout => true
    case TransportFailure => true
    case _ => false
  }

  /** The call ends in a transport failure or a server error. */
  predicate EndsBadly(o: Outcome) {
    match o
    case Http(code) => code >= 500
    case ReadTimeout => true
    case Timeout => true
    case TransportFailure => true
    case _ => false
  }

  datatype Stage = Waiting | Sending | Backoff | Gone(end: Option<Outcome>)   // None: cancelled

  /** A call past admission; `attempt` counts its transport calls. */
  datatype ToolCall = ToolCall(readOnly: bool, stage: Stage, attempt: nat)

  /** What the await a call is suspended at comes back with. */
  datatype Wake = Acquired | Back(outcome: Outcome) | Slept | Cancelled

  /** What the calls of one tenant share. */
  datatype Gate = Gate(breaker: Breaker, permits: nat)

  function Attempts(readOnly: bool): nat {
    if readOnly then 2 else 1
  }

  predicate Retries(call: ToolCall, o: Outcome) {
    call.attempt < Attempts(call.readOnly) && Retryable(o)
  }

  /** The breaker methods the end of a call runs. */
  function Verdict(at: real, o: Outcome): seq<Op> {
    match o
    case Reply(wellFormed) => if wellFormed then [RecordSuccess] else [RecordSuccess, ReleaseTrial]
    case Http(code) => if code >= 500 then [RecordFailure(at)] else [RecordSuccess]
    case OtherError => [ReleaseTrial]
    case _ => [RecordFailure(at)]
  }

  predicate CanWake(permits: nat, call: ToolCall, w: Wake) {
    match call.stage
    case Waiting => (w.Acquired? && permits > 0) || w.Cancelled?
    case Sending => w.Back? || w.Cancelled?
    case Backoff => w.Slept? || w.Cancelled?
    case Gone(_) => false
  }

  /** The step a call takes when its await comes back. */
  function Woken(g: Gate, c: Settings, at: real, call: ToolCall, w: Wake): (Gate, ToolCall)
    requires CanWake(g.permits, call, w)
  {
    match w
    case Acquired => (g.(permits := g.permits - 1), call.(stage := Sending, attempt := 1))
    case Slept => (g, call.(stage := Sending, attempt := call.attempt + 1))
    case Back(o) =>
      if Retries(call, o) then (g, call.(stage := Backoff))
      else (Gate(Replay(g.breaker, c, Verdict(at, o)), g.permits + 1), call.(stage := Gone(Some(o))))
    case Cancelled =>
      var permits := if call.stage.Waiting? then g.permits else g.permits + 1;
      (Gate(Replay(g.breaker, c, [ReleaseTrial]), permits), call.(stage := Gone(None)))
  }

  /** One more failure in a row; the threshold reached, the breaker is open since then. */
  predicate OneMore(before: Breaker, after: Breaker, c: Settings, at: real) {
    && after.failures == before.failures + 1 && !after.trial
    && after.openedAt == if before.openedAt.Some? || before.failures + 1 >= c.threshold then Some(at) else None
  }

  /** What the last answer of a call does to the breaker it finds. */
  predicate Judges(o: Outcome, before: Breaker, after: Breaker, c: Settings, at: real) {
    match o
    case Reply(_) => after == Breaker(0, None, false)
    case Http(code) => if code < 500 then after == Breaker(0, None, false) else OneMore(before, after, c, at)
    case OtherError => after == Breaker(before.failures, before.openedAt, false)
    case _ => OneMore(before, after, c, at)
  }

  // ---------------------------------------------------------------- one call, as the code runs it

  /** What other calls of the tenant do to the gate while this one waits. */
  datatype GateOp = OnBreaker(op: Op) | Take | Give

  function MeddleOnce(g: Gate, c: Settings, op: GateOp): Gate {
    match op
    case OnBreaker(o) => g.(breaker := Apply(g.breaker, c, o))
    case Take => if g.permits > 0 then g.(permits := g.permits - 1) else g
    case Give => g.(permits := g.permits + 1)
  }

  function Meddle(g: Gate, c: Settings, ops: seq<GateOp>): Gate
    decreases ops
  {
    if ops == [] then g else Meddle(MeddleOnce(g, c, ops[0]), c, ops[1..])
  }

  /** One await: what the others do meanwhile, and when and how the event loop resumes the call. */
  datatype Await = Await(others: seq<GateOp>, at: real, wake: Wake)

  /** The call resumed by these awaits, ignoring those that cannot resume it yet. */
  function Play(g: Gate, c: Settings, call: ToolCall, awaits: seq<Await>): (Gate, ToolCall)
    decreases awaits
  {
    if awaits == [] || call.stage.Gone? then (g, call)
    else
      var a := awaits[0];
      var g' := Meddle(g, c, a.others);
      if CanWake(g'.permits, call, a.wake) then
        var n := Woken(g', c, a.at, call, a.wake);
        Play(n.0, c, n.1, awaits[1..])
      else Play(g', c, call, awaits[1..])
  }

  /** The gate as await `k` finds it. */
  function GateAt(g: Gate, c: Settings, call: ToolCall, awaits: seq<Await>, k: nat): Gate
    requires k < |awaits|
  {
    Meddle(Play(g, c, call, awaits[..k]).0, c, awaits[k].others)
  }

  /** Await `k` brings the answer `o` the call ends with; the gate it leaves is judged by it. */
  predicate JudgedAt(g: Gate, c: Settings, call: ToolCall, awaits: seq<Await>, k: nat, o: Outcome, left: Gate) {
    && k < |awaits| && awaits[k].wake == Back(o)
    && Judges(o, GateAt(g, c, call, awaits, k).breaker, left.breaker, c, awaits[k].at)
    && left.permits == GateAt(g, c, call, awaits, k).permits + 1
  }

  lemma VerdictJudges(b: Breaker, c: Settings, at: real, o: Outcome)
    ensures Judges(o, b, Replay(b, c, Verdict(at, o)), c, at)
  {
    ReplaySmall(b, c, RecordSuccess, ReleaseTrial);
    ReplaySmall(b, c, ReleaseTrial, ReleaseTrial);
    ReplaySmall(b, c, RecordFailure(at), ReleaseTrial);
  }

  /** A call that ends with an answer is judged by that answer, whatever the others do meanwhile. */
  lemma {:induction false} AnswerJudges(g: Gate, c: Settings, call: ToolCall, awaits: seq<Await>) returns (k: nat)
    requires !call.stage.Gone?
    requires var n := Play(g, c, call, awaits).1; n.stage.Gone? && n.stage.end.Some?
    ensures var n := Play(g, c, call, awaits); JudgedAt(g, c, call, awaits, k, n.1.stage.end.value, n.0)
    decreases awaits
  {
    var a := awaits[0];
    var g' := Meddle(g, c, a.others);
    var n := if CanWake(g'.permits, call, a.wake) then Woken(g', c, a.at, call, a.wake) else (g', call);
    if n.1.stage.Gone? {
      k := 0;
      assert awaits[..0] == [];
      VerdictJudges(g'.breaker, c, a.at, a.wake.outcome);
    } else {
      var j := AnswerJudges(n.0, c, n.1, awaits[1..]);
      k := j + 1;
      assert awaits[..k][1..] == awaits[1..][..j];
    }
  }

  datatype Result =
    | Suspended                       // the awaits ran out before the call ended
    | Interrupted                     // cancelled: the exception goes on to the caller
    | Ok
    | Unavailable
    | Unsure                          // no answer to a write: it may have happened
    | NotFound
    | AccessDenied
    | Internal

  function ResultOf(readOnly: bool, o: Outcome): Result {
    match o
    case Reply(wellFormed) => if wellFormed then Ok else Internal
    case Http(code) => if code == 404 then NotFound else if code == 401 || code == 403 then AccessDenied else Unavailable
    case ReadTimeout => if readOnly then Unavailable else Unsure
    case Timeout => if readOnly then Unavailable else Unsure
    case TransportFailure => Unavailable
    case OtherError => Internal
  }

  class CrmToolProvider {
    const guard: TenantGuard
    var sent: nat              // transport calls made
    var refetch: bool          // the tenant's manifest was invalidated

    ghost function Shared(): Gate
      reads guard.breaker, guard.semaphore
    {
      Gate(guard.breaker.Value(), guard.semaphore.permits)
    }

    constructor (guard: TenantGuard)
      ensures this.guard == guard && sent == 0 && !refetch
    {
      this.guard := guard;
      sent, refetch := 0, false;
    }

    /** Other calls run while this one waits. */
    method Others(ops: seq<GateOp>)
      modifies guard.breaker, guard.semaphore
      ensures Shared() == Meddle(old(Shared()), guard.breaker.Config(), ops)
    {
      for i := 0 to |ops|
        invariant Meddle(Shared(), guard.breaker.Config(), ops[i..]) == Meddle(old(Shared()), guard.breaker.Config(), ops)
      {
        match ops[i] {
          case OnBreaker(op) =>
            match op {
              case BeforeCall(at) => var _ := guard.breaker.BeforeCall(at);
              case RecordSuccess => guard.breaker.RecordSuccess();
              case RecordFailure(at) => guard.breaker.RecordFailure(at);
              case ReleaseTrial => guard.breaker.ReleaseTrial();
            }
          case Take =>
            if guard.semaphore.permits > 0 { guard.semaphore.permits := guard.semaphore.permits - 1; }
          case Give =>
            guard.semaphore.permits := guard.semaphore.permits + 1;
        }
      }
    }

    /** Suspend until an await resumes the call; `k` is the first await not yet used. */
    method Suspend(call: ToolCall, awaits: seq<Await>, start: nat) returns (a: Option<Await>, k: nat)
      requires start <= |awaits| && !call.stage.Gone?
      modifies guard.breaker, guard.semaphore
      ensures start <= k <= |awaits|
      ensures var c := guard.breaker.Config();
        match a
        case None => k == |awaits| && Play(old(Shared()), c, call, awaits[start..]) == (Shared(), call)
        case Some(w) =>
          && k > start && CanWake(Shared().permits, call, w.wake)
          && var n := Woken(Shared(), c, w.at, call, w.wake);
             Play(old(Shared()), c, call, awaits[start..]) == Play(n.0, c, n.1, awaits[k..])
    {
      k := start;
      ghost var c := guard.breaker.Config();
      while k < |awaits|
        invariant start <= k <= |awaits|
        invariant Play(old(Shared()), c, call, awaits[start..]) == Play(Shared(), c, call, awaits[k..])
      {
        var w := awaits[k];
        Others(w.others);
        k := k + 1;
        assert awaits[k - 1..][1..] == awaits[k..];
        if CanWake(guard.semaphore.permits, call, w.wake) { return Some(w), k; }
      }
      a := None;
    }

    method HttpError(code: int, at: real)
      modifies this`refetch, guard.breaker
      ensures Shared().breaker == Replay(old(Shared().breaker), guard.breaker.Config(), Verdict(at, Http(code)))
      ensures code >= 500 ==> OneMore(old(Shared().breaker), Shared().breaker, guard.breaker.Config(), at)
      ensures code < 500 ==> Shared().breaker == Breaker(0, None, false)
      ensures refetch == (old(refetch) || code == 404)
    {
      ReplaySmall(guard.breaker.Value(), guard.breaker.Config(), RecordSuccess, ReleaseTrial);
      ReplaySmall(guard.breaker.Value(), guard.breaker.Config(), RecordFailure(at), ReleaseTrial);
      if code == 404 {
        guard.breaker.RecordSuccess();
        refetch := true;
      } else if code == 401 || code == 403 {
        guard.breaker.RecordSuccess();
      } else if code >= 500 {
        guard.breaker.RecordFailure(at);
      } else {
        guard.breaker.RecordSuccess();
      }
    }

    /** The last answer: its verdict goes to the breaker and the permit back to the semaphore. */
    method Conclude(at: real, o: Outcome)
      modifies this`refetch, guard.breaker, guard.semaphore
      ensures Shared() == Gate(Replay(old(Shared().breaker), guard.breaker.Config(), Verdict(at, o)), old(Shared().permits) + 1)
      ensures Judges(o, old(Shared().breaker), Shared().breaker, guard.breaker.Config(), at)
      ensures refetch == (old(refetch) || o == Http(404))
    {
      ReplaySmall(guard.breaker.Value(), guard.breaker.Config(), RecordSuccess, ReleaseTrial);
      match o {
        case Reply(wellFormed) =>
          guard.breaker.RecordSuccess();
          if !wellFormed { guard.breaker.ReleaseTrial(); }
        case Http(code) => HttpError(code, at);
        case OtherError => guard.breaker.ReleaseTrial();
        case _ => guard.breaker.RecordFailure(at);
      }
      guard.semaphore.permits := guard.semaphore.permits + 1;
    }

    /** Cancellation gives back the permit, if the call holds one, and the trial. */
    method Cancel(holding: bool)
      modifies guard.breaker, guard.semaphore
      ensures Shared().breaker == Replay(old(Shared().breaker), guard.breaker.Config(), [ReleaseTrial])
      ensures Shared().permits == if holding then old(Shared().permits) + 1 else old(Shared().permits)
    {
      ReplaySmall(guard.breaker.Value(), guard.breaker.Config(), ReleaseTrial, ReleaseTrial);
      if holding { guard.semaphore.permits := guard.semaphore.permits + 1; }
      guard.breaker.ReleaseTrial();
    }

    /** One round of the retry loop, run with a permit held: the transport call, and the pause
        when it is to be repeated. Without a result the loop goes round again. */
    method Round(call: ToolCall, awaits: seq<Await>, start: nat)
      returns (result: Option<Result>, ghost next: ToolCall, k: nat)
      requires start <= |awaits| && call.stage.Sending? && call.attempt >= 1
      modifies this`sent, this`refetch, guard.breaker, guard.semaphore
      ensures start <= k <= |awaits|
      ensures Play(old(Shared()), guard.breaker.Config(), call, awaits[start..]) ==
        Play(Shared(), guard.breaker.Config(), next, awaits[k..])
      ensures next.readOnly == call.readOnly
      ensures match result
        case None => call.attempt < Attempts(call.readOnly) && next == call.(attempt := call.attempt + 1)
        case Some(r) => next.attempt == call.attempt && (k == |awaits| || next.stage.Gone?) && r == Told(next)
      ensures sent == old(sent) + 1 && refetch == (old(refetch) || next.stage == Gone(Some(Http(404))))
    {
      sent := sent + 1;
      next := call;
      var a;
      a, k := Suspend(call, awaits, start);
      if a.None? { return Some(Suspended), next, k; }
      if a.value.wake.Back? {
        var o := a.value.wake.outcome;
        if !(call.attempt < Attempts(call.readOnly) && Retryable(o)) {
          Conclude(a.value.at, o);
          next := next.(stage := Gone(Some(o)));
          return Some(ResultOf(call.readOnly, o)), next, k;
        }
        next := next.(stage := Backoff);
        a, k := Suspend(call.(stage := Backoff), awaits, k);
        if a.None? { return Some(Suspended), next, k; }
        if a.value.wake.Slept? {
          next := call.(attempt := call.attempt + 1);
          return None, next, k;
        }
      }
      Cancel(true);
      next := next.(stage := Gone(None));
      result := Some(Interrupted);
    }

    /** The retry loop. */
    method Transport(readOnly: bool, awaits: seq<Await>, start: nat) returns (result: Result, ghost call: ToolCall)
      requires start <= |awaits|
      modifies this`sent, this`refetch, guard.breaker, guard.semaphore
      ensures (Shared(), call) ==
        Play(old(Shared()), guard.breaker.Config(), ToolCall(readOnly, Sending, 1), awaits[start..])
      ensures result == Told(call)
      ensures sent == old(sent) + call.attempt
      ensures refetch == (old(refetch) || call.stage == Gone(Some(Http(404))))
    {
      ghost var course := Play(Shared(), guard.breaker.Config(), ToolCall(readOnly, Sending, 1), awaits[start..]);
      var attempt, k: nat := 1, start;
      while true
        invariant 1 <= attempt <= Attempts(readOnly) && start <= k <= |awaits|
        invariant course == Play(Shared(), guard.breaker.Config(), ToolCall(readOnly, Sending, attempt), awaits[k..])
        invariant sent == old(sent) + attempt - 1 && refetch == old(refetch)
        decreases Attempts(readOnly) - attempt
      {
        var done;
        done, call, k := Round(ToolCall(readOnly, Sending, attempt), awaits, k);
        if done.Some? { return done.value, call; }
        attempt := attempt + 1;
      }
    }

    /** The whole call: it is `Play` on the awaits, its result tells how it ended, and `sent`
        grows by its transport calls. */
    method Call(readOnly: bool, now: real, awaits: seq<Await>)
      returns (result: Result, ghost call: ToolCall, ghost last: nat)
      modifies this`sent, this`refetch, guard.breaker, guard.semaphore
      ensures !Admits(old(Shared().breaker), guard.breaker.Config(), now) ==>
        Shared() == old(Shared()) && refetch == old(refetch)
      ensures Admits(old(Shared().breaker), guard.breaker.Config(), now) ==>
        && (Shared(), call) == Play(Admission(old(Shared()), guard.breaker.Config(), now), guard.breaker.Config(),
             NewCall(readOnly), awaits)
        && refetch == (old(refetch) || call.stage == Gone(Some(Http(404))))
      ensures var course := Course(old(Shared()), guard.breaker.Config(), now, awaits);
        result == Tells(readOnly, course) && sent == old(sent) + Sends(readOnly, course)
      ensures call.stage.Gone? && call.stage.end.Some? ==>
        JudgedAt(Admission(old(Shared()), guard.breaker.Config(), now), guard.breaker.Config(), NewCall(readOnly), awaits,
          last, call.stage.end.value, Shared())
    {
      call, last := NewCall(readOnly), 0;
      var admitted := guard.breaker.BeforeCall(now);
      if !admitted { return Unavailable, call, last; }
      ghost var gate, c := Shared(), guard.breaker.Config();
      assert awaits[0..] == awaits;
      var a, k := Suspend(NewCall(readOnly), awaits, 0);
      if a.None? { return Suspended, call, last; }
      if a.value.wake == Cancelled {
        Cancel(false);
        call := call.(stage := Gone(None));
        return Interrupted, call, last;
      }
      guard.semaphore.permits := guard.semaphore.permits - 1;
      result, call := Transport(readOnly, awaits, k);
      if call.stage.Gone? && call.stage.end.Some? { last := AnswerJudges(gate, c, NewCall(readOnly), awaits); }
    }
  }

  /** What the caller of `CrmToolProvider.Call` is told. */
  function Told(call: ToolCall): Result {
    match call.stage
    case Gone(Some(o)) => ResultOf(call.readOnly, o)
    case Gone(None) => Interrupted
    case _ => Suspended
  }

  function NewCall(readOnly: bool): ToolCall {
    ToolCall(readOnly, Waiting, 0)
  }

  function Admission(g: Gate, c: Settings, now: real): Gate {
    g.(breaker := Apply(g.breaker, c, BeforeCall(now)))
  }

  // ---------------------------------------------------------------- one call from the outside

  /** What decides a call: the gate it finds, the moment it asks to be admitted, and its awaits. */
  datatype Course = Course(gate: Gate, settings: Settings, now: real, awaits: seq<Await>)

  function Played(readOnly: bool, c: Course): Option<ToolCall> {
    if Admits(c.gate.breaker, c.settings, c.now) then
      Some(Play(Admission(c.gate, c.settings, c.now), c.settings, NewCall(readOnly), c.awaits).1)
    else None
  }

  /** The result its caller is given. */
  function Tells(readOnly: bool, c: Course): Result {
    match Played(readOnly, c) case None => Unavailable case Some(call) => Told(call)
  }

  /** The transport calls it makes. */
  function Sends(readOnly: bool, c: Course): nat {
    match Played(readOnly, c) case None => 0 case Some(call) => call.attempt
  }

  predicate AttemptFits(call: ToolCall) {
    match call.stage
    case Waiting => call.attempt == 0
    case Sending => 1 <= call.attempt <= Attempts(call.readOnly)
    case Backoff => 1 <= call.attempt < Attempts(call.readOnly)
    case Gone(o) => call.attempt <= Attempts(call.readOnly) && (o.Some? ==> call.attempt >= 1)
  }

  lemma {:induction false} PlayFits(g: Gate, c: Settings, call: ToolCall, awaits: seq<Await>)
    requires AttemptFits(call)
    ensures var n := Play(g, c, call, awaits).1;
      AttemptFits(n) && n.readOnly == call.readOnly && call.attempt <= n.attempt
    decreases awaits
  {
    if awaits != [] && !call.stage.Gone? {
      var a := awaits[0];
      var g' := Meddle(g, c, a.others);
      if CanWake(g'.permits, call, a.wake) {
        var n := Woken(g', c, a.at, call, a.wake);
        PlayFits(n.0, c, n.1, awaits[1..]);
      } else {
        PlayFits(g', c, call, awaits[1..]);
      }
    }
  }

  /** Whatever a call meets, it makes at most the transport calls its retry loop allows, at least
      one if the CRM's answer reached the caller, and none if it was not admitted. */
  lemma SendsBounded(readOnly: bool, c: Course)
    ensures Sends(readOnly, c) <= Attempts(readOnly)
    ensures Tells(readOnly, c).Ok? ==> Sends(readOnly, c) >= 1
    ensures !Admits(c.gate.breaker, c.settings, c.now) ==> Sends(readOnly, c) == 0
  {
    PlayFits(Admission(c.gate, c.settings, c.now), c.settings, NewCall(readOnly), c.awaits);
  }

  /** What its caller is told of the answer a call ends with. That a change may have been made is
      said of a write that got no answer in time, and of nothing else; it went out exactly once. */
  lemma AnswerIsTold(readOnly: bool, c: Course, o: Outcome)
    requires Played(readOnly, c).Some? && Played(readOnly, c).value.stage == Gone(Some(o))
    ensures var r := Tells(readOnly, c);
      && (r == Ok <==> o == Reply(true))
      && (r == NotFound <==> o == Http(404))
      && (r == AccessDenied <==> o == Http(401) || o == Http(403))
      && (r == Unsure <==> !readOnly && (o == ReadTimeout || o == Timeout))
      && (r == Internal <==> o == Reply(false) || o == OtherError)
      && r != Suspended && r != Interrupted
      && (r == Unsure ==> Sends(readOnly, c) == 1)
  {
    PlayFits(Admission(c.gate, c.settings, c.now), c.settings, NewCall(readOnly), c.awaits);
  }

  /** Of these awaits, the first that resumes a waiting call gives it a permit. */
  predicate GetsPermit(g: Gate, c: Settings, awaits: seq<Await>)
    decreases awaits
  {
    awaits != [] &&
    var g' := Meddle(g, c, awaits[0].others);
    match awaits[0].wake
    case Acquired => g'.permits > 0 || GetsPermit(g', c, awaits[1..])
    case Cancelled => false
    case _ => GetsPermit(g', c, awaits[1..])
  }

  lemma {:induction false} WaitingPlays(g: Gate, c: Settings, call: ToolCall, awaits: seq<Await>)
    requires call.stage.Waiting? && call.attempt == 0
    ensures Play(g, c, call, awaits).1.attempt >= 1 <==> GetsPermit(g, c, awaits)
    decreases awaits
  {
    if awaits != [] {
      var a := awaits[0];
      var g' := Meddle(g, c, a.others);
      if !CanWake(g'.permits, call, a.wake) {
        WaitingPlays(g', c, call, awaits[1..]);
      } else if a.wake.Acquired? {
        var n := Woken(g', c, a.at, call, a.wake);
        PlayFits(n.0, c, n.1, awaits[1..]);
      }
    }
  }

  /** A call goes out, a write then exactly once, if and only if it is admitted and what ends its
      wait is a permit. */
  lemma SentIff(readOnly: bool, c: Course)
    ensures var sent := Admits(c.gate.breaker, c.settings, c.now) && GetsPermit(Admission(c.gate, c.settings, c.now), c.settings, c.awaits);
      && (Sends(readOnly, c) >= 1 <==> sent)
      && (!readOnly ==> Sends(readOnly, c) == if sent then 1 else 0)
  {
    WaitingPlays(Admission(c.gate, c.settings, c.now), c.settings, NewCall(readOnly), c.awaits);
    SendsBounded(readOnly, c);
  }
}
