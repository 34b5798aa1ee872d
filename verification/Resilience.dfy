/** Per-tenant isolation of CRM calls (app/tools/resilience.py): the circuit breaker as a value
    and as the class whose methods update it, the history it stands for, and the table of
    per-tenant guards. */
module Resilience {
  import opened Wrappers

  datatype Settings = Settings(threshold: int, reset: real)

  datatype Breaker = Breaker(failures: nat, openedAt: Option<real>, trial: bool)

  datatype Phase = Closed | HalfOpen | Open

  const NEW_BREAKER := Breaker(0, None, false)

  function PhaseAt(b: Breaker, c: Settings, now: real): Phase {
    match b.openedAt
    case None => Closed
    case Some(t) => if now - t >= c.reset then HalfOpen else Open
  }

  predicate Admits(b: Breaker, c: Settings, now: real) {
    PhaseAt(b, c, now).Closed? || (PhaseAt(b, c, now).HalfOpen? && !b.trial)
  }

  /** One call of a breaker method, in the order the event loop runs them. */
  datatype Op = BeforeCall(at: real) | RecordSuccess | RecordFailure(at: real) | ReleaseTrial

  function Apply(b: Breaker, c: Settings, op: Op): Breaker {
    match op
    case BeforeCall(now) => if Admits(b, c, now) && PhaseAt(b, c, now).HalfOpen? then b.(trial := true) else b
    case RecordSuccess => NEW_BREAKER
    case RecordFailure(now) =>
      var n := b.failures + 1;
      Breaker(n, if b.openedAt.Some? || n >= c.threshold then Some(now) else None, false)
    case ReleaseTrial => b.(trial := false)
  }

  /** The breaker after a sequence of method calls. */
  function Replay(b: Breaker, c: Settings, ops: seq<Op>): Breaker {
    if ops == [] then b else Apply(Replay(b, c, ops[..|ops| - 1]), c, ops[|ops| - 1])
  }

  lemma ReplaySmall(b: Breaker, c: Settings, x: Op, y: Op)
    ensures Replay(b, c, [x]) == Apply(b, c, x)
    ensures Replay(b, c, [x, y]) == Apply(Apply(b, c, x), c, y)
  {
    assert [x][..0] == [] && [x, y][..1] == [x];
  }

  lemma {:induction false} ReplayAppend(b: Breaker, c: Settings, p: seq<Op>, q: seq<Op>)
    ensures Replay(b, c, p + q) == Replay(Replay(b, c, p), c, q)
  {
    if q == [] {
      assert p + q == p;
    } else {
      assert (p + q)[..|p + q| - 1] == p + q[..|q| - 1];
      ReplayAppend(b, c, p, q[..|q| - 1]);
    }
  }

  // ---------------------------------------------------------------- the class

  class CircuitBreaker {
    const failureThreshold: int
    const resetSeconds: real
    var failures: nat
    var openedAt: Option<real>
    var trialInFlight: bool

    ghost function Value(): Breaker
      reads this
    {
      Breaker(failures, openedAt, trialInFlight)
    }

    function Config(): Settings {
      Settings(failureThreshold, resetSeconds)
    }

    constructor (failureThreshold: int, resetSeconds: real)
      ensures Value() == NEW_BREAKER && Config() == Settings(failureThreshold, resetSeconds)
    {
      this.failureThreshold, this.resetSeconds := failureThreshold, resetSeconds;
      failures, openedAt, trialInFlight := 0, None, false;
    }

    method State(now: real) returns (phase: Phase)
      ensures phase == PhaseAt(Value(), Config(), now)
    {
      if openedAt.None? { return Closed; }
      if now - openedAt.value >= resetSeconds { return HalfOpen; }
      phase := Open;
    }

    method BeforeCall(now: real) returns (admitted: bool)
      modifies this`trialInFlight
      ensures admitted == Admits(old(Value()), Config(), now)
      ensures Value() == Apply(old(Value()), Config(), Op.BeforeCall(now))
    {
      var state := State(now);
      if state == Open || (state == HalfOpen && trialInFlight) { return false; }
      if state == HalfOpen {
        trialInFlight := true;
      }
      admitted := true;
    }

    method RecordSuccess()
      modifies this
      ensures Value() == Apply(old(Value()), Config(), Op.RecordSuccess)
    {
      failures := 0;
      openedAt := None;
      trialInFlight := false;
    }

    method RecordFailure(now: real)
      modifies this
      ensures Value() == Apply(old(Value()), Config(), Op.RecordFailure(now))
    {
      trialInFlight := false;
      failures := failures + 1;
      if openedAt.Some? || failures >= failureThreshold {
        openedAt := Some(now);
      }
    }

    method ReleaseTrial()
      modifies this`trialInFlight
      ensures Value() == Apply(old(Value()), Config(), Op.ReleaseTrial)
    {
      trialInFlight := false;
    }
  }

  // ---------------------------------------------------------------- the history behind a breaker

  /** Failure verdicts since the last success verdict. */
  function ConsecutiveFailures(ops: seq<Op>): nat {
    if ops == [] then 0
    else
      match ops[|ops| - 1]
      case RecordSuccess => 0
      case RecordFailure(_) => ConsecutiveFailures(ops[..|ops| - 1]) + 1
      case _ => ConsecutiveFailures(ops[..|ops| - 1])
  }

  function LastFailure(ops: seq<Op>): Option<real> {
    if ops == [] then None
    else
      match ops[|ops| - 1]
      case RecordFailure(at) => Some(at)
      case _ => LastFailure(ops[..|ops| - 1])
  }

  /** Whatever order the methods are called in, the breaker is open exactly when the failures
      since the last success reach the threshold, and then since the last failure. */
  lemma {:induction false} BreakerIsItsHistory(c: Settings, ops: seq<Op>)
    ensures var b := Replay(NEW_BREAKER, c, ops); var n := ConsecutiveFailures(ops);
      && b.failures == n
      && (n > 0 ==> LastFailure(ops).Some?)
      && b.openedAt == if n > 0 && n >= c.threshold then LastFailure(ops) else None
  {
    if ops != [] { BreakerIsItsHistory(c, ops[..|ops| - 1]); }
  }

  // ---------------------------------------------------------------- one guard per tenant

  class Semaphore {
    var permits: nat

    constructor (permits: nat)
      ensures this.permits == permits
    {
      this.permits := permits;
    }
  }

  class TenantGuard {
    const semaphore: Semaphore
    const breaker: CircuitBreaker

    constructor (semaphore: Semaphore, breaker: CircuitBreaker)
      ensures this.semaphore == semaphore && this.breaker == breaker
    {
      this.semaphore, this.breaker := semaphore, breaker;
    }
  }

  class TenantGuards {
    const maxConcurrency: nat
    const failureThreshold: int
    const resetSeconds: real
    var guards: map<string, TenantGuard>

    /** No two tenants share a guard, a semaphore or a breaker. */
    ghost predicate Valid()
      reads this
    {
      && (forall t | t in guards :: guards[t].breaker.Config() == Settings(failureThreshold, resetSeconds))
      && forall t, u | t in guards && u in guards && t != u ::
           guards[t] != guards[u] && guards[t].semaphore != guards[u].semaphore && guards[t].breaker != guards[u].breaker
    }

    constructor (maxConcurrency: nat, failureThreshold: int, resetSeconds: real)
      ensures Valid() && guards == map[]
    {
      this.maxConcurrency := maxConcurrency;
      this.failureThreshold, this.resetSeconds := failureThreshold, resetSeconds;
      guards := map[];
    }

    method Get(tenant: string) returns (guard: TenantGuard)
      requires Valid()
      modifies this`guards
      ensures Valid() && tenant in guards && guards == old(guards)[tenant := guard]
      ensures tenant in old(guards) ==> guard == old(guards)[tenant]
      ensures tenant !in old(guards) ==>
        && fresh(guard) && fresh(guard.semaphore) && fresh(guard.breaker)
        && guard.semaphore.permits == maxConcurrency && guard.breaker.Value() == NEW_BREAKER
    {
      if tenant in guards {
        guard := guards[tenant];
      } else {
        var semaphore := new Semaphore(maxConcurrency);
        var breaker := new CircuitBreaker(failureThreshold, resetSeconds);
        guard := new TenantGuard(semaphore, breaker);
        guards := guards[tenant := guard];
      }
    }

    method State(tenant: string, now: real) returns (phase: Phase, failures: nat)
      requires Valid()
      ensures tenant !in guards ==> phase == Closed && failures == 0
      ensures tenant in guards ==>
        var b := guards[tenant].breaker; phase == PhaseAt(b.Value(), b.Config(), now) && failures == b.failures
    {
      if tenant !in guards { return Closed, 0; }
      phase := guards[tenant].breaker.State(now);
      failures := guards[tenant].breaker.failures;
    }
  }
}
