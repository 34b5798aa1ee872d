/** The code of one call meets the runs of all calls: whatever a run does, the call in it goes
    the way `CrmToolProvider.Call` was proved to go, with the other calls' steps in its awaits. */
module CrmSimulation {
  import opened Resilience
  import opened CrmProvider
  import opened CrmRuns

  function OnBreakerAll(ops: seq<Op>): seq<GateOp> {
    if ops == [] then [] else OnBreakerAll(ops[..|ops| - 1]) + [OnBreaker(ops[|ops| - 1])]
  }

  /** What a step of somebody else does to the shared gate. */
  function Meanwhile(c: Config, s: System, step: Step): seq<GateOp> {
    match step
    case Tick(_) => []
    case Arrive(id, _) => if id in s.calls then [] else [OnBreaker(BeforeCall(s.now))]
    case Resume(id, w) =>
      if id !in s.calls || !CanWake(s.gate.permits, s.calls[id], w) then []
      else
        match w
        case Acquired => [Take]
        case Slept => []
        case Back(o) => if Retries(s.calls[id], o) then [] else OnBreakerAll(Verdict(s.now, o)) + [Give]
        case Cancelled => [OnBreaker(ReleaseTrial)] + if s.calls[id].stage.Waiting? then [] else [Give]
  }

  lemma {:induction false} MeddleAppend(g: Gate, c: Settings, a: seq<GateOp>, b: seq<GateOp>)
    ensures Meddle(g, c, a + b) == Meddle(Meddle(g, c, a), c, b)
    decreases a
  {
    if a == [] {
      assert a + b == b;
    } else {
      assert (a + b)[1..] == a[1..] + b;
      MeddleAppend(MeddleOnce(g, c, a[0]), c, a[1..], b);
    }
  }

  lemma {:induction false} MeddleOnBreaker(g: Gate, c: Settings, ops: seq<Op>)
    ensures Meddle(g, c, OnBreakerAll(ops)) == g.(breaker := Replay(g.breaker, c, ops))
  {
    if ops != [] {
      var n := |ops| - 1;
      MeddleOnBreaker(g, c, ops[..n]);
      MeddleAppend(g, c, OnBreakerAll(ops[..n]), [OnBreaker(ops[n])]);
      assert [OnBreaker(ops[n])][1..] == [];
    }
  }

  lemma MeddleOne(g: Gate, c: Settings, x: GateOp, y: GateOp)
    ensures Meddle(g, c, [x, y]) == Meddle(Meddle(g, c, [x]), c, [y])
  {
    assert [x] + [y] == [x, y];
    MeddleAppend(g, c, [x], [y]);
  }

  /** A step is what it does to the gate. */
  lemma MeanwhileIsNext(c: Config, s: System, step: Step)
    ensures Meddle(s.gate, c.settings, Meanwhile(c, s, step)) == Next(c, s, step).gate
  {
    match step
    case Tick(_) =>
    case Arrive(id, _) => assert [OnBreaker(BeforeCall(s.now))][1..] == [];
    case Resume(id, w) =>
      if id in s.calls && CanWake(s.gate.permits, s.calls[id], w) {
        match w
        case Acquired => assert [Take][1..] == [];
        case Slept =>
        case Back(o) =>
          MeddleOnBreaker(s.gate, c.settings, Verdict(s.now, o));
          MeddleAppend(s.gate, c.settings, OnBreakerAll(Verdict(s.now, o)), [Give]);
          assert [Give][1..] == [];
        case Cancelled =>
          ReplaySmall(s.gate.breaker, c.settings, ReleaseTrial, ReleaseTrial);
          assert [OnBreaker(ReleaseTrial)][1..] == [] && [Give][1..] == [];
          assert [OnBreaker(ReleaseTrial)] + [Give] == [OnBreaker(ReleaseTrial), Give];
          MeddleOne(s.gate, c.settings, OnBreaker(ReleaseTrial), Give);
          assert [OnBreaker(ReleaseTrial)] + [] == [OnBreaker(ReleaseTrial)];
      }
  }

  /** A wake that cannot resume the call: somebody else's step. */
  function NotYet(call: ToolCall): Wake {
    if call.stage.Backoff? then Acquired else Slept
  }

  function AwaitOf(c: Config, s: System, id: nat, step: Step): Await
    requires id in s.calls
  {
    if step.Resume? && step.id == id then Await([], s.now, step.wake)
    else Await(Meanwhile(c, s, step), s.now, NotYet(s.calls[id]))
  }

  /** The run as the call's awaits. */
  function AwaitsOf(c: Config, s: System, id: nat, steps: seq<Step>): seq<Await>
    requires id in s.calls
  {
    if steps == [] then []
    else
      CallsStay(c, s, id, steps[..|steps| - 1]);
      AwaitsOf(c, s, id, steps[..|steps| - 1])
        + [AwaitOf(c, RunFrom(c, s, steps[..|steps| - 1]), id, steps[|steps| - 1])]
  }

  lemma {:induction false} CallsStay(c: Config, s: System, id: nat, steps: seq<Step>)
    requires id in s.calls
    ensures id in RunFrom(c, s, steps).calls
  {
    if steps != [] { CallsStay(c, s, id, steps[..|steps| - 1]); }
  }

  lemma {:induction false} PlayAppend(g: Gate, c: Settings, call: ToolCall, a: seq<Await>, x: Await)
    ensures var p := Play(g, c, call, a); Play(g, c, call, a + [x]) == Play(p.0, c, p.1, [x])
    decreases a
  {
    if a == [] {
      assert a + [x] == [x];
    } else if call.stage.Gone? {
    } else {
      assert (a + [x])[1..] == a[1..] + [x];
      var g' := Meddle(g, c, a[0].others);
      if CanWake(g'.permits, call, a[0].wake) {
        var n := Woken(g', c, a[0].at, call, a[0].wake);
        PlayAppend(n.0, c, n.1, a[1..], x);
      } else {
        PlayAppend(g', c, call, a[1..], x);
      }
    }
  }

  lemma OneAwait(c: Config, s: System, id: nat, step: Step)
    requires id in s.calls && !s.calls[id].stage.Gone?
    ensures var t := Next(c, s, step);
      id in t.calls && Play(s.gate, c.settings, s.calls[id], [AwaitOf(c, s, id, step)]) == (t.gate, t.calls[id])
  {
    var a := AwaitOf(c, s, id, step);
    assert [a][1..] == [];
    if !(step.Resume? && step.id == id) { MeanwhileIsNext(c, s, step); }
  }

  /** As long as the call is in flight, its way through any run is `Play` on that run's awaits. */
  lemma {:induction false} RunIsPlay(c: Config, s: System, id: nat, steps: seq<Step>)
    requires id in s.calls && !s.calls[id].stage.Gone?
    requires forall n | 0 <= n < |steps| :: var m := RunFrom(c, s, steps[..n]); id in m.calls && !m.calls[id].stage.Gone?
    ensures var t := RunFrom(c, s, steps);
      id in t.calls && Play(s.gate, c.settings, s.calls[id], AwaitsOf(c, s, id, steps)) == (t.gate, t.calls[id])
  {
    if steps != [] {
      var n := |steps| - 1;
      forall k | 0 <= k < n
        ensures var m := RunFrom(c, s, steps[..n][..k]); id in m.calls && !m.calls[id].stage.Gone?
      {
        assert steps[..n][..k] == steps[..k];
      }
      RunIsPlay(c, s, id, steps[..n]);
      var m := RunFrom(c, s, steps[..n]);
      PlayAppend(s.gate, c.settings, s.calls[id], AwaitsOf(c, s, id, steps[..n]), AwaitOf(c, m, id, steps[n]));
      OneAwait(c, m, id, steps[n]);
    }
  }

  lemma {:induction false} FitsFrom(c: Config, s: System, steps: seq<Step>)
    requires CallsFit(s)
    ensures CallsFit(RunFrom(c, s, steps))
  {
    if steps != [] {
      FitsFrom(c, s, steps[..|steps| - 1]);
      CallsFitStep(c, RunFrom(c, s, steps[..|steps| - 1]), steps[|steps| - 1]);
    }
  }

  /** A call admitted at any point of any run: the transport calls the run then records for it are
      the ones `Sends` gives for the gate it found and that run's awaits. */
  lemma SendsArePlayed(c: Config, before: seq<Step>, id: nat, readOnly: bool, steps: seq<Step>)
    requires var s := Run(c, before); id !in s.calls && Admits(s.gate.breaker, c.settings, s.now)
    requires var s := Next(c, Run(c, before), Arrive(id, readOnly));
      forall n | 0 <= n < |steps| :: var m := RunFrom(c, s, steps[..n]); id in m.calls && !m.calls[id].stage.Gone?
    ensures var s := Run(c, before); var t := Next(c, s, Arrive(id, readOnly));
      SendsOf(RunFrom(c, t, steps).log, id) ==
        Sends(readOnly, Course(s.gate, c.settings, s.now, AwaitsOf(c, t, id, steps)))
  {
    var s := Run(c, before);
    var t := Next(c, s, Arrive(id, readOnly));
    CallsFitRun(c, before);
    CallsFitStep(c, s, Arrive(id, readOnly));
    FitsFrom(c, t, steps);
    RunIsPlay(c, t, id, steps);
    assert IdFits(RunFrom(c, t, steps), id);
  }
}
