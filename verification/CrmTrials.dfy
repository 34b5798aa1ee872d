/** The half-open trial over whole runs: who holds it, that nobody else is admitted meanwhile,
    and what stragglers can do to it. */
module CrmTrials {
  import opened Wrappers
  import opened Resilience
  import opened CrmProvider
  import opened CrmRuns

  /** A verdict or a release by any call. */
  predicate Clears(e: Event) {
    e.Ended? || e.Dropped?
  }

  /** The call whose half-open admission no verdict or release has followed yet. */
  function TrialHolder(log: seq<Event>): Option<nat> {
    if log == [] then None
    else
      var e := log[|log| - 1];
      if Clears(e) then None
      else if e.Admitted? && e.half then Some(e.id)
      else TrialHolder(log[..|log| - 1])
  }

  predicate InFlight(s: System, id: nat) {
    id in s.calls && !s.calls[id].stage.Gone?
  }

  function Live(calls: map<nat, ToolCall>): set<nat> {
    set id | id in calls && !calls[id].stage.Gone?
  }

  /** The trial flag is set exactly while a half-open admission stands, the call it let in is
      still in flight, and the breaker is past its cool-down. */
  predicate TrialFits(c: Config, s: System) {
    && s.gate.breaker.trial == TrialHolder(s.log).Some?
    && (s.gate.breaker.trial ==>
        && InFlight(s, TrialHolder(s.log).value)
        && PhaseAt(s.gate.breaker, c.settings, s.now).HalfOpen?)
  }

  lemma VerdictClears(b: Breaker, c: Settings, at: real, o: Outcome)
    ensures !Replay(b, c, Verdict(at, o)).trial && !Replay(b, c, [ReleaseTrial]).trial
  {
    ReplaySmall(b, c, RecordSuccess, ReleaseTrial);
    ReplaySmall(b, c, ReleaseTrial, ReleaseTrial);
    ReplaySmall(b, c, RecordFailure(at), ReleaseTrial);
  }

  lemma HolderAppend(log: seq<Event>, e: Event)
    ensures TrialHolder(log + [e]) ==
      if Clears(e) then None else if e.Admitted? && e.half then Some(e.id) else TrialHolder(log)
  {
    assert (log + [e])[..|log|] == log;
  }

  lemma TrialStep(c: Config, s: System, step: Step)
    requires TrialFits(c, s)
    ensures TrialFits(c, Next(c, s, step))
  {
    var t := Next(c, s, step);
    if t.log != s.log {
      var e := t.log[|s.log|];
      assert t.log == s.log + [e];
      HolderAppend(s.log, e);
      if e.Ended? { VerdictClears(s.gate.breaker, c.settings, s.now, e.outcome); }
      if e.Dropped? { VerdictClears(s.gate.breaker, c.settings, s.now, OtherError); }
    }
  }

  /** In every run the trial flag never outlives the call that set it. */
  lemma {:induction false} TrialNeverLeaks(c: Config, steps: seq<Step>)
    ensures TrialFits(c, Run(c, steps))
  {
    if steps != [] {
      TrialNeverLeaks(c, steps[..|steps| - 1]);
      TrialStep(c, Run(c, steps[..|steps| - 1]), steps[|steps| - 1]);
    }
  }

  // ---------------------------------------------------------------- nobody else is admitted

  predicate ClearedBetween(log: seq<Event>, i: int, j: int) {
    exists k | i < k < j :: 0 <= k < |log| && Clears(log[k])
  }

  /** Between a half-open admission and the next verdict or release nobody is admitted. */
  predicate Exclusive(log: seq<Event>) {
    forall i, j | 0 <= i < j < |log| && log[i].Admitted? && log[i].half && log[j].Admitted? ::
      ClearedBetween(log, i, j)
  }

  lemma {:induction false} HolderPersists(log: seq<Event>, i: nat)
    requires i < |log| && log[i].Admitted? && log[i].half
    requires !ClearedBetween(log, i, |log|)
    ensures TrialHolder(log).Some?
  {
    var n := |log| - 1;
    assert i < n ==> !Clears(log[n]);
    if i < n && !(log[n].Admitted? && log[n].half) {
      assert log[..n][i] == log[i];
      assert log == log[..n] + [log[n]];
      ClearedStays(log[..n], log[n], i, n);
      ClearedLonger(log, i, n);
      HolderPersists(log[..n], i);
    }
  }

  lemma ClearedStays(log: seq<Event>, e: Event, i: int, j: int)
    requires j <= |log|
    ensures ClearedBetween(log, i, j) ==> ClearedBetween(log + [e], i, j)
  {
    if ClearedBetween(log, i, j) {
      var k :| i < k < j && 0 <= k < |log| && Clears(log[k]);
      assert (log + [e])[k] == log[k];
    }
  }

  lemma ClearedLonger(log: seq<Event>, i: int, j: int)
    requires j <= |log|
    ensures ClearedBetween(log, i, j) ==> ClearedBetween(log, i, |log|)
  {
  }

  lemma ExclusiveStep(c: Config, s: System, step: Step)
    requires TrialFits(c, s) && Exclusive(s.log)
    ensures Exclusive(Next(c, s, step).log)
  {
    var t := Next(c, s, step);
    if t.log != s.log {
      var e := t.log[|s.log|];
      assert t.log == s.log + [e];
      forall i, j | 0 <= i < j < |t.log| && t.log[i].Admitted? && t.log[i].half && t.log[j].Admitted?
        ensures ClearedBetween(t.log, i, j)
      {
        ClearedStays(s.log, e, i, j);
        if j == |s.log| && !ClearedBetween(s.log, i, j) { HolderPersists(s.log, i); }
      }
    }
  }

  /** In every run, between a half-open admission and the next verdict or release by any call, no
      other call is admitted. */
  lemma {:induction false} TrialIsExclusive(c: Config, steps: seq<Step>)
    ensures Exclusive(Run(c, steps).log)
  {
    if steps != [] {
      TrialIsExclusive(c, steps[..|steps| - 1]);
      TrialNeverLeaks(c, steps[..|steps| - 1]);
      ExclusiveStep(c, Run(c, steps[..|steps| - 1]), steps[|steps| - 1]);
    }
  }

  /** Who is turned away, in every run: exactly the calls that arrive when the calls failed in a
      row have reached the threshold and either the cool-down since the last of them is not over
      or a trial stands. The others are admitted, as a trial when the threshold was reached. */
  lemma ArrivalIsJudged(c: Config, steps: seq<Step>, id: nat, readOnly: bool)
    requires id !in Run(c, steps).calls
    ensures var s := Run(c, steps); var t := Next(c, s, Arrive(id, readOnly));
      var n := FailedInARow(s.log); var spent := n > 0 && n >= c.settings.threshold;
      && (spent ==> LastFailedAt(s.log).Some?)
      && if spent && (s.now - LastFailedAt(s.log).value < c.settings.reset || TrialHolder(s.log).Some?)
         then t == s.(log := s.log + [Rejected(id, s.now)])
         else t.log == s.log + [Admitted(id, spent, s.now)] && t.calls == s.calls[id := ToolCall(readOnly, Waiting, 0)]
  {
    BreakerCountsAnswers(c, steps);
    TrialNeverLeaks(c, steps);
  }

  // ---------------------------------------------------------------- without stragglers

  /** Open, with nobody in flight but the holder of the trial. */
  predicate Quiet(s: System) {
    && s.gate.breaker.openedAt.Some?
    && Live(s.calls) == match TrialHolder(s.log) case None => {} case Some(id) => {id}
  }

  /** The call ended with a response that shows the CRM is up. */
  predicate Succeeded(e: Event) {
    e.Ended? && !EndsBadly(e.outcome) && e.outcome != OtherError
  }

  predicate SuccessSince(log: seq<Event>, n: nat) {
    exists k | n <= k < |log| :: Succeeded(log[k])
  }

  lemma EndOfTrial(s: System, id: nat)
    requires Quiet(s) && InFlight(s, id)
    ensures TrialHolder(s.log) == Some(id) && Live(s.calls) == {id}
  {
    assert id in Live(s.calls);
  }

  lemma StaysOpen(b: Breaker, c: Settings, at: real, e: Event)
    requires b.openedAt.Some? && (e.Ended? || e.Dropped?) && !Succeeded(e)
    ensures Replay(b, c, if e.Ended? then Verdict(at, e.outcome) else [ReleaseTrial]).openedAt.Some?
  {
    ReplaySmall(b, c, RecordFailure(at), ReleaseTrial);
    ReplaySmall(b, c, ReleaseTrial, ReleaseTrial);
  }

  lemma LiveUpdate(calls: map<nat, ToolCall>, id: nat, call: ToolCall)
    ensures Live(calls[id := call]) == if call.stage.Gone? then Live(calls) - {id} else Live(calls) + {id}
  {
  }

  /** An event is about the one call the step moved. */
  lemma EventMovesItsCall(c: Config, s: System, step: Step, e: Event)
    requires Next(c, s, step).log == s.log + [e] && !e.Rejected?
    ensures var t := Next(c, s, step);
      && e.id in t.calls && t.calls == s.calls[e.id := t.calls[e.id]]
      && (Clears(e) ==> t.calls[e.id].stage.Gone? && InFlight(s, e.id))
      && (!Clears(e) ==> !t.calls[e.id].stage.Gone? && (e.Admitted? || InFlight(s, e.id)))
  {
    assert (s.log + [e])[|s.log|] == e;
  }

  lemma QuietStep(c: Config, s: System, step: Step)
    requires TrialFits(c, s) && Quiet(s)
    ensures var t := Next(c, s, step); Quiet(t) || SuccessSince(t.log, |s.log|)
  {
    var t := Next(c, s, step);
    if t.log != s.log {
      var e := t.log[|s.log|];
      assert t.log == s.log + [e];
      HolderAppend(s.log, e);
      if !e.Rejected? {
        EventMovesItsCall(c, s, step, e);
        LiveUpdate(s.calls, e.id, t.calls[e.id]);
      }
      if Clears(e) {
        EndOfTrial(s, e.id);
        if Succeeded(e) {
          assert Succeeded(t.log[|s.log|]);
        } else {
          StaysOpen(s.gate.breaker, c.settings, s.now, e);
        }
      }
    }
  }

  lemma {:induction false} LogsGrow(c: Config, s: System, steps: seq<Step>)
    ensures var t := RunFrom(c, s, steps); |t.log| >= |s.log| && t.log[..|s.log|] == s.log
  {
    if steps != [] {
      LogsGrow(c, s, steps[..|steps| - 1]);
      var m := RunFrom(c, s, steps[..|steps| - 1]);
      LogGrows(c, m, steps[|steps| - 1]);
      var t := RunFrom(c, s, steps);
      assert t.log[..|s.log|] == t.log[..|m.log|][..|s.log|];
    }
  }

  lemma SuccessLater(log: seq<Event>, later: seq<Event>, n: nat)
    requires log <= later
    ensures SuccessSince(log, n) ==> SuccessSince(later, n)
  {
    if SuccessSince(log, n) {
      var k :| n <= k < |log| && Succeeded(log[k]);
      assert later[k] == log[k];
    }
  }

  lemma HolderIsLive(c: Config, s: System)
    requires TrialFits(c, s)
    ensures TrialHolder(s.log).Some? ==> TrialHolder(s.log).value in Live(s.calls)
  {
  }

  /** From a moment at which the breaker is open and nobody is in flight, at most one call is in
      flight until a call succeeds and closes it. */
  lemma {:induction false} OneTrialUntilClosed(c: Config, s: System, steps: seq<Step>)
    requires TrialFits(c, s) && s.gate.breaker.openedAt.Some? && Live(s.calls) == {}
    ensures var t := RunFrom(c, s, steps);
      TrialFits(c, t) && (SuccessSince(t.log, |s.log|) || (Quiet(t) && |Live(t.calls)| <= 1))
  {
    if steps == [] {
      HolderIsLive(c, s);
    } else {
      var m, step := RunFrom(c, s, steps[..|steps| - 1]), steps[|steps| - 1];
      OneTrialUntilClosed(c, s, steps[..|steps| - 1]);
      TrialStep(c, m, step);
      LogGrows(c, m, step);
      LogsGrow(c, s, steps[..|steps| - 1]);
      SuccessLater(m.log, Next(c, m, step).log, |s.log|);
      if Quiet(m) && !SuccessSince(m.log, |s.log|) {
        QuietStep(c, m, step);
        if !Quiet(Next(c, m, step)) { SuccessEarlier(Next(c, m, step).log, |m.log|, |s.log|); }
      }
    }
  }

  lemma SuccessEarlier(log: seq<Event>, n: nat, m: nat)
    requires m <= n && SuccessSince(log, n)
    ensures SuccessSince(log, m)
  {
    var k :| n <= k < |log| && Succeeded(log[k]);
    assert Succeeded(log[k]);
  }

  // ---------------------------------------------------------------- with stragglers

  /** Calls that have handed in a verdict or a release are gone. */
  predicate ClearedAreGone(s: System) {
    forall e | e in s.log && Clears(e) :: e.id in s.calls && s.calls[e.id].stage.Gone?
  }

  lemma {:induction false} ClearedStayGone(c: Config, steps: seq<Step>)
    ensures ClearedAreGone(Run(c, steps))
  {
    if steps != [] {
      var s, step := Run(c, steps[..|steps| - 1]), steps[|steps| - 1];
      ClearedStayGone(c, steps[..|steps| - 1]);
      var t := Next(c, s, step);
      if t.log != s.log { assert t.log == s.log + [t.log[|s.log|]]; }
    }
  }

  /** A second trial beside one still in flight takes a straggler: a call other than the first
      trial that handed in its verdict or release in between. */
  lemma SecondTrialNeedsStraggler(c: Config, steps: seq<Step>, i: nat, j: nat) returns (k: nat)
    requires var s := Run(c, steps);
      && i < j < |s.log| && s.log[i].Admitted? && s.log[i].half && s.log[j].Admitted?
      && InFlight(s, s.log[i].id)
    ensures var log := Run(c, steps).log; i < k < j && Clears(log[k]) && log[k].id != log[i].id
  {
    var s := Run(c, steps);
    TrialIsExclusive(c, steps);
    ClearedStayGone(c, steps);
    assert ClearedBetween(s.log, i, j);
    k :| i < k < j && Clears(s.log[k]);
    assert s.log[k] in s.log;
  }

  // ---------------------------------------------------------------- exactly when a second trial is possible

  /** These steps admit a half-open call and leave `h` in flight. */
  predicate SecondTrial(c: Config, s: System, h: nat, steps: seq<Step>) {
    var t := RunFrom(c, s, steps);
    InFlight(t, h) && exists i | |s.log| <= i < |t.log| :: t.log[i].Admitted? && t.log[i].half
  }

  /** The trial is alone in flight, and nobody has been admitted since event `n`. */
  predicate Alone(c: Config, s: System, n: nat, h: nat) {
    && TrialFits(c, s) && TrialHolder(s.log) == Some(h) && Live(s.calls) == {h}
    && forall i | n <= i < |s.log| :: !s.log[i].Admitted?
  }

  predicate Finished(s: System, h: nat) {
    h in s.calls && s.calls[h].stage.Gone?
  }

  lemma AloneStep(c: Config, s: System, step: Step, n: nat, h: nat)
    requires Alone(c, s, n, h)
    ensures Alone(c, Next(c, s, step), n, h) || Finished(Next(c, s, step), h)
  {
    var t := Next(c, s, step);
    TrialStep(c, s, step);
    if t.log != s.log {
      var e := t.log[|s.log|];
      assert t.log == s.log + [e];
      HolderAppend(s.log, e);
      if !e.Rejected? {
        EventMovesItsCall(c, s, step, e);
        LiveUpdate(s.calls, e.id, t.calls[e.id]);
        if Clears(e) { assert e.id in Live(s.calls); }
      }
    }
  }

  lemma {:induction false} AloneUntilFinished(c: Config, s: System, steps: seq<Step>, h: nat)
    requires Alone(c, s, |s.log|, h)
    ensures var t := RunFrom(c, s, steps); Alone(c, t, |s.log|, h) || Finished(t, h)
  {
    if steps != [] {
      AloneUntilFinished(c, s, steps[..|steps| - 1], h);
      var m := RunFrom(c, s, steps[..|steps| - 1]);
      if Alone(c, m, |s.log|, h) { AloneStep(c, m, steps[|steps| - 1], |s.log|, h); }
    }
  }

  lemma {:induction false} UnusedId(ids: set<nat>) returns (id: nat)
    ensures forall i | i in ids :: i < id
  {
    if ids == {} {
      id := 0;
    } else {
      var x :| x in ids;
      var rest := UnusedId(ids - {x});
      id := if rest > x then rest else x + 1;
      assert forall i | i in ids :: i in ids - {x} || i == x;
    }
  }

  lemma TwoSteps(c: Config, s: System, a: Step, b: Step)
    ensures RunFrom(c, s, [a, b]) == Next(c, Next(c, s, a), b)
  {
    assert [a, b][..1] == [a] && [a][..0] == [];
    assert RunFrom(c, s, [a]) == Next(c, s, a);
  }

  /** Cancelling any other call in flight lets the next one in as a second trial. */
  lemma StragglerLetsIn(c: Config, s: System, h: nat, g: nat, id: nat)
    requires TrialFits(c, s) && TrialHolder(s.log) == Some(h)
    requires InFlight(s, g) && g != h && id !in s.calls
    ensures SecondTrial(c, s, h, [Resume(g, Cancelled), Arrive(id, true)])
  {
    var t := Next(c, s, Resume(g, Cancelled));
    var u := Next(c, t, Arrive(id, true));
    ReplaySmall(s.gate.breaker, c.settings, ReleaseTrial, ReleaseTrial);
    assert t.log == s.log + [Dropped(g)];
    assert u.log[|s.log| + 1] == Admitted(id, true, s.now);
    TwoSteps(c, s, Resume(g, Cancelled), Arrive(id, true));
  }

  /** A second trial can come beside the one in flight if and only if some other call is in flight:
      one admitted before, be it while the breaker was closed or as an earlier trial. */
  lemma SecondTrialIff(c: Config, s: System, h: nat)
    requires TrialFits(c, s) && TrialHolder(s.log) == Some(h)
    ensures (exists steps :: SecondTrial(c, s, h, steps)) <==> Live(s.calls) != {h}
  {
    HolderIsLive(c, s);
    if Live(s.calls) == {h} {
      forall steps ensures !SecondTrial(c, s, h, steps) { AloneUntilFinished(c, s, steps, h); }
    } else {
      var g :| g in Live(s.calls) && g != h;
      var id := UnusedId(s.calls.Keys);
      StragglerLetsIn(c, s, h, g, id);
    }
  }

  const STRAGGLER_CONFIG := Config(Settings(1, 30.0), 8)

  /** Two calls start; the first fails; after the cool-down a trial starts; the second call, a
      straggler, fails; after another cool-down a second trial starts beside the first. */
  const STRAGGLER_RUN: seq<Step> :=
    [Arrive(0, true), Arrive(1, true), Resume(0, Acquired), Resume(1, Acquired), Resume(0, Back(ReadTimeout)),
     Tick(30.0), Arrive(2, true), Resume(1, Back(ReadTimeout)), Tick(30.0), Arrive(3, true)]

  lemma StragglerOpens() returns (s: System)
    ensures s == Run(STRAGGLER_CONFIG, STRAGGLER_RUN[..5])
    ensures s.gate == Gate(Breaker(1, Some(0.0), false), 7) && s.now == 0.0
    ensures s.calls == map[0 := ToolCall(true, Gone(Some(ReadTimeout)), 1), 1 := ToolCall(true, Sending, 1)]
    ensures |s.log| == 5
  {
    var c := STRAGGLER_CONFIG;
    ReplaySmall(NEW_BREAKER, c.settings, RecordFailure(0.0), ReleaseTrial);
    var s1 := NextIs(c, STRAGGLER_RUN, 1, Init(c));
    var s2 := NextIs(c, STRAGGLER_RUN, 2, s1);
    var s3 := NextIs(c, STRAGGLER_RUN, 3, s2);
    var s4 := NextIs(c, STRAGGLER_RUN, 4, s3);
    s := NextIs(c, STRAGGLER_RUN, 5, s4);
  }

  lemma TrialStarts() returns (s: System)
    ensures s == Run(STRAGGLER_CONFIG, STRAGGLER_RUN[..7])
    ensures s.gate == Gate(Breaker(1, Some(0.0), true), 7) && s.now == 30.0
    ensures s.calls == map[0 := ToolCall(true, Gone(Some(ReadTimeout)), 1), 1 := ToolCall(true, Sending, 1), 2 := NewCall(true)]
    ensures |s.log| == 6 && s.log[5] == Admitted(2, true, 30.0)
  {
    var s5 := StragglerOpens();
    var s6 := NextIs(STRAGGLER_CONFIG, STRAGGLER_RUN, 6, s5);
    s := NextIs(STRAGGLER_CONFIG, STRAGGLER_RUN, 7, s6);
  }

  lemma StragglerReopens() returns (s: System)
    ensures s == Run(STRAGGLER_CONFIG, STRAGGLER_RUN[..8])
    ensures s.gate == Gate(Breaker(2, Some(30.0), false), 8) && s.now == 30.0
    ensures s.calls.Keys == {0, 1, 2} && Live(s.calls) == {2}
    ensures |s.log| == 7 && s.log[5] == Admitted(2, true, 30.0)
  {
    var s7 := TrialStarts();
    ReplaySmall(s7.gate.breaker, STRAGGLER_CONFIG.settings, RecordFailure(30.0), ReleaseTrial);
    s := NextIs(STRAGGLER_CONFIG, STRAGGLER_RUN, 8, s7);
    assert s.log[5] == s7.log[5];
  }

  /** Such a straggler is possible: a call admitted while the breaker was closed fails during the
      first trial and so lets a second one in. */
  lemma TwoTrialsAtOnce()
    ensures var s := Run(STRAGGLER_CONFIG, STRAGGLER_RUN);
      && Live(s.calls) == {2, 3}
      && |s.log| == 8 && s.log[5] == Admitted(2, true, 30.0) && s.log[7] == Admitted(3, true, 60.0)
  {
    var c := STRAGGLER_CONFIG;
    var s8 := StragglerReopens();
    var s9 := NextIs(c, STRAGGLER_RUN, 9, s8);
    var s10 := NextIs(c, STRAGGLER_RUN, 10, s9);
    assert STRAGGLER_RUN[..10] == STRAGGLER_RUN;
    LiveUpdate(s9.calls, 3, NewCall(true));
  }

  lemma NextIs(c: Config, steps: seq<Step>, n: nat, s: System) returns (t: System)
    requires 0 < n <= |steps| && Run(c, steps[..n - 1]) == s
    ensures t == Next(c, s, steps[n - 1]) == Run(c, steps[..n])
  {
    t := Next(c, s, steps[n - 1]);
    assert steps[..n][..n - 1] == steps[..n - 1];
  }
}
