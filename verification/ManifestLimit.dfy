/** The documented limit on staleness, `stale_max_seconds`: who is served an older manifest, and when. */
module ManifestLimit {
  import opened Wrappers
  import opened ManifestCache
  import opened ManifestRuns

  /** Event `k` of the log serves a manifest that is flagged and older than the limit. */
  predicate ServedLate(c: Settings, log: seq<Event>, k: nat) {
    && k < |log| && log[k].Served? && log[k].manifest.Some? && log[k].manifest.value.stale
    && log[k].now.wall - Origin(log[..k]) > c.staleMax
  }

  /** In every run a manifest is served past the limit only within one back-off of a failure at
      which its age was within the limit by less than that back-off. */
  lemma LateAfterFailure(c: Settings, s: System, steps: seq<Step>, k: nat)
    requires Started(s) && ServedLate(c, RunFrom(c, s, steps).log, k)
    ensures var log := RunFrom(c, s, steps).log; var mark := LastMark(log[..k]);
      && mark.Failure?
      && c.staleMax - c.retry < mark.at.wall - Origin(log[..k]) <= c.staleMax
      && log[k].now.wall < mark.at.wall + c.retry
  {
    RunFits(c, s, steps);
    assert ServeFits(c, RunFrom(c, s, steps).log[..k], RunFrom(c, s, steps).log[k]);
  }

  /** The kept entry is usable, and past the limit, after a while `d`. */
  predicate LateIn(c: Settings, kept: EntryValue, now: Clock, d: real) {
    && d >= 0.0 && Usable(kept, Clock(now.wall + d, now.mono + d))
    && now.wall + d - kept.fetchedAt > c.staleMax
  }

  /** An entry kept after a failure is served past the limit at some later moment if and only if its
      age and one back-off together exceed the limit. */
  lemma LateIff(c: Settings, e: EntryValue, error: string, now: Clock)
    requires now.wall - e.fetchedAt <= c.staleMax && e.freshUntil <= now.wall
    ensures var kept := Settle(c, Some(e), error, now).0;
      kept.Some? && ((exists d: real :: LateIn(c, kept.value, now, d)) <==> (now.wall - e.fetchedAt) + c.retry > c.staleMax)
  {
    var kept := Settle(c, Some(e), error, now).0.value;
    var age := now.wall - e.fetchedAt;
    if age + c.retry > c.staleMax {
      assert LateIn(c, kept, now, (c.staleMax - age + c.retry) / 2.0);
    }
  }

  // ---------------------------------------------------------------- a run for each such age

  lemma ThreeSteps(c: Settings, s: System, x: Step, y: Step, z: Step)
    ensures RunFrom(c, s, [x, y, z]) == Next(c, Next(c, Next(c, s, x), y), z)
  {
    assert [x, y, z][..2] == [x, y] && [x, y][..1] == [x] && [x][..0] == [];
    assert RunFrom(c, s, [x]) == Next(c, s, x);
    assert RunFrom(c, s, [x, y]) == Next(c, Next(c, s, x), y);
  }

  const RAW := Raw("h", 0, Parses)

  /** Nobody waits, and the entry and the log are these. */
  predicate Idle(s: System, e: Option<EntryValue>, used: set<nat>) {
    s.entry == e && s.gets == map[] && s.used == used
  }

  function Asking(id: nat): seq<Step> {
    [Invalidate, Get(id), Enter(id)]
  }

  function Answering(id: nat, reply: Reply): seq<Step> {
    [Respond(id, reply), Return(id), Saved(id, true, true)]
  }

  /** An invalidated cache: a get comes past the lock and asks. */
  lemma AsksNow(c: Settings, s: System, e: Option<EntryValue>, used: set<nat>, id: nat)
    requires Idle(s, e, used) && id !in used && s.now.wall >= 0.0 && s.now.mono >= 0.0
    ensures var t := RunFrom(c, s, Asking(id));
      && t.now == s.now && t.used == used + {id}
      && t.entry == (if e.Some? then Some(Invalidated(e.value)) else None)
      && t.gets == map[id := Fetching(ETag(e), None)]
      && Origin(t.log) == Origin(s.log)
  {
    var x := Next(c, s, Invalidate);
    ThreeSteps(c, s, Invalidate, Get(id), Enter(id));
    if e.Some? { LogAppend(s.log, Forgotten); }
    assert ETag(x.entry) == ETag(e);
    QueuesAndAsks(c, x, id);
  }

  lemma QueuesAndAsks(c: Settings, x: System, id: nat)
    requires x.gets == map[] && id !in x.used && !(x.entry.Some? && Usable(x.entry.value, x.now))
    ensures var t := Next(c, Next(c, x, Get(id)), Enter(id));
      && t == Logged(x.(used := x.used + {id}, gets := map[id := Fetching(ETag(x.entry), None)]), Asked(x.now))
      && Origin(t.log) == Origin(x.log)
  {
    var y := Next(c, x, Get(id));
    var stage := Fetching(ETag(x.entry), None);
    assert y == x.(used := x.used + {id}, gets := map[id := Queued]);
    assert !Locked(y);
    assert y.gets[id := stage] == map[id := stage];
    LogAppend(x.log, Asked(x.now));
  }

  /** The first answer: the manifest becomes the entry, saved or not. */
  lemma FirstAnswer(c: Settings, s: System, id: nat)
    requires s.entry.None? && s.gets == map[id := Fetching(None, None)]
    ensures var t := RunFrom(c, s, Answering(id, Answer(false, Some(RAW))));
      Idle(t, Some(Fetched(c, RAW, s.now)), s.used) && t.now == s.now && Origin(t.log) == s.now.wall
  {
    var reply := Answer(false, Some(RAW));
    var x := Next(c, s, Respond(id, reply));
    var y := Next(c, x, Return(id));
    ThreeSteps(c, s, Respond(id, reply), Return(id), Saved(id, true, true));
    var log := s.log + [Refreshed(id, s.published, s.now)];
    LogAppend(s.log, Refreshed(id, s.published, s.now));
    if c.snapshots {
      LogAppend(log, SaveEnded(true));
      LogAppend(log + [SaveEnded(true)], Served(id, Some(Parse(RAW)), s.now));
    } else {
      LogAppend(log, Served(id, Some(Parse(RAW)), s.now));
    }
  }

  /** The second fetch fails while the entry is within the limit. */
  lemma FailedAnswer(c: Settings, s: System, e: EntryValue, id: nat)
    requires s.entry == Some(e) && s.gets == map[id := Fetching(ETag(s.entry), None)]
    requires s.now.wall - e.fetchedAt <= c.staleMax
    ensures var t := RunFrom(c, s, Answering(id, Failed("down")));
      && Idle(t, Settle(c, Some(e), "down", s.now).0, s.used) && t.now == s.now
      && Origin(t.log) == Origin(s.log) && LastMark(t.log) == Failure(s.now)
  {
    var x := Next(c, s, Respond(id, Failed("down")));
    var y := Next(c, x, Return(id));
    var kept := Settle(c, Some(e), "down", s.now);
    ThreeSteps(c, s, Respond(id, Failed("down")), Return(id), Saved(id, true, true));
    LogAppend(s.log, FellBack(s.now));
    LogAppend(s.log + [FellBack(s.now)], Served(id, kept.1.served, s.now));
    assert y.log == s.log + [FellBack(s.now)] + [Served(id, kept.1.served, s.now)];
  }

  /** Whoever asks while the kept entry is usable is served it. */
  lemma ServedAfter(c: Settings, s: System, kept: EntryValue, used: set<nat>, id: nat, d: real)
    requires Idle(s, Some(kept), used) && id !in used && kept.manifest.stale && kept.fetchedAt == Origin(s.log)
    requires LateIn(c, kept, s.now, d)
    ensures var t := RunFrom(c, s, [Tick(d), Get(id), Tick(0.0)]);
      ServedLate(c, t.log, |s.log|) && t.log[..|s.log|] == s.log
  {
    var x := Next(c, s, Tick(d));
    var y := Next(c, x, Get(id));
    ThreeSteps(c, s, Tick(d), Get(id), Tick(0.0));
    assert y.log[..|s.log|] == s.log;
  }

  /** A fetch succeeds, and some time passes. */
  lemma FetchedAndAged(c: Settings, s: System, age: real) returns (steps: seq<Step>)
    requires Started(s) && age >= 0.0
    ensures var t := RunFrom(c, s, steps);
      && Idle(t, Some(Fetched(c, RAW, s.now)), {0}) && t.now == Clock(s.now.wall + age, s.now.mono + age)
      && Origin(t.log) == s.now.wall
  {
    var a, b, wait := Asking(0), Answering(0, Answer(false, Some(RAW))), [Tick(age), Tick(0.0), Tick(0.0)];
    var s1 := RunFrom(c, s, a);
    AsksNow(c, s, None, {}, 0);
    var s2 := RunFrom(c, s1, b);
    FirstAnswer(c, s1, 0);
    ThreeSteps(c, s2, Tick(age), Tick(0.0), Tick(0.0));
    RunAppend(c, s, a, b);
    RunAppend(c, s, a + b, wait);
    steps := a + b + wait;
  }

  /** Invalidated and asked for again, the entry is kept when that fetch fails. */
  lemma KeptAfterFailure(c: Settings, s: System, e: EntryValue) returns (steps: seq<Step>)
    requires Idle(s, Some(e), {0}) && s.now.wall >= 0.0 && s.now.mono >= 0.0 && s.now.wall - e.fetchedAt <= c.staleMax
    ensures var t := RunFrom(c, s, steps);
      && Idle(t, Settle(c, Some(Invalidated(e)), "down", s.now).0, {0, 1}) && t.now == s.now
      && Origin(t.log) == Origin(s.log) && LastMark(t.log) == Failure(s.now)
  {
    var a, b := Asking(1), Answering(1, Failed("down"));
    var s1 := RunFrom(c, s, a);
    AsksNow(c, s, Some(e), {0}, 1);
    FailedAnswer(c, s1, Invalidated(e), 1);
    RunAppend(c, s, a, b);
    assert {0} + {1} == {0, 1};
    steps := a + b;
  }

  /** For each age within the limit by less than one back-off there is a run that serves the entry
      past the limit after a failure at that age. */
  lemma LateRun(c: Settings, s: System, age: real) returns (steps: seq<Step>, k: nat)
    requires Started(s) && 0.0 <= age <= c.staleMax && age + c.retry > c.staleMax
    ensures var log := RunFrom(c, s, steps).log;
      && ServedLate(c, log, k)
      && LastMark(log[..k]).Failure? && LastMark(log[..k]).at.wall - Origin(log[..k]) == age
  {
    var p := FetchedAndAged(c, s, age);
    var s1 := RunFrom(c, s, p);
    var e := Fetched(c, RAW, s.now);
    var q := KeptAfterFailure(c, s1, e);
    var s2 := RunFrom(c, s1, q);
    LateIff(c, Invalidated(e), "down", s1.now);
    var kept := Settle(c, Some(Invalidated(e)), "down", s1.now).0.value;
    var d :| LateIn(c, kept, s1.now, d);
    ServedAfter(c, s2, kept, {0, 1}, 2, d);
    RunAppend(c, s, p, q);
    RunAppend(c, s, p + q, [Tick(d), Get(2), Tick(0.0)]);
    steps, k := p + q + [Tick(d), Get(2), Tick(0.0)], |s2.log|;
  }

  /** So the documented limit holds in all runs if and only if there is no back-off. */
  lemma LimitHoldsIff(c: Settings, s: System)
    requires Started(s) && c.staleMax >= 0.0
    ensures (forall steps, k: nat :: !ServedLate(c, RunFrom(c, s, steps).log, k)) <==> c.retry <= 0.0
  {
    if c.retry > 0.0 {
      var steps, k := LateRun(c, s, c.staleMax);
      assert ServedLate(c, RunFrom(c, s, steps).log, k);
    } else {
      forall steps, k: nat ensures !ServedLate(c, RunFrom(c, s, steps).log, k) {
        if ServedLate(c, RunFrom(c, s, steps).log, k) { LateAfterFailure(c, s, steps, k); }
      }
    }
  }
}
