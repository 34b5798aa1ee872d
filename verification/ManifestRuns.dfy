/** Whole runs of one tenant's manifest cache: any number of gets queue, fetch, save, load and are
    cancelled, invalidations land at any moment, the clocks advance together, and the CRM publishes
    what it likes. A run is any sequence of steps; a step that is not possible changes nothing. */
module ManifestRuns {
  import opened Wrappers
  import opened ManifestCache

  /** Where a get is suspended. `answer` is what will come back, with what was published then. */
  datatype Stage =
    | Queued
    | Fetching(etag: Option<string>, answer: Option<(Reply, Raw)>)
    | Saving(manifest: Manifest, raw: Raw, since: real)
    | Loading(error: string)

  datatype Snapshot = Snapshot(raw: Raw, at: real)

  datatype Step =
    | Tick(d: real)
    | Publish(raw: Raw)
    | Invalidate
    | Get(id: nat)
    | Enter(id: nat)
    | Respond(id: nat, reply: Reply)     // the CRM, or the network, decides what the fetch returns
    | Return(id: nat)
    | Saved(id: nat, ok: bool, landed: bool)   // the row may land although the save fails
    | LoadedBack(id: nat, loaded: Loaded)
    | Cancel(id: nat, landed: bool)            // or is cancelled

  datatype Event =
    | Asked(now: Clock)                          // a fetch starts
    | Refreshed(id: nat, source: Raw, now: Clock)  // a 200 or a 304 was taken over
    | Restored(raw: Raw, at: real)               // a snapshot became the entry
    | FellBack(now: Clock)                       // the old copy is kept, flagged
    | Dropped                                    // no entry is left
    | Forgotten                                  // an invalidation
    | SaveEnded(ok: bool)
    | Served(id: nat, manifest: Option<Manifest>, now: Clock)

  datatype System = System(now: Clock, published: Raw, entry: Option<EntryValue>, gets: map<nat, Stage>, used: set<nat>,
                           snap: Option<Snapshot>, log: seq<Event>)

  predicate Working(stage: Stage) {
    !stage.Queued?
  }

  /** The tenant's lock is held. */
  predicate Locked(s: System) {
    exists id | id in s.gets :: Working(s.gets[id])
  }

  function Init(published: Raw, start: Clock, snap: Option<Snapshot>): System {
    System(start, published, None, map[], {}, snap, [])
  }

  function Without(gets: map<nat, Stage>, id: nat): map<nat, Stage> {
    map i | i in gets && i != id :: gets[i]
  }

  function Logged(s: System, e: Event): System {
    s.(log := s.log + [e])
  }

  /** The get is done. */
  function Done(s: System, id: nat, m: Option<Manifest>): System {
    Logged(s.(gets := Without(s.gets, id)), Served(id, m, s.now))
  }

  /** A failure was settled: the old copy stays, flagged, or nothing is left. */
  function Settled(s: System, e: Option<EntryValue>): System {
    Logged(s.(entry := e), if e.Some? then FellBack(s.now) else Dropped)
  }

  function ReturnStep(c: Settings, s: System, id: nat, reply: Reply, source: Raw): System {
    var r := OnReply(c, s.entry, reply, s.now);
    match r.1
    case Load(error) => s.(gets := s.gets[id := Loading(error)])
    case Save(m, raw) => Logged(s.(entry := r.0, gets := s.gets[id := Saving(m, raw, s.now.wall)]), Refreshed(id, source, s.now))
    case Serve(m) =>
      if r.0.Some? && r.0.value.lastError.None? then
        Done(Logged(s.(entry := r.0), Refreshed(id, source, s.now)), id, m)
      else Done(Settled(s, r.0), id, m)
    case Raise => s
  }

  function LoadStep(c: Settings, s: System, id: nat, l: Loaded, error: string): System {
    var r := OnLoad(c, s.entry, l, error, s.now);
    match r.1
    case Serve(m) =>
      var restored := if r.0.Some? && l.Row? then Logged(s, Restored(l.raw, l.at)) else s;
      Done(Settled(restored, r.0), id, m)
    case _ => s.(gets := Without(s.gets, id))
  }

  /** The stored row once a save has ended, dated when the save began. */
  function SnapAfter(s: System, saving: Stage, landed: bool): Option<Snapshot>
    requires saving.Saving?
  {
    if landed then Some(Snapshot(saving.raw, saving.since)) else s.snap
  }

  function Next(c: Settings, s: System, step: Step): System {
    match step
    case Tick(d) => if d >= 0.0 then s.(now := Clock(s.now.wall + d, s.now.mono + d)) else s
    case Publish(raw) => s.(published := raw)
    case Invalidate =>
      if s.entry.None? then s else Logged(s.(entry := Some(Invalidated(s.entry.value))), Forgotten)
    case Get(id) =>
      if id in s.used || id in s.gets then s
      else if s.entry.Some? && Usable(s.entry.value, s.now) then
        Done(s.(used := s.used + {id}), id, Some(s.entry.value.manifest))
      else s.(used := s.used + {id}, gets := s.gets[id := Queued])
    case Enter(id) =>
      if id !in s.gets || !s.gets[id].Queued? || Locked(s) then s
      else if s.entry.Some? && Usable(s.entry.value, s.now) then
        Done(s, id, Some(s.entry.value.manifest))
      else Logged(s.(gets := s.gets[id := Fetching(ETag(s.entry), None)]), Asked(s.now))
    case Respond(id, reply) =>
      if id in s.gets && s.gets[id].Fetching? && s.gets[id].answer.None? then
        s.(gets := s.gets[id := Fetching(s.gets[id].etag, Some((reply, s.published)))])
      else s
    case Return(id) =>
      if id in s.gets && s.gets[id].Fetching? && s.gets[id].answer.Some? then
        ReturnStep(c, s, id, s.gets[id].answer.value.0, s.gets[id].answer.value.1)
      else s
    case Saved(id, ok, landed) =>
      if id !in s.gets || !s.gets[id].Saving? then s
      else Done(Logged(s.(snap := SnapAfter(s, s.gets[id], ok || landed)), SaveEnded(ok)), id, Some(s.gets[id].manifest))
    case LoadedBack(id, l) =>
      if id in s.gets && s.gets[id].Loading? then LoadStep(c, s, id, l, s.gets[id].error) else s
    case Cancel(id, landed) =>
      if id !in s.gets then s
      else if s.gets[id].Saving? then
        Logged(s.(snap := SnapAfter(s, s.gets[id], landed), gets := Without(s.gets, id)), SaveEnded(false))
      else s.(gets := Without(s.gets, id))
  }

  function RunFrom(c: Settings, s: System, steps: seq<Step>): System {
    if steps == [] then s else Next(c, RunFrom(c, s, steps[..|steps| - 1]), steps[|steps| - 1])
  }

  lemma {:induction false} RunAppend(c: Settings, s: System, p: seq<Step>, q: seq<Step>)
    ensures RunFrom(c, s, p + q) == RunFrom(c, RunFrom(c, s, p), q)
  {
    if q == [] {
      assert p + q == p;
    } else {
      assert (p + q)[..|p + q| - 1] == p + q[..|q| - 1];
      RunAppend(c, s, p, q[..|q| - 1]);
    }
  }

  // ---------------------------------------------------------------- single flight

  /** At most one get is past the lock. */
  predicate SingleFlight(gets: map<nat, Stage>) {
    forall i, j | i in gets && j in gets && Working(gets[i]) && Working(gets[j]) :: i == j
  }

  lemma SingleFlightStep(c: Settings, s: System, step: Step)
    requires SingleFlight(s.gets)
    ensures SingleFlight(Next(c, s, step).gets)
  {
  }

  // ---------------------------------------------------------------- what the entry stands for

  /** When the entry was last fetched, revalidated or, in a snapshot, stored. */
  function Origin(log: seq<Event>): real {
    if log == [] then 0.0
    else
      match log[|log| - 1]
      case Refreshed(_, _, now) => now.wall
      case Restored(_, at) => at
      case _ => Origin(log[..|log| - 1])
  }

  /** The last thing that set the entry's dates: a success, a failure, or neither. */
  datatype Mark = Success(at: Clock) | Failure(at: Clock) | Nothing

  function LastMark(log: seq<Event>): Mark {
    if log == [] then Nothing
    else
      match log[|log| - 1]
      case Refreshed(_, _, now) => Success(now)
      case FellBack(now) => Failure(now)
      case Dropped => Nothing
      case Forgotten => Nothing
      case _ => LastMark(log[..|log| - 1])
  }

  lemma LogAppend(log: seq<Event>, e: Event)
    ensures Origin(log + [e]) == match e case Refreshed(_, _, now) => now.wall case Restored(_, at) => at case _ => Origin(log)
    ensures LastMark(log + [e]) == match e
      case Refreshed(_, _, now) => Success(now)
      case FellBack(now) => Failure(now)
      case Dropped => Nothing
      case Forgotten => Nothing
      case _ => LastMark(log)
  {
    assert (log + [e])[..|log|] == log;
  }

  predicate RefreshedBy(log: seq<Event>, id: nat) {
    exists i | 0 <= i < |log| :: log[i].Refreshed? && log[i].id == id
  }

  /** The dates of an entry, against the log and the clocks. */
  predicate EntryFits(c: Settings, e: EntryValue, log: seq<Event>, now: Clock) {
    && e.fetchedAt == Origin(log)
    && e.manifest == Parse(e.raw).(stale := e.lastError.Some?)
    && (e.lastError.None? ==> e.freshUntil == 0.0 || e.freshUntil == e.fetchedAt + c.ttl)
    && (e.lastError.Some? ==> e.freshUntil <= now.wall)
    && match LastMark(log)
       case Success(at) => e.lastError.None? && e.freshUntil == at.wall + c.ttl
       case Failure(at) =>
         && e.lastError.Some? && e.retryAt == at.mono + c.retry
         && at.wall - e.fetchedAt <= c.staleMax && now.wall - at.wall == now.mono - at.mono
       case Nothing => e.freshUntil == 0.0 && e.retryAt == 0.0
  }

  /** What may be served to whom, given the log before: unflagged only what is less than the TTL
      old or was refreshed by this very get; flagged only what is young enough. */
  predicate ServeFits(c: Settings, log: seq<Event>, e: Event) {
    e.Served? && e.manifest.Some? ==>
      var age := e.now.wall - Origin(log);
      if e.manifest.value.stale then age <= c.staleMax || FellBackInTime(c, log, e.now)
      else age < c.ttl || RefreshedBy(log, e.id)
  }

  /** The last thing that happened to the entry is a failure it was young enough to survive, less
      than one back-off ago. */
  predicate FellBackInTime(c: Settings, log: seq<Event>, now: Clock) {
    match LastMark(log)
    case Failure(at) => at.wall - Origin(log) <= c.staleMax && now.wall < at.wall + c.retry
    case _ => false
  }

  /** When a fetch may start, given the log before: not within the TTL of a success nor within the
      back-off of a failure that left the entry in place. */
  predicate AskFits(c: Settings, log: seq<Event>, e: Event) {
    e.Asked? ==>
      match LastMark(log)
      case Success(at) => e.now.wall >= at.wall + c.ttl
      case Failure(at) => e.now.mono >= at.mono + c.retry
      case Nothing => true
  }

  predicate LogFits(c: Settings, log: seq<Event>) {
    forall k | 0 <= k < |log| :: ServeFits(c, log[..k], log[k]) && AskFits(c, log[..k], log[k])
  }

  predicate EntryPart(c: Settings, s: System) {
    && s.now.wall >= 0.0 && s.now.mono >= 0.0
    && (if s.entry.Some? then EntryFits(c, s.entry.value, s.log, s.now) else LastMark(s.log).Nothing?)
    && LogFits(c, s.log)
  }

  predicate StageFits(s: System, id: nat, stage: Stage) {
    match stage
    case Queued => true
    case Fetching(_, _) => s.entry.Some? ==> s.entry.value.freshUntil <= s.now.wall
    case Loading(_) => s.entry.None?
    case Saving(m, _, _) => !m.stale && RefreshedBy(s.log, id)
  }

  predicate Fits(c: Settings, s: System) {
    && EntryPart(c, s)
    && SingleFlight(s.gets)
    && forall id | id in s.gets :: StageFits(s, id, s.gets[id])
  }

  // ---------------------------------------------------------------- every step keeps it

  lemma TimePasses(c: Settings, e: EntryValue, log: seq<Event>, now: Clock, d: real)
    requires EntryFits(c, e, log, now) && d >= 0.0
    ensures EntryFits(c, e, log, Clock(now.wall + d, now.mono + d))
  {
  }

  lemma InvalidatedFits(c: Settings, e: EntryValue, log: seq<Event>, now: Clock)
    requires EntryFits(c, e, log, now) && now.wall >= 0.0 && now.mono >= 0.0
    ensures EntryFits(c, Invalidated(e), log + [Forgotten], now)
  {
    LogAppend(log, Forgotten);
  }

  /** Events that say nothing about the entry. */
  predicate Silent(e: Event) {
    e.Asked? || e.Served? || e.SaveEnded?
  }

  lemma SilentFits(c: Settings, e: EntryValue, log: seq<Event>, now: Clock, x: Event)
    requires EntryFits(c, e, log, now) && Silent(x)
    ensures EntryFits(c, e, log + [x], now)
  {
    LogAppend(log, x);
  }

  /** An entry that has just been fetched or revalidated. */
  lemma RefreshedFits(c: Settings, e: EntryValue, log: seq<Event>, now: Clock, id: nat, source: Raw)
    requires e.lastError.None? && e.fetchedAt == now.wall && e.freshUntil == now.wall + c.ttl && e.manifest == Parse(e.raw)
    ensures EntryFits(c, e, log + [Refreshed(id, source, now)], now)
  {
    LogAppend(log, Refreshed(id, source, now));
  }

  /** An entry that has just been kept after a failure. */
  lemma SettledFits(c: Settings, e: EntryValue, error: string, log: seq<Event>, now: Clock)
    requires e.fetchedAt == Origin(log) && e.freshUntil <= now.wall
    requires e.manifest.(stale := true) == Parse(e.raw).(stale := true)
    ensures var r := Settle(c, Some(e), error, now).0;
      if r.Some? then EntryFits(c, r.value, log + [FellBack(now)], now) else LastMark(log + [Dropped]).Nothing?
  {
    LogAppend(log, FellBack(now));
    LogAppend(log, Dropped);
  }

  lemma RefreshedByStays(log: seq<Event>, e: Event, id: nat)
    ensures RefreshedBy(log, id) ==> RefreshedBy(log + [e], id)
    ensures e.Refreshed? && e.id == id ==> RefreshedBy(log + [e], id)
  {
    if RefreshedBy(log, id) {
      var i :| 0 <= i < |log| && log[i].Refreshed? && log[i].id == id;
      assert (log + [e])[i] == log[i];
    }
    assert (log + [e])[|log|] == e;
  }

  lemma LogFitsAppend(c: Settings, log: seq<Event>, e: Event)
    requires LogFits(c, log) && ServeFits(c, log, e) && AskFits(c, log, e)
    ensures LogFits(c, log + [e])
  {
    var more := log + [e];
    forall k | 0 <= k < |more| ensures ServeFits(c, more[..k], more[k]) && AskFits(c, more[..k], more[k]) {
      if k < |log| {
        assert more[..k] == log[..k];
      } else {
        assert more[..k] == log;
      }
    }
  }

  /** A silent event about which the log has nothing to object. */
  lemma SilentStep(c: Settings, s: System, e: Event)
    requires EntryPart(c, s) && Silent(e) && ServeFits(c, s.log, e) && AskFits(c, s.log, e)
    ensures EntryPart(c, Logged(s, e))
  {
    LogFitsAppend(c, s.log, e);
    LogAppend(s.log, e);
    if s.entry.Some? { SilentFits(c, s.entry.value, s.log, s.now, e); }
  }

  /** Another get's stage is not disturbed by what the holder of the lock logs and serves. */
  lemma StagesStay(s: System, t: System, e: Event)
    requires t.log == s.log + [e] && t.now == s.now
    requires forall id | id in s.gets :: StageFits(s, id, s.gets[id])
    requires forall id | id in t.gets :: id in s.gets && t.gets[id] == s.gets[id] && (Working(t.gets[id]) ==> t.entry == s.entry)
    ensures forall id | id in t.gets :: StageFits(t, id, t.gets[id])
  {
    forall id | id in t.gets ensures StageFits(t, id, t.gets[id]) { RefreshedByStays(s.log, e, id); }
  }

  lemma DoneFits(c: Settings, s: System, id: nat, m: Option<Manifest>)
    requires Fits(c, s) && ServeFits(c, s.log, Served(id, m, s.now))
    ensures Fits(c, Done(s, id, m))
  {
    var e := Served(id, m, s.now);
    SilentStep(c, s.(gets := Without(s.gets, id)), e);
    StagesStay(s, Done(s, id, m), e);
  }

  /** A usable entry may be served to anybody. */
  lemma UsableServes(c: Settings, e: EntryValue, log: seq<Event>, now: Clock, id: nat)
    requires EntryFits(c, e, log, now) && Usable(e, now) && now.wall >= 0.0 && now.mono >= 0.0
    ensures ServeFits(c, log, Served(id, Some(e.manifest), now))
  {
  }

  /** Only an entry past its TTL or back-off is asked about. */
  lemma UnusableAsks(c: Settings, s: System)
    requires EntryPart(c, s) && !(s.entry.Some? && Usable(s.entry.value, s.now))
    ensures AskFits(c, s.log, Asked(s.now))
  {
  }

  /** The holder of the lock refreshed the entry. */
  lemma RefreshStep(c: Settings, s: System, id: nat, e: EntryValue, source: Raw)
    requires Fits(c, s) && id in s.gets && Working(s.gets[id])
    requires e.lastError.None? && e.fetchedAt == s.now.wall && e.freshUntil == s.now.wall + c.ttl && e.manifest == Parse(e.raw)
    ensures var t := Logged(s.(entry := Some(e), gets := Without(s.gets, id)), Refreshed(id, source, s.now));
      Fits(c, t) && RefreshedBy(t.log, id)
  {
    var x := Refreshed(id, source, s.now);
    var t := Logged(s.(entry := Some(e), gets := Without(s.gets, id)), x);
    LogFitsAppend(c, s.log, x);
    RefreshedFits(c, e, s.log, s.now, id, source);
    RefreshedByStays(s.log, x, id);
    StagesStay(s, t, x);
  }

  /** The holder of the lock settled a failure. */
  lemma SettleStep(c: Settings, s: System, id: nat, e: Option<EntryValue>, error: string)
    requires Fits(c, s) && id in s.gets && Working(s.gets[id])
    requires e.Some? ==>
      && e.value.fetchedAt == Origin(s.log) && e.value.freshUntil <= s.now.wall
      && e.value.manifest.(stale := true) == Parse(e.value.raw).(stale := true)
    ensures var r := Settle(c, e, error, s.now); var t := Settled(s.(gets := Without(s.gets, id)), r.0);
      Fits(c, t) && r.1.Serve? && ServeFits(c, t.log, Served(id, r.1.served, s.now))
  {
    var r := Settle(c, e, error, s.now);
    var t := Settled(s.(gets := Without(s.gets, id)), r.0);
    var x := if r.0.Some? then FellBack(s.now) else Dropped;
    LogFitsAppend(c, s.log, x);
    LogAppend(s.log, x);
    if e.Some? { SettledFits(c, e.value, error, s.log, s.now); }
    StagesStay(s, t, x);
  }

  /** After the entry is settled or refreshed, the get is served. */
  lemma ThenServed(c: Settings, t: System, id: nat, m: Option<Manifest>)
    requires Fits(c, t) && ServeFits(c, t.log, Served(id, m, t.now))
    ensures Fits(c, Logged(t, Served(id, m, t.now)))
  {
    SilentStep(c, t, Served(id, m, t.now));
    StagesStay(t, Logged(t, Served(id, m, t.now)), Served(id, m, t.now));
  }

  lemma FallbackStep(c: Settings, s: System, id: nat, reply: Reply, error: string, source: Raw)
    requires Fits(c, s) && id in s.gets && s.gets[id].Fetching?
    requires OnReply(c, s.entry, reply, s.now) == Fallback(c, s.entry, error, s.now)
    ensures Fits(c, ReturnStep(c, s, id, reply, source))
  {
    var r := OnReply(c, s.entry, reply, s.now);
    if !r.1.Load? {
      var w := s.(gets := Without(s.gets, id));
      SettleStep(c, s, id, s.entry, error);
      ThenServed(c, Settled(w, r.0), id, r.1.served);
    }
  }

  lemma SaveStep(c: Settings, s: System, id: nat, e: EntryValue, source: Raw, m: Manifest, raw: Raw)
    requires Fits(c, s) && id in s.gets && Working(s.gets[id]) && !m.stale
    requires e.lastError.None? && e.fetchedAt == s.now.wall && e.freshUntil == s.now.wall + c.ttl && e.manifest == Parse(e.raw)
    ensures Fits(c, Logged(s.(entry := Some(e), gets := s.gets[id := Saving(m, raw, s.now.wall)]), Refreshed(id, source, s.now)))
  {
    RefreshStep(c, s, id, e, source);
  }

  lemma ReturnFits(c: Settings, s: System, id: nat, reply: Reply, source: Raw)
    requires Fits(c, s) && id in s.gets && s.gets[id].Fetching?
    ensures Fits(c, ReturnStep(c, s, id, reply, source))
  {
    var r := OnReply(c, s.entry, reply, s.now);
    match reply
    case Failed(error) => FallbackStep(c, s, id, reply, error, source);
    case Answer(notModified, raw) =>
      if !(notModified && s.entry.Some?) && (raw.None? || !raw.value.parsing.Parses?) {
        FallbackStep(c, s, id, reply,
          if raw.None? then "ValueError: empty manifest" else "manifest does not parse", source);
      } else if r.1.Save? {
        SaveStep(c, s, id, r.0.value, source, r.1.manifest, r.1.raw);
      } else {
        RefreshStep(c, s, id, r.0.value, source);
        ThenServed(c, Logged(s.(entry := r.0, gets := Without(s.gets, id)), Refreshed(id, source, s.now)), id, r.1.served);
      }
  }

  lemma RestoreStep(c: Settings, s: System, id: nat, raw: Raw, at: real)
    requires Fits(c, s) && id in s.gets && s.gets[id].Loading?
    ensures var t := Logged(s, Restored(raw, at)); Fits(c, t) && Origin(t.log) == at
  {
    var x := Restored(raw, at);
    LogFitsAppend(c, s.log, x);
    LogAppend(s.log, x);
    StagesStay(s, Logged(s, x), x);
  }

  /** The snapshot is of no use: whatever was loaded, nothing is left to serve. */
  lemma NothingLoadedFits(c: Settings, s: System, id: nat, l: Loaded, error: string)
    requires Fits(c, s) && id in s.gets && s.gets[id].Loading?
    requires OnLoad(c, s.entry, l, error, s.now) == Settle(c, None, error, s.now)
    ensures Fits(c, LoadStep(c, s, id, l, error))
  {
    SettleStep(c, s, id, None, error);
    ThenServed(c, Settled(s.(gets := Without(s.gets, id)), None), id, None);
  }

  lemma RowLoadedFits(c: Settings, s: System, id: nat, raw: Raw, at: real, error: string)
    requires Fits(c, s) && id in s.gets && s.gets[id].Loading? && raw.parsing.Parses?
    ensures Fits(c, LoadStep(c, s, id, Row(raw, at), error))
  {
    var e := EntryValue(raw, Parse(raw), at, 0.0, 0.0, None);
    var r := Settle(c, Some(e), error, s.now);
    if r.0.Some? {
      var u := Logged(s, Restored(raw, at));
      RestoreStep(c, s, id, raw, at);
      SettleStep(c, u, id, Some(e), error);
      ThenServed(c, Settled(u.(gets := Without(u.gets, id)), r.0), id, r.1.served);
    } else {
      NothingLoadedFits(c, s, id, Row(raw, at), error);
    }
  }

  lemma LoadFits(c: Settings, s: System, id: nat, l: Loaded, error: string)
    requires Fits(c, s) && id in s.gets && s.gets[id].Loading?
    ensures Fits(c, LoadStep(c, s, id, l, error))
  {
    if l.Row? && l.raw.parsing.Parses? {
      RowLoadedFits(c, s, id, l.raw, l.at, error);
    } else if !(l.Row? && l.raw.parsing.RaisesOther?) {
      NothingLoadedFits(c, s, id, l, error);
    }
  }

  lemma SaveEndedFits(c: Settings, s: System, snap: Option<Snapshot>, ok: bool)
    requires Fits(c, s)
    ensures Fits(c, Logged(s.(snap := snap), SaveEnded(ok)))
  {
    SilentStep(c, s.(snap := snap), SaveEnded(ok));
    StagesStay(s, Logged(s.(snap := snap), SaveEnded(ok)), SaveEnded(ok));
  }

  /** What was refreshed by this get may be served to it, saved or not. */
  lemma SavedServes(c: Settings, s: System, id: nat, saving: Stage, ok: bool)
    requires saving.Saving? && StageFits(s, id, saving)
    ensures ServeFits(c, s.log + [SaveEnded(ok)], Served(id, Some(saving.manifest), s.now))
  {
    RefreshedByStays(s.log, SaveEnded(ok), id);
  }

  lemma SavedFits(c: Settings, s: System, id: nat, ok: bool, landed: bool)
    requires Fits(c, s) && id in s.gets && s.gets[id].Saving?
    ensures Fits(c, Next(c, s, Saved(id, ok, landed)))
  {
    var snap := SnapAfter(s, s.gets[id], ok || landed);
    SaveEndedFits(c, s, snap, ok);
    SavedServes(c, s, id, s.gets[id], ok);
    DoneFits(c, Logged(s.(snap := snap), SaveEnded(ok)), id, Some(s.gets[id].manifest));
  }

  lemma EnterFits(c: Settings, s: System, id: nat)
    requires Fits(c, s)
    ensures Fits(c, Next(c, s, Enter(id)))
  {
    if id in s.gets && s.gets[id].Queued? && !Locked(s) {
      if s.entry.Some? && Usable(s.entry.value, s.now) {
        UsableServes(c, s.entry.value, s.log, s.now, id);
        DoneFits(c, s, id, Some(s.entry.value.manifest));
      } else {
        UnusableAsks(c, s);
        SilentStep(c, s, Asked(s.now));
        StagesStay(s, Logged(s, Asked(s.now)), Asked(s.now));
      }
    }
  }

  lemma GetFits(c: Settings, s: System, id: nat)
    requires Fits(c, s)
    ensures Fits(c, Next(c, s, Get(id)))
  {
    if id !in s.used && s.entry.Some? && Usable(s.entry.value, s.now) {
      UsableServes(c, s.entry.value, s.log, s.now, id);
      DoneFits(c, s.(used := s.used + {id}), id, Some(s.entry.value.manifest));
    }
  }

  lemma InvalidateFits(c: Settings, s: System)
    requires Fits(c, s) && s.entry.Some?
    ensures Fits(c, Next(c, s, Invalidate))
  {
    var t := Next(c, s, Invalidate);
    InvalidatedFits(c, s.entry.value, s.log, s.now);
    LogFitsAppend(c, s.log, Forgotten);
    forall id | id in t.gets ensures StageFits(t, id, t.gets[id]) { RefreshedByStays(s.log, Forgotten, id); }
  }

  lemma CancelFits(c: Settings, s: System, id: nat, landed: bool)
    requires Fits(c, s) && id in s.gets
    ensures Fits(c, Next(c, s, Cancel(id, landed)))
  {
    if s.gets[id].Saving? {
      SilentStep(c, s.(snap := SnapAfter(s, s.gets[id], landed), gets := Without(s.gets, id)), SaveEnded(false));
      StagesStay(s, Next(c, s, Cancel(id, landed)), SaveEnded(false));
    }
  }

  lemma FitsStep(c: Settings, s: System, step: Step)
    requires Fits(c, s)
    ensures Fits(c, Next(c, s, step))
  {
    match step
    case Tick(d) => if d >= 0.0 && s.entry.Some? { TimePasses(c, s.entry.value, s.log, s.now, d); }
    case Publish(_) =>
    case Invalidate => if s.entry.Some? { InvalidateFits(c, s); }
    case Get(id) => GetFits(c, s, id);
    case Enter(id) => EnterFits(c, s, id);
    case Respond(_, _) =>
    case Return(id) =>
      if id in s.gets && s.gets[id].Fetching? && s.gets[id].answer.Some? {
        ReturnFits(c, s, id, s.gets[id].answer.value.0, s.gets[id].answer.value.1);
      }
    case Saved(id, ok, landed) => if id in s.gets && s.gets[id].Saving? { SavedFits(c, s, id, ok, landed); }
    case LoadedBack(id, l) => if id in s.gets && s.gets[id].Loading? { LoadFits(c, s, id, l, s.gets[id].error); }
    case Cancel(id, landed) => if id in s.gets { CancelFits(c, s, id, landed); }
  }

  /** A fresh worker: nothing cached, nobody waiting; the snapshot store may hold anything. */
  predicate Started(s: System) {
    s.now.wall >= 0.0 && s.now.mono >= 0.0 && s == Init(s.published, s.now, s.snap)
  }

  lemma {:induction false} RunFits(c: Settings, s: System, steps: seq<Step>)
    requires Started(s)
    ensures Fits(c, RunFrom(c, s, steps))
  {
    if steps != [] {
      RunFits(c, s, steps[..|steps| - 1]);
      FitsStep(c, RunFrom(c, s, steps[..|steps| - 1]), steps[|steps| - 1]);
    }
  }

  /** Bounded staleness, in every run: a manifest served unflagged was fetched or revalidated less
      than the TTL ago or by this very get; one served flagged is younger than the staleness limit
      plus one back-off. */
  lemma StalenessBounded(c: Settings, s: System, steps: seq<Step>, k: nat)
    requires Started(s)
    requires var log := RunFrom(c, s, steps).log; k < |log| && log[k].Served? && log[k].manifest.Some?
    ensures var log := RunFrom(c, s, steps).log; var e := log[k]; var age := e.now.wall - Origin(log[..k]);
      if e.manifest.value.stale then age <= c.staleMax || age < c.staleMax + c.retry
      else age < c.ttl || RefreshedBy(log[..k], e.id)
  {
    RunFits(c, s, steps);
    assert ServeFits(c, RunFrom(c, s, steps).log[..k], RunFrom(c, s, steps).log[k]);
  }

  /** In every run an entry is flagged stale exactly when its last error is set, and it carries the
      tools of its raw manifest. */
  lemma FlagIsLastError(c: Settings, s: System, steps: seq<Step>)
    requires Started(s)
    ensures var e := RunFrom(c, s, steps).entry;
      e.Some? ==> e.value.manifest == Parse(e.value.raw).(stale := e.value.lastError.Some?)
  {
    RunFits(c, s, steps);
  }

  /** Back-off, in every run: after a success no fetch starts within the TTL, after a failure that
      left an entry none within the back-off, unless an invalidation comes between. */
  lemma FetchesAreSpaced(c: Settings, s: System, steps: seq<Step>, k: nat)
    requires Started(s)
    requires k < |RunFrom(c, s, steps).log| && RunFrom(c, s, steps).log[k].Asked?
    ensures var log := RunFrom(c, s, steps).log;
      match LastMark(log[..k])
      case Success(at) => log[k].now.wall >= at.wall + c.ttl
      case Failure(at) => log[k].now.mono >= at.mono + c.retry
      case Nothing => true
  {
    RunFits(c, s, steps);
    assert AskFits(c, RunFrom(c, s, steps).log[..k], RunFrom(c, s, steps).log[k]);
  }

  /** In every run at most one get is past the lock, so at most one fetch is in flight. */
  lemma {:induction false} OneFetchInFlight(c: Settings, s: System, steps: seq<Step>, i: nat, j: nat)
    requires Started(s)
    requires var g := RunFrom(c, s, steps).gets; i in g && j in g && g[i].Fetching? && g[j].Fetching?
    ensures i == j
  {
    RunFits(c, s, steps);
  }

  /** The entry may be served as it is: a success within the TTL or a failure within the back-off is
      the last thing that happened to it. */
  predicate Rests(c: Settings, log: seq<Event>, now: Clock) {
    match LastMark(log)
    case Success(at) => now.wall < at.wall + c.ttl
    case Failure(at) => now.mono < at.mono + c.retry
    case Nothing => false
  }

  /** When a get fetches, in every run with the lock free: exactly when the last thing that happened
      is neither a success within the TTL nor a failure within the back-off that left an entry. So
      with no entry left, and after an invalidation, every get does. */
  lemma FetchesIff(c: Settings, s: System, steps: seq<Step>, id: nat)
    requires Started(s)
    requires var t := RunFrom(c, s, steps); !Locked(t) && id !in t.used && id !in t.gets
    ensures var t := RunFrom(c, s, steps); var u := Next(c, Next(c, t, Get(id)), Enter(id));
      && (t.entry.Some? && Usable(t.entry.value, t.now) <==> Rests(c, t.log, t.now))
      && (u.log == t.log + [Asked(t.now)] <==> !Rests(c, t.log, t.now))
      && (Rests(c, t.log, t.now) ==> t.entry.Some? && u.log == t.log + [Served(id, Some(t.entry.value.manifest), t.now)])
  {
    RunFits(c, s, steps);
    var t := RunFrom(c, s, steps);
    if Rests(c, t.log, t.now) {
      RestingGetIsServed(c, t, id);
    } else {
      QueuedGetAsks(c, t, id);
    }
  }

  lemma RestingGetIsServed(c: Settings, t: System, id: nat)
    requires t.entry.Some? && Usable(t.entry.value, t.now) && id !in t.used && id !in t.gets
    ensures var u := Next(c, Next(c, t, Get(id)), Enter(id));
      u.log == t.log + [Served(id, Some(t.entry.value.manifest), t.now)] != t.log + [Asked(t.now)]
  {
    var u := Next(c, Next(c, t, Get(id)), Enter(id));
    assert u.log[|t.log|].Served? && (t.log + [Asked(t.now)])[|t.log|].Asked?;
  }

  lemma QueuedGetAsks(c: Settings, t: System, id: nat)
    requires !(t.entry.Some? && Usable(t.entry.value, t.now)) && !Locked(t) && id !in t.used && id !in t.gets
    ensures Next(c, Next(c, t, Get(id)), Enter(id)).log == t.log + [Asked(t.now)]
  {
    var q := Next(c, t, Get(id));
    forall i | i in q.gets ensures q.gets[i].Queued? {
      if i != id { assert i in t.gets; }
    }
  }

  // ---------------------------------------------------------------- a burst behind one fetch

  lemma UsableEarlier(e: EntryValue, now: Clock, later: Clock)
    requires now.wall <= later.wall && now.mono <= later.mono && Usable(e, later)
    ensures Usable(e, now)
  {
  }

  lemma {:induction false} ClocksAdvance(c: Settings, s: System, steps: seq<Step>)
    ensures var t := RunFrom(c, s, steps); s.now.wall <= t.now.wall && s.now.mono <= t.now.mono
  {
    if steps != [] { ClocksAdvance(c, s, steps[..|steps| - 1]); }
  }

  /** While the entry stays usable and nobody invalidates it, no number of gets, queued before or
      arriving now, starts a fetch: the entry is served as it is. */
  lemma {:induction false} BurstIsServed(c: Settings, s: System, steps: seq<Step>)
    requires s.entry.Some? && !Locked(s) && Invalidate !in steps
    requires Usable(s.entry.value, RunFrom(c, s, steps).now)
    ensures var t := RunFrom(c, s, steps);
      && t.entry == s.entry && !Locked(t)
      && s.log <= t.log
      && forall k | |s.log| <= k < |t.log| :: t.log[k].Served? && t.log[k].manifest == Some(s.entry.value.manifest)
  {
    if steps != [] {
      var prefix, step := steps[..|steps| - 1], steps[|steps| - 1];
      var m := RunFrom(c, s, prefix);
      var t := Next(c, m, step);
      assert m.now.wall <= t.now.wall && m.now.mono <= t.now.mono;
      UsableEarlier(s.entry.value, m.now, t.now);
      BurstIsServed(c, s, prefix);
      assert step in steps;
      BurstStep(c, m, step);
    }
  }

  lemma BurstStep(c: Settings, m: System, step: Step)
    requires m.entry.Some? && !Locked(m) && step != Invalidate && Usable(m.entry.value, m.now)
    ensures var t := Next(c, m, step);
      && t.entry == m.entry && !Locked(t)
      && (t.log == m.log || exists id :: t.log == m.log + [Served(id, Some(m.entry.value.manifest), m.now)])
  {
    var t := Next(c, m, step);
    forall id | id in m.gets ensures m.gets[id].Queued? { }
    forall id | id in t.gets ensures t.gets[id].Queued? { }
  }
}
