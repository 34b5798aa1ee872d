/** The cached manifest against an honest CRM: one that answers 304 (section 15.4.5 of RFC 9110)
    exactly when the If-None-Match of the request (section 13.1.2 of RFC 9110) is its current hash,
    and whose hashes identify what they name. */
module ManifestCoherence {
  import opened Wrappers
  import opened ManifestCache
  import opened ManifestRuns

  /** Everything the CRM ever publishes, by hash. */
  type Catalog = map<string, Raw>

  predicate Known(k: Catalog, raw: Raw) {
    raw.hash in k && k[raw.hash] == raw
  }

  function ServerReply(published: Raw, etag: Option<string>): Reply {
    if etag == Some(published.hash) then Answer(true, None) else Answer(false, Some(published))
  }

  /** The CRM publishes from the catalog and answers as a server should, or the fetch fails; the
      snapshot store returns what it holds, or fails. */
  predicate Honest(k: Catalog, s: System, step: Step) {
    match step
    case Publish(raw) => Known(k, raw)
    case Respond(id, reply) =>
      id in s.gets && s.gets[id].Fetching? ==> reply.Failed? || reply == ServerReply(s.published, s.gets[id].etag)
    case LoadedBack(_, l) =>
      l.Row? ==> s.snap.Some? && l == Row(s.snap.value.raw, s.snap.value.at)
    case _ => true
  }

  predicate HonestRun(c: Settings, k: Catalog, s: System, steps: seq<Step>) {
    steps == [] ||
      (HonestRun(c, k, s, steps[..|steps| - 1]) && Honest(k, RunFrom(c, s, steps[..|steps| - 1]), steps[|steps| - 1]))
  }

  /** What the entry was last taken from: what was published when the CRM answered its last
      successful refresh, or the snapshot it was restored from. */
  function Source(log: seq<Event>): Option<Raw> {
    if log == [] then None
    else
      match log[|log| - 1]
      case Refreshed(_, source, _) => Some(source)
      case Restored(raw, _) => Some(raw)
      case _ => Source(log[..|log| - 1])
  }

  /** Whether the last attempt to store a snapshot succeeded; restoring one counts as success. */
  function Stored(log: seq<Event>): bool {
    if log == [] then true
    else
      match log[|log| - 1]
      case SaveEnded(ok) => ok
      case Restored(_, _) => true
      case _ => Stored(log[..|log| - 1])
  }

  lemma SourceAppend(log: seq<Event>, e: Event)
    ensures Source(log + [e]) == match e case Refreshed(_, source, _) => Some(source) case Restored(raw, _) => Some(raw) case _ => Source(log)
    ensures Stored(log + [e]) == match e case SaveEnded(ok) => ok case Restored(_, _) => true case _ => Stored(log)
  {
    assert (log + [e])[..|log|] == log;
  }

  /** A fetch in flight: what it asked with, and what will come back. */
  predicate FetchFits(k: Catalog, s: System, stage: Stage) {
    stage.Fetching? ==>
      && (stage.etag.Some? ==> s.entry.Some? && stage.etag.value == s.entry.value.raw.hash)
      && (stage.answer.Some? ==>
          var (reply, source) := stage.answer.value;
          Known(k, source) && (reply.Failed? || reply == ServerReply(source, stage.etag)))
  }

  predicate SaveFits(s: System, stage: Stage) {
    stage.Saving? ==> s.entry.Some? && s.entry.value.raw == stage.raw
  }

  predicate AnySaving(gets: map<nat, Stage>) {
    exists id | id in gets :: gets[id].Saving?
  }

  /** The entry is what its last source says; the published and stored manifests are known; unless
      a save is under way or the last one failed, the snapshot holds the entry's raw manifest. */
  predicate Coherent(c: Settings, k: Catalog, s: System) {
    && Known(k, s.published)
    && (s.snap.Some? ==> Known(k, s.snap.value.raw))
    && (s.entry.Some? ==> Known(k, s.entry.value.raw) && Source(s.log) == Some(s.entry.value.raw))
    && (s.entry.Some? ==> s.entry.value.manifest.hash == s.entry.value.raw.hash)
    && (forall id | id in s.gets :: FetchFits(k, s, s.gets[id]) && SaveFits(s, s.gets[id]))
    && (c.snapshots && s.entry.Some? && Stored(s.log) && !AnySaving(s.gets) ==>
        s.snap.Some? && s.snap.value.raw == s.entry.value.raw)
    && SingleFlight(s.gets)
  }

  /** A 200 or a 304 from an honest CRM leaves the entry at what was published. */
  lemma ReplyIsSource(c: Settings, k: Catalog, e: Option<EntryValue>, source: Raw, etag: Option<string>, now: Clock)
    requires Known(k, source) && (e.Some? ==> Known(k, e.value.raw) && e.value.manifest.hash == e.value.raw.hash)
    requires etag.Some? ==> e.Some? && etag.value == e.value.raw.hash
    ensures var r := OnReply(c, e, ServerReply(source, etag), now);
      && (r.0.Some? && r.0.value.lastError.None? ==> r.0.value.raw == source && r.0.value.manifest.hash == source.hash)
      && (r.0.Some? && r.0.value.lastError.Some? ==> e.Some? && r.0.value.raw == e.value.raw)
      && (r.1.Save? ==> r.1.raw == source && r.0.Some? && r.0.value.lastError.None?)
      && (r.1.Serve? && r.0.Some? && r.0.value.lastError.None? && c.snapshots ==> e.Some? && e.value.raw == source)
  {
  }

  lemma FailureKeepsRaw(c: Settings, e: Option<EntryValue>, error: string, now: Clock)
    ensures var r := Fallback(c, e, error, now);
      r.0.Some? ==>
        && e.Some? && r.0.value.raw == e.value.raw && r.0.value.manifest.hash == e.value.manifest.hash
        && r.0.value.lastError.Some?
  {
  }

  /** The fetch is over and nobody else is past the lock. */
  lemma AloneAtLock(s: System, id: nat)
    requires SingleFlight(s.gets) && id in s.gets && Working(s.gets[id])
    ensures forall i | i in s.gets && i != id :: s.gets[i].Queued?
  {
  }

  /** What a returning fetch leaves in the entry. */
  lemma ReturnEntry(c: Settings, k: Catalog, s: System, id: nat, reply: Reply, source: Raw)
    requires Coherent(c, k, s) && id in s.gets && s.gets[id].Fetching? && s.gets[id].answer == Some((reply, source))
    ensures var r := OnReply(c, s.entry, reply, s.now);
      && (r.0.Some? ==> Known(k, r.0.value.raw) && r.0.value.manifest.hash == r.0.value.raw.hash)
      && (r.0.Some? && r.0.value.lastError.None? ==> r.0.value.raw == source)
      && (r.0.Some? && r.0.value.lastError.Some? ==> s.entry.Some? && r.0.value.raw == s.entry.value.raw)
      && (r.1.Save? ==> r.1.raw == source && r.0.Some? && r.0.value.lastError.None?)
      && (r.1.Serve? && r.0.Some? && c.snapshots ==> s.entry.Some? && s.entry.value.raw == r.0.value.raw)
  {
    assert FetchFits(k, s, s.gets[id]);
    if reply.Failed? {
      FailureKeepsRaw(c, s.entry, reply.error, s.now);
    } else {
      ReplyIsSource(c, k, s.entry, source, s.gets[id].etag, s.now);
    }
  }

  /** The get past the lock changed the entry, logged `x`, and served. */
  lemma ServedCoherent(c: Settings, k: Catalog, s: System, t: System, id: nat, x: Event, m: Option<Manifest>)
    requires Coherent(c, k, s) && id in s.gets && Working(s.gets[id]) && !s.gets[id].Saving?
    requires t == s.(entry := t.entry, gets := Without(s.gets, id), log := s.log + [x] + [Served(id, m, s.now)])
    requires t.entry.Some? ==> Known(k, t.entry.value.raw) && t.entry.value.manifest.hash == t.entry.value.raw.hash
    requires t.entry.Some? ==> Source(s.log + [x]) == Some(t.entry.value.raw)
    requires t.entry.Some? && c.snapshots && Stored(s.log + [x]) ==> s.snap.Some? && s.snap.value.raw == t.entry.value.raw
    ensures Coherent(c, k, t)
  {
    AloneAtLock(s, id);
    SourceAppend(s.log + [x], Served(id, m, s.now));
  }

  /** The get past the lock took over a new manifest and saves it. */
  lemma SavingCoherent(c: Settings, k: Catalog, s: System, t: System, id: nat, stage: Stage, source: Raw)
    requires Coherent(c, k, s) && id in s.gets && Working(s.gets[id]) && stage.Saving? && stage.raw == source
    requires t == Logged(s.(entry := t.entry, gets := s.gets[id := stage]), Refreshed(id, source, s.now))
    requires t.entry.Some? && t.entry.value.raw == source && t.entry.value.manifest.hash == source.hash && Known(k, source)
    ensures Coherent(c, k, t)
  {
    AloneAtLock(s, id);
    SourceAppend(s.log, Refreshed(id, source, s.now));
    assert t.gets[id].Saving?;
  }

  lemma ReturnCoherent(c: Settings, k: Catalog, s: System, id: nat, reply: Reply, source: Raw)
    requires Coherent(c, k, s) && id in s.gets && s.gets[id].Fetching? && s.gets[id].answer == Some((reply, source))
    ensures Coherent(c, k, ReturnStep(c, s, id, reply, source))
  {
    var r := OnReply(c, s.entry, reply, s.now);
    var t := ReturnStep(c, s, id, reply, source);
    ReturnEntry(c, k, s, id, reply, source);
    if r.1.Serve? {
      var x := if r.0.Some? && r.0.value.lastError.None? then Refreshed(id, source, s.now)
        else if r.0.Some? then FellBack(s.now) else Dropped;
      SourceAppend(s.log, x);
      ServedCoherent(c, k, s, t, id, x, r.1.served);
    } else if r.1.Save? {
      SavingCoherent(c, k, s, t, id, t.gets[id], source);
    } else {
      AloneAtLock(s, id);
    }
  }

  lemma LoadCoherent(c: Settings, k: Catalog, s: System, id: nat, l: Loaded, error: string)
    requires Coherent(c, k, s) && id in s.gets && s.gets[id].Loading?
    requires l.Row? ==> s.snap.Some? && l == Row(s.snap.value.raw, s.snap.value.at)
    requires s.entry.None?
    ensures Coherent(c, k, LoadStep(c, s, id, l, error))
  {
    var r := OnLoad(c, s.entry, l, error, s.now);
    var t := LoadStep(c, s, id, l, error);
    AloneAtLock(s, id);
    if r.1.Serve? {
      var x := if r.0.Some? then FellBack(s.now) else Dropped;
      var u := if r.0.Some? then Logged(s, Restored(l.raw, l.at)) else s;
      if r.0.Some? { SourceAppend(s.log, Restored(l.raw, l.at)); }
      SourceAppend(u.log, x);
      ServedCoherent(c, k, u, t, id, x, r.1.served);
    }
  }

  lemma SavedCoherent(c: Settings, k: Catalog, s: System, id: nat, ok: bool, landed: bool)
    requires Coherent(c, k, s) && id in s.gets && s.gets[id].Saving?
    ensures Coherent(c, k, Next(c, s, Saved(id, ok, landed)))
  {
    AloneAtLock(s, id);
    var m := Some(s.gets[id].manifest);
    SourceAppend(s.log, SaveEnded(ok));
    SourceAppend(s.log + [SaveEnded(ok)], Served(id, m, s.now));
  }

  lemma SavingStays(s: System, t: System)
    requires forall i | i in s.gets && s.gets[i].Saving? :: i in t.gets && t.gets[i] == s.gets[i]
    ensures AnySaving(s.gets) ==> AnySaving(t.gets)
  {
    if AnySaving(s.gets) {
      var i :| i in s.gets && s.gets[i].Saving?;
      assert t.gets[i].Saving?;
    }
  }

  lemma CancelCoherent(c: Settings, k: Catalog, s: System, id: nat, landed: bool)
    requires Coherent(c, k, s) && id in s.gets
    ensures Coherent(c, k, Next(c, s, Cancel(id, landed)))
  {
    SourceAppend(s.log, SaveEnded(false));
    SingleFlightStep(c, s, Cancel(id, landed));
    if !s.gets[id].Saving? { SavingStays(s, Next(c, s, Cancel(id, landed))); }
  }

  /** A get comes past the lock and asks with the entry's hash. */
  lemma AskCoherent(c: Settings, k: Catalog, s: System, id: nat)
    requires Coherent(c, k, s) && id in s.gets && s.gets[id].Queued? && !Locked(s)
    ensures Coherent(c, k, Logged(s.(gets := s.gets[id := Fetching(ETag(s.entry), None)]), Asked(s.now)))
  {
    var t := Logged(s.(gets := s.gets[id := Fetching(ETag(s.entry), None)]), Asked(s.now));
    SavingStays(s, t);
    SourceAppend(s.log, Asked(s.now));
    forall i | i in t.gets ensures FetchFits(k, t, t.gets[i]) && SaveFits(t, t.gets[i]) {
      assert FetchFits(k, s, s.gets[i]) && SaveFits(s, s.gets[i]);
    }
  }

  /** A get is served the entry as it is. */
  lemma DoneCoherent(c: Settings, k: Catalog, s: System, id: nat, m: Option<Manifest>)
    requires Coherent(c, k, s) && (id in s.gets ==> s.gets[id].Queued?)
    ensures Coherent(c, k, Done(s, id, m))
  {
    var t := Done(s, id, m);
    SavingStays(s, t);
    SourceAppend(s.log, Served(id, m, s.now));
    forall i | i in t.gets ensures FetchFits(k, t, t.gets[i]) && SaveFits(t, t.gets[i]) {
      assert FetchFits(k, s, s.gets[i]) && SaveFits(s, s.gets[i]);
    }
  }

  lemma GetCoherent(c: Settings, k: Catalog, s: System, id: nat)
    requires Coherent(c, k, s)
    ensures Coherent(c, k, Next(c, s, Get(id)))
  {
    if id !in s.used && id !in s.gets {
      if s.entry.Some? && Usable(s.entry.value, s.now) {
        DoneCoherent(c, k, s.(used := s.used + {id}), id, Some(s.entry.value.manifest));
      } else {
        SavingStays(s, Next(c, s, Get(id)));
      }
    }
  }

  lemma EnterCoherent(c: Settings, k: Catalog, s: System, id: nat)
    requires Coherent(c, k, s)
    ensures Coherent(c, k, Next(c, s, Enter(id)))
  {
    if id in s.gets && s.gets[id].Queued? && !Locked(s) {
      if s.entry.Some? && Usable(s.entry.value, s.now) {
        DoneCoherent(c, k, s, id, Some(s.entry.value.manifest));
      } else {
        AskCoherent(c, k, s, id);
      }
    }
  }

  lemma InvalidateCoherent(c: Settings, k: Catalog, s: System)
    requires Coherent(c, k, s)
    ensures Coherent(c, k, Next(c, s, Invalidate))
  {
    SourceAppend(s.log, Forgotten);
  }

  lemma RespondCoherent(c: Settings, k: Catalog, s: System, step: Step)
    requires Coherent(c, k, s) && step.Respond? && Honest(k, s, step)
    ensures Coherent(c, k, Next(c, s, step))
  {
    SingleFlightStep(c, s, step);
    var t := Next(c, s, step);
    SavingStays(s, t);
    forall i | i in t.gets ensures FetchFits(k, t, t.gets[i]) && SaveFits(t, t.gets[i]) {
      assert FetchFits(k, s, s.gets[i]) && SaveFits(s, s.gets[i]);
    }
  }

  lemma CoherentStep(c: Settings, k: Catalog, s: System, step: Step)
    requires Coherent(c, k, s) && Fits(c, s) && Honest(k, s, step)
    ensures Coherent(c, k, Next(c, s, step))
  {
    match step
    case Tick(_) =>
    case Publish(_) =>
    case Invalidate => InvalidateCoherent(c, k, s);
    case Get(id) => GetCoherent(c, k, s, id);
    case Enter(id) => EnterCoherent(c, k, s, id);
    case Respond(_, _) => RespondCoherent(c, k, s, step);
    case Return(id) =>
      if id in s.gets && s.gets[id].Fetching? && s.gets[id].answer.Some? {
        ReturnCoherent(c, k, s, id, s.gets[id].answer.value.0, s.gets[id].answer.value.1);
      }
    case Saved(id, ok, landed) => if id in s.gets && s.gets[id].Saving? { SavedCoherent(c, k, s, id, ok, landed); }
    case LoadedBack(id, l) => if id in s.gets && s.gets[id].Loading? { LoadCoherent(c, k, s, id, l, s.gets[id].error); }
    case Cancel(id, landed) => if id in s.gets { CancelCoherent(c, k, s, id, landed); }
  }

  /** Cache coherence, in every honest run: the entry is what the CRM published when it answered the
      last successful refresh, be it a 200 or a 304, or the snapshot it was restored from. When no
      refresh is in progress and the last save did not fail, the snapshot holds the same. */
  lemma {:induction false} EntryIsLastPublished(c: Settings, k: Catalog, s: System, steps: seq<Step>)
    requires Started(s) && Known(k, s.published) && (s.snap.Some? ==> Known(k, s.snap.value.raw))
    requires HonestRun(c, k, s, steps)
    ensures var t := RunFrom(c, s, steps);
      && Coherent(c, k, t)
      && (t.entry.Some? ==> Source(t.log) == Some(t.entry.value.raw))
      && (c.snapshots && t.entry.Some? && !Locked(t) && Stored(t.log) ==> t.snap.Some? && t.snap.value.raw == t.entry.value.raw)
  {
    if steps != [] {
      EntryIsLastPublished(c, k, s, steps[..|steps| - 1]);
      RunFits(c, s, steps[..|steps| - 1]);
      CoherentStep(c, k, RunFrom(c, s, steps[..|steps| - 1]), steps[|steps| - 1]);
    }
  }
}
