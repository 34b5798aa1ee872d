/** What each answer leads to, in every run of the manifest cache: a failed fetch turns to the
    entry or, with none cached, to the snapshot store, and a stored row that is young enough is
    served; a good answer becomes the entry. */
module ManifestAnswers {
  import opened Wrappers
  import opened ManifestCache
  import opened ManifestRuns

  /** The get is at its fetch, which has come back with this. */
  predicate Answered(s: System, id: nat, reply: Reply, source: Raw) {
    id in s.gets && s.gets[id].Fetching? && s.gets[id].answer == Some((reply, source))
  }

  /** Nothing is left, and that is what the get is given. */
  predicate GivenNothing(s: System, t: System, id: nat) {
    && t.entry == None && t.gets == Without(s.gets, id)
    && t.log == s.log + [Dropped, Served(id, None, s.now)]
  }

  /** A manifest of this age is kept: the entry holds it, flagged, until the back-off is over, and
      that is what the get is given. */
  predicate GivenOld(c: Settings, s: System, t: System, id: nat, raw: Raw, at: real, until: real, before: seq<Event>) {
    var copy := Manifest(raw.hash, raw.tools, true);
    && t.entry.Some? && t.entry.value.lastError.Some?
    && t.entry == Some(EntryValue(raw, copy, at, until, s.now.mono + c.retry, t.entry.value.lastError))
    && t.gets == Without(s.gets, id)
    && t.log == s.log + before + [FellBack(s.now), Served(id, Some(copy), s.now)]
  }

  /** What a fetch asks with, in every run: the hash of the entry, if there is one and it has one. */
  lemma AsksWithTheHash(c: Settings, s: System, steps: seq<Step>, t: System, id: nat)
    requires Started(s) && t == RunFrom(c, s, steps)
    requires id in t.gets && t.gets[id].Queued? && Next(c, t, Enter(id)).log == t.log + [Asked(t.now)]
    ensures var held := if t.entry.Some? then t.entry.value.raw.hash else "";
      Next(c, t, Enter(id)).gets == t.gets[id := Fetching(if held == "" then None else Some(held), None)]
  {
    FlagIsLastError(c, s, steps);
    assert (t.log + [Asked(t.now)])[|t.log|].Asked?;
  }

  /** With nothing cached, an answer without a manifest turns to the snapshot store if there is
      one; the get waits for it and is given nothing yet. */
  lemma FailureAsksTheStore(c: Settings, t: System, id: nat, reply: Reply, source: Raw)
    requires t.entry.None? && Answered(t, id, reply, source) && NoManifest(reply)
    ensures var u := Next(c, t, Return(id));
      if c.snapshots then id in u.gets && u.gets[id].Loading? && u == t.(gets := t.gets[id := u.gets[id]])
      else GivenNothing(t, u, id)
  {
  }

  /** The row the store then comes back with, in every run: one that parses and is not older than
      the limit is what the get is given, flagged stale, and it becomes the entry. It is given
      nothing exactly when the load fails, there is no row, or the row is refused or too old. A row
      that breaks the parser in another way ends the get with the exception. */
  lemma StoredRowIsServed(c: Settings, s: System, steps: seq<Step>, t: System, id: nat, l: Loaded)
    requires Started(s) && t == RunFrom(c, s, steps)
    requires id in t.gets && t.gets[id].Loading?
    ensures var u := Next(c, t, LoadedBack(id, l));
      match l
      case LoadFailed => GivenNothing(t, u, id)
      case NoRow => GivenNothing(t, u, id)
      case Row(raw, at) =>
        match raw.parsing
        case RaisesOther => u == t.(gets := Without(t.gets, id)) && u.entry.None?
        case RaisesValueError => GivenNothing(t, u, id)
        case Parses =>
          if t.now.wall - at <= c.staleMax then GivenOld(c, t, u, id, raw, at, 0.0, [Restored(raw, at)])
          else GivenNothing(t, u, id)
  {
    RunFits(c, s, steps);
    assert StageFits(t, id, t.gets[id]);
  }

  /** Nothing but the store's answer and a cancellation ends the wait for the store. */
  predicate Waits(steps: seq<Step>, id: nat) {
    forall step | step in steps :: !((step.LoadedBack? || step.Cancel?) && step.id == id)
  }

  lemma LoadingStays(c: Settings, s: System, step: Step, id: nat)
    requires id in s.gets && s.gets[id].Loading? && Waits([step], id)
    ensures var t := Next(c, s, step); id in t.gets && t.gets[id] == s.gets[id]
  {
    assert step in [step];
  }

  lemma {:induction false} StillLoading(c: Settings, s: System, steps: seq<Step>, id: nat)
    requires id in s.gets && s.gets[id].Loading? && Waits(steps, id)
    ensures var t := RunFrom(c, s, steps); id in t.gets && t.gets[id] == s.gets[id]
  {
    if steps != [] {
      assert steps[|steps| - 1] in steps;
      StillLoading(c, s, steps[..|steps| - 1], id);
      LoadingStays(c, RunFrom(c, s, steps[..|steps| - 1]), steps[|steps| - 1], id);
    }
  }

  /** A worker that has nothing cached, in every run: its fetch brings no manifest, and whatever
      else happens until the store answers with a row that parses and is young enough, the get is
      given that row's manifest, flagged, and not nothing. */
  lemma SnapshotCarriesOver(c: Settings, s: System, steps: seq<Step>, id: nat, reply: Reply, source: Raw,
                            waiting: seq<Step>, raw: Raw, at: real)
    requires Started(s) && c.snapshots && Waits(waiting, id) && raw.parsing.Parses?
    requires var t := RunFrom(c, s, steps); t.entry.None? && Answered(t, id, reply, source) && NoManifest(reply)
    requires RunFrom(c, s, steps + [Return(id)] + waiting).now.wall - at <= c.staleMax
    ensures var v := RunFrom(c, s, steps + [Return(id)] + waiting);
      GivenOld(c, v, Next(c, v, LoadedBack(id, Row(raw, at))), id, raw, at, 0.0, [Restored(raw, at)])
  {
    var t := RunFrom(c, s, steps);
    FailureAsksTheStore(c, t, id, reply, source);
    assert (steps + [Return(id)])[..|steps|] == steps;
    assert RunFrom(c, s, steps + [Return(id)]) == Next(c, t, Return(id));
    StillLoading(c, Next(c, t, Return(id)), waiting, id);
    RunAppend(c, s, steps + [Return(id)], waiting);
    StoredRowIsServed(c, s, steps + [Return(id)] + waiting, RunFrom(c, s, steps + [Return(id)] + waiting), id, Row(raw, at));
  }

  /** With an entry, in every run, an answer without a manifest leaves it in place, flagged, as long
      as it is not older than the limit; the store is not asked. A "not modified" is no such answer. */
  lemma FailureKeepsTheEntry(c: Settings, s: System, steps: seq<Step>, t: System, id: nat, reply: Reply, source: Raw)
    requires Started(s) && t == RunFrom(c, s, steps)
    requires t.entry.Some? && Answered(t, id, reply, source) && NoManifest(reply)
    requires !(reply.Answer? && reply.notModified)
    ensures var e := t.entry.value; var u := Next(c, t, Return(id));
      if t.now.wall - e.fetchedAt <= c.staleMax then GivenOld(c, t, u, id, e.raw, e.fetchedAt, e.freshUntil, [])
      else GivenNothing(t, u, id)
  {
    FlagIsLastError(c, s, steps);
    assert t.log + [] == t.log;
  }

  /** The entry is as good as new. */
  predicate Renewed(c: Settings, s: System, raw: Raw, t: System) {
    t.entry == Some(EntryValue(raw, Manifest(raw.hash, raw.tools, false), s.now.wall, s.now.wall + c.ttl,
                               if t.entry.Some? then t.entry.value.retryAt else 0.0, None))
  }

  /** "Not modified", in every run: the entry is renewed and the get is given its manifest. */
  lemma NotModifiedRenews(c: Settings, s: System, steps: seq<Step>, t: System, id: nat, raw: Option<Raw>, source: Raw)
    requires Started(s) && t == RunFrom(c, s, steps)
    requires t.entry.Some? && Answered(t, id, Answer(true, raw), source)
    ensures var e := t.entry.value; var u := Next(c, t, Return(id));
      && Renewed(c, t, e.raw, u) && u.gets == Without(t.gets, id)
      && u.log == t.log + [Refreshed(id, source, t.now), Served(id, Some(Manifest(e.raw.hash, e.raw.tools, false)), t.now)]
  {
    FlagIsLastError(c, s, steps);
  }

  /** A manifest that parses, in every run: it becomes the entry and is what the get is given, at
      once or, when it is to be saved, after the save; it is saved exactly when there is a store
      and its hash is not the one the entry had. */
  lemma ManifestIsTaken(c: Settings, s: System, steps: seq<Step>, t: System, id: nat, notModified: bool, raw: Raw, source: Raw)
    requires Started(s) && t == RunFrom(c, s, steps)
    requires Answered(t, id, Answer(notModified, Some(raw)), source) && raw.parsing.Parses?
    requires notModified ==> t.entry.None?
    ensures var u := Next(c, t, Return(id));
      var taken := t.log + [Refreshed(id, source, t.now)]; var m := Manifest(raw.hash, raw.tools, false);
      && Renewed(c, t, raw, u)
      && if c.snapshots && (t.entry.None? || t.entry.value.raw.hash != raw.hash)
         then u.gets == t.gets[id := Saving(m, raw, t.now.wall)] && u.log == taken
         else u.gets == Without(t.gets, id) && u.log == taken + [Served(id, Some(m), t.now)]
  {
    FlagIsLastError(c, s, steps);
  }

  /** The save, in every run: however it ends the get is given what it fetched, unflagged, and the
      entry is untouched. */
  lemma SaveIsServed(c: Settings, s: System, steps: seq<Step>, t: System, id: nat, ok: bool, landed: bool)
    requires Started(s) && t == RunFrom(c, s, steps)
    requires id in t.gets && t.gets[id].Saving?
    ensures var u := Next(c, t, Saved(id, ok, landed)); var saving := t.gets[id];
      && u.entry == t.entry && u.gets == Without(t.gets, id) && !saving.manifest.stale
      && u.log == t.log + [SaveEnded(ok), Served(id, Some(saving.manifest), t.now)]
      && u.snap == (if ok || landed then Some(Snapshot(saving.raw, saving.since)) else t.snap)
  {
    RunFits(c, s, steps);
    assert StageFits(t, id, t.gets[id]);
  }
}
