/** The per-tenant cache of tool manifests (app/tools/manifest_cache.py). `get` suspends at three
    kinds of await: the tenant's lock, the fetch, and the snapshot store. Each method of the class
    is the code between two of them; the functions are the same steps on values. */
module ManifestCache {
  import opened Wrappers

  datatype Parsing = Parses | RaisesValueError | RaisesOther

  /** What the CRM publishes: its hash, its tools, and how `Manifest.parse` takes it. */
  datatype Raw = Raw(hash: string, tools: int, parsing: Parsing)

  datatype Manifest = Manifest(hash: string, tools: int, stale: bool)

  function Parse(raw: Raw): Manifest {
    Manifest(raw.hash, raw.tools, false)
  }

  datatype EntryValue = EntryValue(raw: Raw, manifest: Manifest, fetchedAt: real, freshUntil: real, retryAt: real,
                                   lastError: Option<string>)

  datatype Settings = Settings(ttl: real, staleMax: real, retry: real, snapshots: bool)

  /** Wall clock and monotonic clock. */
  datatype Clock = Clock(wall: real, mono: real)

  /** What `fetch` comes back with. */
  datatype Reply = Answer(notModified: bool, raw: Option<Raw>) | Failed(error: string)

  /** The fetch raised, or there is nothing in its answer, or what there is does not parse. */
  predicate NoManifest(reply: Reply) {
    match reply
    case Failed(_) => true
    case Answer(_, raw) => raw.None? || raw.value.parsing.RaisesValueError? || raw.value.parsing.RaisesOther?
  }

  /** What `snapshots.load` comes back with. */
  datatype Loaded = LoadFailed | NoRow | Row(raw: Raw, at: real)

  /** How a step of `get` goes on: done, or suspended at the snapshot store. */
  datatype Out = Serve(served: Option<Manifest>) | Save(manifest: Manifest, raw: Raw) | Load(error: string) | Raise

  predicate Usable(e: EntryValue, now: Clock) {
    now.wall < e.freshUntil || (e.lastError.Some? && now.mono < e.retryAt)
  }

  function Invalidated(e: EntryValue): EntryValue {
    e.(freshUntil := 0.0, retryAt := 0.0)
  }

  function ETag(e: Option<EntryValue>): Option<string> {
    if e.Some? && e.value.manifest.hash != "" then Some(e.value.manifest.hash) else None
  }

  /** After a failure: the last good copy if it is young enough, flagged and backing off. */
  function Settle(c: Settings, e: Option<EntryValue>, error: string, now: Clock): (Option<EntryValue>, Out) {
    if e.None? || now.wall - e.value.fetchedAt > c.staleMax then (None, Serve(None))
    else
      var kept := e.value.(lastError := Some(error), retryAt := now.mono + c.retry, manifest := e.value.manifest.(stale := true));
      (Some(kept), Serve(Some(kept.manifest)))
  }

  function Fallback(c: Settings, e: Option<EntryValue>, error: string, now: Clock): (Option<EntryValue>, Out) {
    if e.None? && c.snapshots then (e, Load(error)) else Settle(c, e, error, now)
  }

  function Revalidated(c: Settings, e: EntryValue, now: Clock): EntryValue {
    e.(fetchedAt := now.wall, freshUntil := now.wall + c.ttl, lastError := None, manifest := e.manifest.(stale := false))
  }

  function Fetched(c: Settings, raw: Raw, now: Clock): EntryValue {
    EntryValue(raw, Parse(raw), now.wall, now.wall + c.ttl, 0.0, None)
  }

  /** The refresh of `e` once its fetch is back. */
  function OnReply(c: Settings, e: Option<EntryValue>, r: Reply, now: Clock): (Option<EntryValue>, Out) {
    match r
    case Failed(error) => Fallback(c, e, error, now)
    case Answer(notModified, raw) =>
      if notModified && e.Some? then
        var kept := Revalidated(c, e.value, now);
        (Some(kept), Serve(Some(kept.manifest)))
      else if raw.None? then Fallback(c, e, "ValueError: empty manifest", now)
      else if !raw.value.parsing.Parses? then Fallback(c, e, "manifest does not parse", now)
      else
        var changed := e.None? || e.value.manifest.hash != raw.value.hash;
        (Some(Fetched(c, raw.value, now)),
         if changed && c.snapshots then Save(Parse(raw.value), raw.value) else Serve(Some(Parse(raw.value))))
  }

  /** The fallback once the snapshot is loaded. */
  function OnLoad(c: Settings, e: Option<EntryValue>, l: Loaded, error: string, now: Clock): (Option<EntryValue>, Out) {
    match l
    case Row(raw, at) =>
      (match raw.parsing
       case Parses => Settle(c, Some(EntryValue(raw, Parse(raw), at, 0.0, 0.0, None)), error, now)
       case RaisesValueError => Settle(c, None, error, now)
       case RaisesOther => (e, Raise))
    case _ => Settle(c, None, error, now)
  }

  // ---------------------------------------------------------------- the class

  class Entry {
    var raw: Raw
    var manifest: Manifest
    var fetchedAt: real
    var freshUntil: real
    var retryAt: real
    var lastError: Option<string>

    ghost function Value(): EntryValue
      reads this
    {
      EntryValue(raw, manifest, fetchedAt, freshUntil, retryAt, lastError)
    }

    constructor (raw: Raw, manifest: Manifest, fetchedAt: real, freshUntil: real)
      ensures Value() == EntryValue(raw, manifest, fetchedAt, freshUntil, 0.0, None)
    {
      this.raw, this.manifest, this.fetchedAt, this.freshUntil := raw, manifest, fetchedAt, freshUntil;
      retryAt, lastError := 0.0, None;
    }
  }

  class Cache {
    const ttlSeconds: real
    const staleMaxSeconds: real
    const retrySeconds: real
    const hasSnapshots: bool
    var entries: map<string, Entry>
    var locked: set<string>        // tenants whose lock is held

    function Config(): Settings {
      Settings(ttlSeconds, staleMaxSeconds, retrySeconds, hasSnapshots)
    }

    /** No two tenants share an entry. */
    ghost predicate Valid()
      reads this
    {
      forall t, u | t in entries && u in entries && t != u :: entries[t] != entries[u]
    }

    ghost function At(tenant: string): Option<EntryValue>
      reads this, entries.Values
    {
      if tenant in entries then Some(entries[tenant].Value()) else None
    }

    constructor (ttlSeconds: real, staleMaxSeconds: real, retrySeconds: real, hasSnapshots: bool)
      ensures Valid() && entries == map[] && locked == {}
      ensures Config() == Settings(ttlSeconds, staleMaxSeconds, retrySeconds, hasSnapshots)
    {
      this.ttlSeconds, this.staleMaxSeconds, this.retrySeconds := ttlSeconds, staleMaxSeconds, retrySeconds;
      this.hasSnapshots := hasSnapshots;
      entries, locked := map[], {};
    }

    method Invalidate(tenant: string)
      requires Valid()
      modifies entries.Values
      ensures Valid()
      ensures At(tenant) == match old(At(tenant)) case None => None case Some(e) => Some(Invalidated(e))
      ensures forall u | u != tenant :: At(u) == old(At(u))
    {
      if tenant in entries {
        entries[tenant].freshUntil := 0.0;
        entries[tenant].retryAt := 0.0;
      }
    }

    method UsableWithoutRefresh(entry: Entry, now: Clock) returns (usable: bool)
      ensures usable == Usable(entry.Value(), now)
    {
      var isFresh := now.wall < entry.freshUntil;
      var backingOff := entry.lastError.Some? && now.mono < entry.retryAt;
      usable := isFresh || backingOff;
    }

    /** `get` up to the lock: the entry if it can be served as it is. */
    method Peek(tenant: string, now: Clock) returns (manifest: Option<Manifest>)
      requires Valid()
      ensures manifest == match At(tenant)
        case Some(e) => if Usable(e, now) then Some(e.manifest) else None
        case None => None
    {
      if tenant in entries {
        var usable := UsableWithoutRefresh(entries[tenant], now);
        if usable { return Some(entries[tenant].manifest); }
      }
      manifest := None;
    }

    /** `get` from the lock to the fetch: look again, then ask with the entry's hash. */
    method Enter(tenant: string, now: Clock) returns (manifest: Option<Manifest>, etag: Option<string>)
      requires Valid() && tenant !in locked
      modifies this`locked
      ensures Valid() && forall u :: At(u) == old(At(u))
      ensures var e := At(tenant);
        if e.Some? && Usable(e.value, now) then manifest == Some(e.value.manifest) && locked == old(locked)
        else manifest == None && etag == ETag(e) && locked == old(locked) + {tenant}
    {
      etag := None;
      manifest := Peek(tenant, now);
      if manifest.Some? { return; }
      locked := locked + {tenant};
      if tenant in entries && entries[tenant].manifest.hash != "" {
        etag := Some(entries[tenant].manifest.hash);
      }
    }

    /** `_refresh` after the fetch. */
    method Refresh(tenant: string, reply: Reply, now: Clock) returns (out: Out)
      requires Valid() && tenant in locked
      modifies this, entries.Values
      ensures Valid() && (At(tenant), out) == OnReply(Config(), old(At(tenant)), reply, now)
      ensures NoManifest(reply) && old(At(tenant)).None? ==>
        At(tenant).None? && if hasSnapshots then out.Load? else out == Serve(None)
      ensures NoManifest(reply) && !(reply.Answer? && reply.notModified) && old(At(tenant)).Some? ==>
        out == Serve(if now.wall - old(At(tenant)).value.fetchedAt > staleMaxSeconds then None
                     else Some(old(At(tenant)).value.manifest.(stale := true)))
      ensures forall u | u != tenant :: At(u) == old(At(u))
      ensures locked == if out.Serve? then old(locked) - {tenant} else old(locked)
    {
      match reply {
        case Failed(error) =>
          out := FallBack(tenant, error, now);
        case Answer(notModified, raw) =>
          if notModified && tenant in entries {
            var entry := entries[tenant];
            entry.fetchedAt := now.wall;
            entry.freshUntil := entry.fetchedAt + ttlSeconds;
            entry.lastError := None;
            entry.manifest := entry.manifest.(stale := false);
            out := Serve(Some(entry.manifest));
          } else if raw.None? {
            out := FallBack(tenant, "ValueError: empty manifest", now);
          } else if !raw.value.parsing.Parses? {
            out := FallBack(tenant, "manifest does not parse", now);
          } else {
            out := Store(tenant, raw.value, now);
          }
      }
      if out.Serve? { locked := locked - {tenant}; }
    }

    method Store(tenant: string, raw: Raw, now: Clock) returns (out: Out)
      requires Valid() && raw.parsing.Parses?
      modifies this`entries
      ensures Valid() && (At(tenant), out) == OnReply(Config(), old(At(tenant)), Answer(false, Some(raw)), now)
      ensures forall u | u != tenant :: At(u) == old(At(u))
    {
      var manifest := Parse(raw);
      var changed := tenant !in entries || entries[tenant].manifest.hash != manifest.hash;
      var entry := new Entry(raw, manifest, now.wall, now.wall + ttlSeconds);
      entries := entries[tenant := entry];
      out := if changed && hasSnapshots then Save(manifest, raw) else Serve(Some(manifest));
    }

    /** `_fallback` up to the snapshot store. */
    method FallBack(tenant: string, error: string, now: Clock) returns (out: Out)
      requires Valid()
      modifies this`entries, entries.Values
      ensures Valid() && (At(tenant), out) == Fallback(Config(), old(At(tenant)), error, now)
      ensures old(At(tenant)).None? ==> At(tenant).None? && out == if hasSnapshots then Load(error) else Serve(None)
      ensures old(At(tenant)).Some? ==>
        out == Serve(if now.wall - old(At(tenant)).value.fetchedAt > staleMaxSeconds then None
                     else Some(old(At(tenant)).value.manifest.(stale := true)))
      ensures forall u | u != tenant :: At(u) == old(At(u))
    {
      if tenant !in entries {
        if hasSnapshots { return Load(error); }
        return Serve(None);
      }
      out := Keep(tenant, entries[tenant], error, now);
    }

    /** The end of `_fallback` with an entry at hand: serve it flagged, or drop it as too old. */
    method Keep(tenant: string, entry: Entry, error: string, now: Clock) returns (out: Out)
      requires Valid() && forall u | u in entries && u != tenant :: entries[u] != entry
      modifies this`entries, entry
      ensures Valid() && (At(tenant), out) == Settle(Config(), Some(old(entry.Value())), error, now)
      ensures forall u | u != tenant :: At(u) == old(At(u))
    {
      if now.wall - entry.fetchedAt > staleMaxSeconds {
        entries := entries - {tenant};
        return Serve(None);
      }
      entry.lastError := Some(error);
      entry.retryAt := now.mono + retrySeconds;
      entry.manifest := entry.manifest.(stale := true);
      entries := entries[tenant := entry];
      out := Serve(Some(entry.manifest));
    }

    /** `_refresh` after the snapshot is saved, or could not be. */
    method AfterSave(tenant: string)
      requires Valid() && tenant in locked
      modifies this`locked
      ensures Valid() && locked == old(locked) - {tenant} && forall u :: At(u) == old(At(u))
    {
      locked := locked - {tenant};
    }

    /** `_fallback` after the snapshot store: no entry was cached when it was asked. */
    method AfterLoad(tenant: string, loaded: Loaded, error: string, now: Clock) returns (out: Out)
      requires Valid() && tenant in locked && tenant !in entries
      modifies this`entries, this`locked
      ensures Valid() && (At(tenant), out) == OnLoad(Config(), None, loaded, error, now)
      ensures forall u | u != tenant :: At(u) == old(At(u))
      ensures locked == old(locked) - {tenant}
    {
      locked := locked - {tenant};
      match loaded {
        case Row(raw, at) =>
          if raw.parsing.RaisesOther? { return Raise; }
          if raw.parsing.Parses? {
            var entry := new Entry(raw, Parse(raw), at, 0.0);
            out := Keep(tenant, entry, error, now);
            return;
          }
        case _ =>
      }
      out := Serve(None);
    }
  }
}
