/** Ingestion of CRM records into the search index (app/engine/rag.py): paged reading, a skip of
    records whose stored hash is current, batched upserts, and an incremental watermark. */
module RagIngest {
  import opened Wrappers
  import opened Text

  /** A record as the CRM lists it: its modification time, if it parses, and its hash. */
  datatype Record = Record(id: string, time: Option<int>, hash: string, content: string)

  /** A stored point; `complete` when its payload has every derived field newer schemas need. */
  datatype Point = Point(hash: string, time: Option<int>, complete: bool, record: Record)

  /** Points are filed under module and record id. */
  type Key = (string, string)
  type Index = map<Key, Point>

  function KeyOf(m: string, r: Record): Key {
    (m, r.id)
  }

  /** Modules are compared without outer whitespace and letter case when points are read back. */
  function Canonical(m: string): string {
    Lower(Strip(m))
  }

  /** The point is read back for the module; for one without a name every point is. */
  predicate OfModule(m: string, k: Key) {
    Canonical(m) == "" || Canonical(k.0) == Canonical(m)
  }

  function PointOf(r: Record): Point {
    Point(r.hash, r.time, true, r)
  }

  predicate Trusted(p: Point) {
    p.hash != "" && p.complete
  }

  /** The index holds the record as it is now. */
  predicate Current(index: Index, m: string, r: Record) {
    KeyOf(m, r) in index && Trusted(index[KeyOf(m, r)]) && index[KeyOf(m, r)].hash == r.hash
  }

  /** The hashes loaded for these records. */
  function Known(index: Index, m: string, rs: seq<Record>): map<Key, string> {
    if rs == [] then map[]
    else
      var rest, key := Known(index, m, rs[..|rs| - 1]), KeyOf(m, rs[|rs| - 1]);
      if key in index && Trusted(index[key]) then rest[key := index[key].hash] else rest
  }

  /** The records whose loaded hash is missing or another. */
  function Changed(known: map<Key, string>, m: string, rs: seq<Record>): (r: seq<Record>)
    ensures |r| <= |rs|
  {
    if rs == [] then []
    else
      var rest, last := Changed(known, m, rs[..|rs| - 1]), rs[|rs| - 1];
      if KeyOf(m, last) in known && known[KeyOf(m, last)] == last.hash then rest else rest + [last]
  }

  function Upserted(index: Index, m: string, rs: seq<Record>): Index {
    if rs == [] then index
    else
      var last := rs[|rs| - 1];
      Upserted(index, m, rs[..|rs| - 1])[KeyOf(m, last) := PointOf(last)]
  }

  /** How many hashes are loaded when the retrieval of chunk `failAt` fails. */
  function Loaded(n: nat, batch: nat, failAt: Option<nat>): (k: nat)
    ensures k <= n
  {
    match failAt
    case None => n
    case Some(f) => if f * batch <= n then f * batch else n
  }

  /** One call of `ingest_records`: the records it writes. */
  function Writes(index: Index, m: string, rs: seq<Record>, batch: nat, failAt: Option<nat>): (w: seq<Record>)
    ensures |w| <= |rs|
  {
    Changed(Known(index, m, rs[..Loaded(|rs|, batch, failAt)]), m, rs)
  }

  // ---------------------------------------------------------------- a run over pages

  datatype Stats = Stats(fetched: nat, selected: nat, written: nat, skipped: nat)

  const NOTHING := Stats(0, 0, 0, 0)

  function Plus(a: Stats, b: Stats): Stats {
    Stats(a.fetched + b.fetched, a.selected + b.selected, a.written + b.written, a.skipped + b.skipped)
  }

  predicate Selects(w: Option<int>, r: Record) {
    w.Some? && r.time.Some? ==> r.time.value >= w.value
  }

  function Selected(rs: seq<Record>, w: Option<int>): (r: seq<Record>)
    ensures |r| <= |rs|
  {
    if rs == [] then []
    else
      var rest, last := Selected(rs[..|rs| - 1], w), rs[|rs| - 1];
      if Selects(w, last) then rest + [last] else rest
  }

  predicate ReachesExisting(page: seq<Record>, w: Option<int>) {
    exists i | 0 <= i < |page| :: !Selects(w, page[i])
  }

  function Min(a: nat, b: nat): nat {
    if a <= b then a else b
  }

  function PageLength(source: seq<Record>, offset: nat, remaining: Option<nat>, size: nat): (n: nat)
    requires offset <= |source|
    ensures n <= Asked(remaining, size) && offset + n <= |source|
    ensures remaining.Some? ==> n <= remaining.value
  {
    Min(Asked(remaining, size), |source| - offset)
  }

  /** The page listed at `offset`, `size` at most and never more than the limit leaves. */
  function Listed(source: seq<Record>, offset: nat, remaining: Option<nat>, size: nat): (page: seq<Record>)
    requires offset <= |source|
    ensures |page| == PageLength(source, offset, remaining, size)
  {
    source[offset..offset + PageLength(source, offset, remaining, size)]
  }

  function Asked(remaining: Option<nat>, size: nat): nat {
    if remaining.Some? then Min(size, remaining.value) else size
  }

  /** One page: the index and the counts after it, and whether it is the last. */
  function Page(index: Index, m: string, page: seq<Record>, asked: nat, w: Option<int>, batch: nat, failAt: Option<nat>)
    : (r: (Index, Stats, bool))
    ensures r.1.fetched == |page| && r.1.written <= |page| && (!r.2 ==> |page| >= asked && page != [])
  {
    if page == [] then (index, NOTHING, true)
    else
      var selected := Selected(page, w);
      var written := Writes(index, m, selected, batch, failAt);
      (Upserted(index, m, written), Stats(|page|, |selected|, |written|, |selected| - |written|),
       ReachesExisting(page, w) || |page| < asked)
  }

  function Left(remaining: Option<nat>, written: nat): Option<nat> {
    if remaining.None? then None else Some(if written <= remaining.value then remaining.value - written else 0)
  }

  /** What a run does with one page: the index before it, the page, how many were asked for, its
      offset. */
  type Work = (Index, seq<Record>, nat, nat) -> (Index, Stats, bool)

  /** `failAt` tells, for each page, whether and where the loading of hashes fails. */
  function WorkOf(m: string, w: Option<int>, batch: nat, failAt: nat -> Option<nat>): Work {
    (index: Index, page: seq<Record>, asked: nat, offset: nat) => Page(index, m, page, asked, w, batch, failAt(offset))
  }

  lemma WorkIs(m: string, w: Option<int>, batch: nat, failAt: nat -> Option<nat>, index: Index, page: seq<Record>,
               asked: nat,
               offset: nat)
    ensures WorkOf(m, w, batch, failAt)(index, page, asked, offset) == Page(index, m, page, asked, w, batch, failAt(offset))
  {
  }

  /** What a run that has done `so` far does with the pages from `offset` on. */
  function Pages(work: Work, index: Index, so: Stats, source: seq<Record>, offset: nat, remaining: Option<nat>,
                 size: nat)
    : (Index, Stats)
    requires offset <= |source|
    decreases |source| - offset
  {
    if remaining == Some(0) then (index, so)
    else
      var n := PageLength(source, offset, remaining, size);
      var p := work(index, Listed(source, offset, remaining, size), Asked(remaining, size), offset);
      if p.2 || n == 0 then (p.0, Plus(so, p.1))
      else Pages(work, p.0, Plus(so, p.1), source, offset + n, Left(remaining, p.1.written), size)
  }

  function PageSize(requested: int): nat {
    if requested < 1 then 1 else if requested > 500 then 500 else requested
  }

  function Batch(setting: int): nat {
    if setting < 1 then 1 else setting
  }

  function Limit(limit: Option<int>): Option<nat> {
    match limit case None => None case Some(n) => Some(if n < 0 then 0 else n)
  }

  // ---------------------------------------------------------------- the code

  class Collection {
    var index: Index

    constructor (index: Index)
      ensures this.index == index
    {
      this.index := index;
    }

    method Upsert(m: string, points: seq<Record>)
      modifies this
      ensures index == Upserted(old(index), m, points)
    {
      assert points[..|points|] == points;
      for i := 0 to |points|
        invariant index == Upserted(old(index), m, points[..i])
      {
        assert points[..i + 1][..i] == points[..i];
        index := index[KeyOf(m, points[i]) := PointOf(points[i])];
      }
    }

    /** `_load_existing_hashes`: chunk by chunk; a failing retrieval ends it early. */
    method LoadExistingHashes(m: string, rs: seq<Record>, batch: nat, failAt: Option<nat>) returns (existing: map<Key,
                              string>)
      requires batch > 0
      ensures existing == Known(index, m, rs[..Loaded(|rs|, batch, failAt)])
    {
      existing := map[];
      var start, chunk := 0, 0;
      while start < |rs|
        invariant start == Min(chunk * batch, |rs|)
        invariant failAt.Some? ==> chunk <= failAt.value
        invariant existing == Known(index, m, rs[..start])
      {
        if failAt == Some(chunk) { return; }
        var end := Min(start + batch, |rs|);
        assert end == Min((chunk + 1) * batch, |rs|);
        for i := start to end
          invariant existing == Known(index, m, rs[..i])
        {
          assert rs[..i + 1][..i] == rs[..i];
          var key := KeyOf(m, rs[i]);
          if key in index && Trusted(index[key]) { existing := existing[key := index[key].hash]; }
        }
        start, chunk := end, chunk + 1;
      }
      assert rs[..start] == rs;
      if failAt.Some? { ChunksCover(|rs|, batch, chunk, failAt.value); }
    }

    /** One more batch, after the ones done. */
    method WriteBatch(m: string, points: seq<Record>, ghost before: Index, ghost done: seq<Record>)
      requires index == Upserted(before, m, done)
      modifies this
      ensures index == Upserted(before, m, done + points)
    {
      UpsertedTwice(before, m, done, points);
      Upsert(m, points);
    }

    /** The loop of `ingest_records`: skip what is current, write the rest in batches. */
    method WriteChanged(existing: map<Key, string>, m: string, rs: seq<Record>, batch: nat) returns (inserted: nat,
                        skipped: nat)
      modifies this
      ensures var written := Changed(existing, m, rs);
        index == Upserted(old(index), m, written) && inserted == |written| && skipped == |rs| - |written|
    {
      var points: seq<Record> := [];
      inserted, skipped := 0, 0;
      ghost var done: seq<Record> := [];
      assert rs[..|rs|] == rs;
      for i := 0 to |rs|
        invariant Changed(existing, m, rs[..i]) == done + points
        invariant index == Upserted(old(index), m, done)
        invariant inserted == |done| && skipped == i - |done| - |points|
      {
        ChangedNext(existing, m, rs, i, done, points);
        var item := rs[i];
        if KeyOf(m, item) in existing && existing[KeyOf(m, item)] == item.hash {
          skipped := skipped + 1;
          continue;
        }
        points := points + [item];
        if |points| >= batch {
          WriteBatch(m, points, old(index), done);
          inserted := inserted + |points|;
          done := done + points;
          points := [];
        }
      }
      assert done + [] == done;
      if points != [] {
        WriteBatch(m, points, old(index), done);
        inserted := inserted + |points|;
      }
    }

    /** `ingest_records`. */
    method IngestRecords(m: string, rs: seq<Record>, batchSetting: int, failAt: Option<nat>) returns (inserted: nat,
                         skipped: nat)
      modifies this
      ensures var written := Writes(old(index), m, rs, Batch(batchSetting), failAt);
        index == Upserted(old(index), m, written) && inserted == |written| && skipped == |rs| - |written|
    {
      var existing := LoadExistingHashes(m, rs, Batch(batchSetting), failAt);
      inserted, skipped := WriteChanged(existing, m, rs, Batch(batchSetting));
    }

    /** The body of the paging loop, after the list call. */
    method IngestPage(m: string, page: seq<Record>, asked: nat, watermark: Option<int>, batchSetting: int,
                      failAt: nat -> Option<nat>, offset: nat)
      returns (stats: Stats, last: bool)
      modifies this
      ensures (index, stats, last) == WorkOf(m, watermark, Batch(batchSetting), failAt)(old(index), page, asked, offset)
      ensures page == [] ==> last
    {
      WorkIs(m, watermark, Batch(batchSetting), failAt, index, page, asked, offset);
      if page == [] { return NOTHING, true; }
      var selected := SelectPage(page, watermark);
      var inserted, skipped := IngestRecords(m, selected, batchSetting, failAt(offset));
      stats := Stats(|page|, |selected|, inserted, skipped);
      last := ReachesExisting(page, watermark) || |page| < asked;
    }

    /** `ingest_from_crm_paginated`, against a CRM that serves pages as requested. */
    method IngestPaginated(m: string, source: seq<Record>, limit: Option<int>, requestedSize: int,
                           watermark: Option<int>,
                           batchSetting: int, failAt: nat -> Option<nat>) returns (stats: Stats)
      modifies this
      ensures (index, stats) == Pages(WorkOf(m, watermark, Batch(batchSetting), failAt), old(index), NOTHING, source, 0,
                                      Limit(limit), PageSize(requestedSize))
    {
      var remaining, size, offset := Limit(limit), PageSize(requestedSize), 0;
      ghost var work := WorkOf(m, watermark, Batch(batchSetting), failAt);
      ghost var course := Pages(work, index, NOTHING, source, 0, remaining, size);
      stats := NOTHING;
      var last := false;
      while remaining != Some(0) && !last
        invariant offset <= |source|
        invariant course == if last then (index, stats) else Pages(work, index, stats, source, offset, remaining, size)
        decreases !last, |source| - offset
      {
        var asked, page := Asked(remaining, size), Listed(source, offset, remaining, size);
        var more;
        more, last := IngestPage(m, page, asked, watermark, batchSetting, failAt, offset);
        stats := Plus(stats, more);
        remaining := Left(remaining, more.written);
        offset := offset + |page|;
      }
    }

    method SelectPage(page: seq<Record>, watermark: Option<int>) returns (selected: seq<Record>)
      ensures selected == Selected(page, watermark)
    {
      selected := [];
      assert page[..|page|] == page;
      for i := 0 to |page|
        invariant selected == Selected(page[..i], watermark)
      {
        assert page[..i + 1][..i] == page[..i];
        if watermark.None? || page[i].time.None? || page[i].time.value >= watermark.value {
          selected := selected + [page[i]];
        }
      }
    }

    /** `_latest_module_modified_at`, over the points in any order. */
    method LatestModified(m: string, points: seq<Key>) returns (latest: Option<int>)
      requires forall k :: k in points <==> k in index
      ensures IsWatermark(index, m, latest)
    {
      latest := None;
      for i := 0 to |points|
        invariant latest.Some? ==> exists k | k in points[..i] :: OfModule(m, k) && index[k].time == latest
        invariant forall k | k in points[..i] && OfModule(m, k) && index[k].time.Some? ::
          latest.Some? && index[k].time.value <= latest.value
      {
        var k := points[i];
        assert points[..i + 1] == points[..i] + [k];
        if OfModule(m, k) && index[k].time.Some? && (latest.None? || index[k].time.value > latest.value) {
          latest := index[k].time;
        }
      }
      assert points[..|points|] == points;
    }
  }

  /** The newest modification time among the points of a module. */
  ghost predicate IsWatermark(index: Index, m: string, w: Option<int>) {
    && (w.Some? ==> exists k :: k in index && OfModule(m, k) && index[k].time == w)
    && forall k | k in index && OfModule(m, k) && index[k].time.Some? :: w.Some? && index[k].time.value <= w.value
  }

  lemma ChunksCover(n: nat, batch: nat, chunk: nat, f: nat)
    requires chunk <= f && n == Min(chunk * batch, n)
    ensures Loaded(n, batch, Some(f)) == n
  {
    assert chunk * batch <= f * batch;
  }

  lemma ChangedNext(known: map<Key, string>, m: string, rs: seq<Record>, i: nat, done: seq<Record>, points: seq<Record>)
    requires i < |rs| && Changed(known, m, rs[..i]) == done + points
    ensures Changed(known, m, rs[..i + 1]) ==
      if KeyOf(m, rs[i]) in known && known[KeyOf(m, rs[i])] == rs[i].hash then done + points else done + (points + [rs[i]])
  {
    assert rs[..i + 1][..i] == rs[..i];
  }

  lemma {:induction false} UpsertedTwice(index: Index, m: string, a: seq<Record>, b: seq<Record>)
    ensures Upserted(Upserted(index, m, a), m, b) == Upserted(index, m, a + b)
  {
    if b == [] {
      assert a + b == a;
    } else {
      UpsertedTwice(index, m, a, b[..|b| - 1]);
      assert (a + b)[..|a + b| - 1] == a + b[..|b| - 1];
    }
  }
}
