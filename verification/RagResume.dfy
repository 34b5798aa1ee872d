/** What an incremental run can finish of an ingest that was cut short, by its limit or by a failure
    on the way, and what it cannot. */
module RagResume {
  import opened Wrappers
  import opened RagIngest
  import opened RagAgreement
  import opened RagLimits

  // ---------------------------------------------------------------- finishing it incrementally

  /** After the cut, exactly the records behind it are still to be written. */
  lemma CutCurrent(index: Index, m: string, source: seq<Record>, j: nat, r: Record)
    requires Listing(source) && r in source
    ensures Current(Cut(index, m, source, j), m, r) <==> Current(index, m, r) || r in FirstStale(index, m, source, j)
  {
    var first := FirstStale(index, m, source, j);
    ListingUnique(source, r);
    StaleAreAll(index, m, source);
    forall x | x in first ensures x in source { assert x in Stale(index, m, source); }
    if r in first {
      UpsertedCurrent(index, m, first, r);
    } else {
      UpsertedOthers(index, m, first, KeyOf(m, r));
    }
  }

  /** Every record the cut left to be written is selected before the run stops. */
  predicate Resumable(index: Index, m: string, source: seq<Record>, j: nat, w: Option<int>, stop: nat)
    requires stop <= |source|
  {
    forall r | r in Stale(index, m, source) && r !in FirstStale(index, m, source, j) :: Selects(w, r) && r in source[..stop]
  }

  /** A run cut short is finished by an incremental run if and only if every record it left over is
      at or after the watermark and stands before the stop. */
  lemma ResumeIff(index: Index, m: string, source: seq<Record>, j: nat, w: Option<int>, size: nat, batch: nat)
    requires size > 0 && Listing(source)
    ensures (forall r | r in source :: Current(IncrementalRun(Cut(index, m, source, j), m, source, size, w, batch).0, m, r))
      <==> Resumable(index, m, source, j, w, StopAt(source, 0, size, w))
  {
    var cut, stop := Cut(index, m, source, j), StopAt(source, 0, size, w);
    IncrementalCompleteIff(cut, m, source, w, size, batch, size, batch);
    StaleAreAll(index, m, source);
    forall r | r in source
      ensures Current(cut, m, r) <==> Current(index, m, r) || r in FirstStale(index, m, source, j)
    {
      CutCurrent(index, m, source, j, r);
    }
  }

  // ---------------------------------------------------------------- the first run of a module

  lemma {:induction false} AllStale(index: Index, m: string, rs: seq<Record>)
    requires forall k | k in index :: k.0 != m
    ensures Stale(index, m, rs) == rs
  {
    if rs != [] {
      AllStale(index, m, rs[..|rs| - 1]);
      assert rs == rs[..|rs| - 1] + [rs[|rs| - 1]];
    }
  }

  lemma {:induction false} UpsertedPoints(index: Index, m: string, rs: seq<Record>, k: Key)
    ensures k in Upserted(index, m, rs) ==>
      (k in index && Upserted(index, m, rs)[k] == index[k])
      || exists r :: r in rs && KeyOf(m, r) == k && Upserted(index, m, rs)[k] == PointOf(r)
    ensures (exists r :: r in rs && KeyOf(m, r) == k) ==>
      k in Upserted(index, m, rs) && exists r :: r in rs && KeyOf(m, r) == k && Upserted(index, m, rs)[k] == PointOf(r)
  {
    if rs != [] {
      var rest, last := rs[..|rs| - 1], rs[|rs| - 1];
      UpsertedPoints(index, m, rest, k);
      assert rs == rest + [last];
      if KeyOf(m, last) == k { assert last in rs; }
    }
  }

  lemma FirstIsNewest(source: seq<Record>, r: Record)
    requires NewestFirst(source) && r in source
    ensures source[0].time.Some? && r.time.Some? && source[0].time.value >= r.time.value
  {
    var i :| 0 <= i < |source| && source[i] == r;
    assert source[0] in source;
  }

  /** No point is read back for the module. */
  ghost predicate NoPoints(index: Index, m: string) {
    forall k | k in index :: !OfModule(m, k)
  }

  lemma NoneNamed(index: Index, m: string)
    requires NoPoints(index, m)
    ensures forall k | k in index :: k.0 != m
  {
    forall k | k in index ensures k.0 != m { assert !OfModule(m, k); }
  }

  lemma FirstPoint(index: Index, m: string, source: seq<Record>, front: seq<Record>)
    requires Listing(source) && front <= source && front != []
    ensures var next, k := Upserted(index, m, front), KeyOf(m, source[0]);
      k in next && next[k].time == source[0].time
  {
    var next, first := Upserted(index, m, front), source[0];
    assert first == front[0] && first in front;
    UpsertedPoints(index, m, front, KeyOf(m, first));
    var x :| x in front && KeyOf(m, x) == KeyOf(m, first) && next[KeyOf(m, first)] == PointOf(x);
    ListingUnique(source, first);
    assert x == first;
  }

  lemma PointIsOlder(index: Index, m: string, source: seq<Record>, front: seq<Record>, k: Key)
    requires NoPoints(index, m) && NewestFirst(source) && front <= source
    requires k in Upserted(index, m, front) && OfModule(m, k)
    ensures var time := Upserted(index, m, front)[k].time;
      source != [] && source[0].time.Some? && time.Some? && time.value <= source[0].time.value
  {
    UpsertedPoints(index, m, front, k);
    assert k !in index;
    var r :| r in front && KeyOf(m, r) == k && Upserted(index, m, front)[k] == PointOf(r);
    FirstIsNewest(source, r);
  }

  /** The watermark after the first records of a newest-first list: the time of the very first. */
  lemma FirstIsWatermark(index: Index, m: string, source: seq<Record>, front: seq<Record>, w: Option<int>)
    requires NoPoints(index, m) && Listing(source) && NewestFirst(source)
    requires front <= source && front != [] && IsWatermark(Upserted(index, m, front), m, w)
    ensures w == source[0].time
  {
    FirstPoint(index, m, source, front);
    FirstIsNewest(source, source[0]);
    WatermarkIs(Upserted(index, m, front), m, w, KeyOf(m, source[0]));
    forall k | k in Upserted(index, m, front) && OfModule(m, k)
      ensures Upserted(index, m, front)[k].time.Some? && Upserted(index, m, front)[k].time.value <= source[0].time.value
    {
      PointIsOlder(index, m, source, front, k);
    }
  }

  lemma WatermarkIs(index: Index, m: string, w: Option<int>, first: Key)
    requires IsWatermark(index, m, w) && first in index && OfModule(m, first) && index[first].time.Some?
    ensures w.Some? && w.value >= index[first].time.value
    ensures exists k :: k in index && OfModule(m, k) && index[k].time == w
  {
  }

  lemma BehindCut(index: Index, m: string, source: seq<Record>, j: nat, r: Record)
    requires Listing(source) && j <= |source| && (forall k | k in index :: k.0 != m) && r in source
    ensures Current(Cut(index, m, source, j), m, r) <==> r in source[..j]
    ensures r in source[j..] <==> r !in source[..j]
  {
    AllStale(index, m, source);
    CutCurrent(index, m, source, j, r);
    TwoEnds(source, j);
  }

  lemma CutCovered(index: Index, m: string, source: seq<Record>, j: nat)
    requires Listing(source) && NewestFirst(source) && 0 < j <= |source| && (forall k | k in index :: k.0 != m)
    ensures WatermarkCovers(Cut(index, m, source, j), m, source, source[0].time)
      <==> forall r | r in source[j..] :: r.time == source[0].time
  {
    var cut, w := Cut(index, m, source, j), source[0].time;
    forall r | r in source
      ensures !Current(cut, m, r) <==> r in source[j..]
      ensures Selects(w, r) <==> r.time == w
    {
      BehindCut(index, m, source, j, r);
      FirstIsNewest(source, r);
    }
    assert forall r | r in source[j..] :: r in source;
  }

  /** The first ingest of a module from a newest-first list, cut short after `j` records by its limit
      or by a failure: an incremental run finishes it if and only if none of the records left over
      is older than the newest. Otherwise only another full run does. */
  lemma FirstRunCut(index: Index, m: string, source: seq<Record>, j: nat, w: Option<int>, size: nat, batch: nat)
    requires size > 0 && Listing(source) && NewestFirst(source) && 0 < j <= |source|
    requires NoPoints(index, m) && IsWatermark(Cut(index, m, source, j), m, w)
    ensures (forall r | r in source :: Current(IncrementalRun(Cut(index, m, source, j), m, source, size, w, batch).0, m, r))
      <==> forall r | r in source[j..] :: r.time == source[0].time
  {
    NoneNamed(index, m);
    AllStale(index, m, source);
    FirstIsWatermark(index, m, source, source[..j], w);
    var cut := Cut(index, m, source, j);
    IncrementalCompleteIff(cut, m, source, w, size, batch, size, batch);
    NewestFirstReached(cut, m, source, w, size);
    CutCovered(index, m, source, j);
  }

  /** In particular a first ingest with a limit: the records beyond the limit are reached by later
      incremental runs if and only if none of them is older than the newest. */
  lemma LimitedFirstRun(index: Index, m: string, source: seq<Record>, limit: nat, w: Option<int>, size: nat, batch: nat)
    requires size > 0 && Listing(source) && NewestFirst(source) && 0 < limit <= |source| && NoPoints(index, m)
    requires IsWatermark(LimitedRun(index, m, source, limit, size, batch).0, m, w)
    ensures var first := LimitedRun(index, m, source, limit, size, batch);
      && first.1.written == limit
      && ((forall r | r in source :: Current(IncrementalRun(first.0, m, source, size, w, batch).0, m, r))
        <==> forall r | r in source[limit..] :: r.time == source[0].time)
  {
    LimitedRunIs(index, m, source, limit, size, batch);
    NoneNamed(index, m);
    AllStale(index, m, source);
    FirstRunCut(index, m, source, limit, w, size, batch);
  }
}
