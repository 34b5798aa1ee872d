/** What one call of the paginated ingest leaves in the index, told of the records, the points and
    the arguments of the call alone. */
module RagOutcomes {
  import opened Wrappers
  import opened Text
  import opened RagIngest
  import opened RagAgreement
  import opened RagFailures
  import opened RagLimits

  /** What `Collection.IngestPaginated` leaves and counts, for the arguments it is called with. */
  function Ingested(index: Index, m: string, source: seq<Record>, limit: Option<int>, requestedSize: int,
                    watermark: Option<int>, batchSetting: int, failAt: nat -> Option<nat>)
    : (Index, Stats)
  {
    Pages(WorkOf(m, watermark, Batch(batchSetting), failAt), index, NOTHING, source, 0, Limit(limit), PageSize(requestedSize))
  }

  /** The point filed under the record's id has its hash, is complete and not without a hash. */
  predicate Holds(index: Index, m: string, r: Record) {
    && (m, r.id) in index
    && index[(m, r.id)].hash == r.hash && index[(m, r.id)].hash != "" && index[(m, r.id)].complete
  }

  /** The record was modified before the watermark, as far as both are known. */
  predicate Older(w: Option<int>, r: Record) {
    w.Some? && r.time.Some? && r.time.value < w.value
  }

  predicate SameAt(a: Index, b: Index, k: Key) {
    (k in a <==> k in b) && (k in a ==> a[k] == b[k])
  }

  /** Exactly these records of the list are stored as they are now, and no other point changes. */
  ghost predicate StoresJust(index: Index, m: string, source: seq<Record>, chosen: nat -> bool, end: Index) {
    && (forall i | 0 <= i < |source| ::
          if chosen(i) then
            && (m, source[i].id) in end
            && end[(m, source[i].id)] == Point(source[i].hash, source[i].time, true, source[i])
          else SameAt(index, end, (m, source[i].id)))
    && forall k: Key | forall r | r in source :: (m, r.id) != k :: SameAt(index, end, k)
  }

  lemma {:induction false} UpsertedPoint(index: Index, m: string, some: seq<Record>, r: Record)
    requires r in some && forall x | x in some && x.id == r.id :: x == r
    ensures var end := Upserted(index, m, some); (m, r.id) in end && end[(m, r.id)] == Point(r.hash, r.time, true, r)
  {
    var n := |some| - 1;
    if some[n] != r {
      assert some == some[..n] + [some[n]];
      UpsertedPoint(index, m, some[..n], r);
    }
  }

  lemma UpsertedJust(index: Index, m: string, source: seq<Record>, some: seq<Record>, chosen: nat -> bool)
    requires Listing(source) && forall x | x in some :: x in source
    requires forall i | 0 <= i < |source| :: chosen(i) <==> source[i] in some
    ensures StoresJust(index, m, source, chosen, Upserted(index, m, some))
  {
    forall i | 0 <= i < |source|
      ensures chosen(i) ==>
        && (m, source[i].id) in Upserted(index, m, some)
        && Upserted(index, m, some)[(m, source[i].id)] == Point(source[i].hash, source[i].time, true, source[i])
      ensures !chosen(i) ==> SameAt(index, Upserted(index, m, some), (m, source[i].id))
    {
      ListingUnique(source, source[i]);
      if chosen(i) {
        UpsertedPoint(index, m, some, source[i]);
      } else {
        UpsertedOthers(index, m, some, (m, source[i].id));
      }
    }
    forall k: Key | forall r | r in source :: (m, r.id) != k ensures SameAt(index, Upserted(index, m, some), k) {
      UpsertedOthers(index, m, some, k);
    }
  }

  // ---------------------------------------------------------------- full and limited

  /** How many of the records are not held. */
  function Missing(index: Index, m: string, rs: seq<Record>): nat {
    if rs == [] then 0
    else Missing(index, m, rs[..|rs| - 1]) + if Holds(index, m, rs[|rs| - 1]) then 0 else 1
  }

  lemma {:induction false} MissingIsStale(index: Index, m: string, rs: seq<Record>)
    ensures Missing(index, m, rs) == |Stale(index, m, rs)|
  {
    if rs != [] { MissingIsStale(index, m, rs[..|rs| - 1]); }
  }

  lemma StaleAround(index: Index, m: string, source: seq<Record>, i: nat) returns (a: seq<Record>, one: seq<Record>, b: seq<Record>)
    requires Listing(source) && i < |source|
    ensures Stale(index, m, source) == a + one + b
    ensures |a| == Missing(index, m, source[..i]) && one == if Holds(index, m, source[i]) then [] else [source[i]]
    ensures forall x | x in a :: x != source[i]
  {
    var front, back := source[..i], source[i..];
    a, one, b := Stale(index, m, front), Stale(index, m, [source[i]]), Stale(index, m, back[1..]);
    assert source == front + [source[i]] + back[1..];
    StaleAppend(index, m, front + [source[i]], back[1..]);
    StaleAppend(index, m, front, [source[i]]);
    MissingIsStale(index, m, front);
    OneStale(index, m, source[i]);
    StaleAreAll(index, m, front);
    TwoEnds(source, i);
    assert source[i] == back[0] && source[i] in back;
  }

  /** Of what has to be written, `x` is among the first `n` exactly when fewer than `n` are before. */
  lemma AmongFirstOf<T>(a: seq<T>, x: T, b: seq<T>, n: nat)
    requires x !in a
    ensures x in (a + [x] + b)[..Min(n, |a + [x] + b|)] <==> |a| < n
  {
    var all := a + [x] + b;
    if |a| < n {
      assert all[..Min(n, |all|)][|a|] == x;
    } else {
      assert all[..n] == a[..n];
    }
  }

  /** A record is among the first to be written exactly when it has to be and fewer are before it. */
  lemma AmongFirst(index: Index, m: string, source: seq<Record>, limit: nat, i: nat)
    requires Listing(source) && i < |source|
    ensures source[i] in FirstStale(index, m, source, limit) <==>
      !Holds(index, m, source[i]) && Missing(index, m, source[..i]) < limit
  {
    var a, one, b := StaleAround(index, m, source, i);
    if Holds(index, m, source[i]) {
      StaleAreAll(index, m, source);
      assert source[i] !in Stale(index, m, source);
    } else {
      AmongFirstOf(a, source[i], b, limit);
    }
  }

  lemma OneStale(index: Index, m: string, r: Record)
    ensures Stale(index, m, [r]) == if Holds(index, m, r) then [] else [r]
  {
    assert [r][..0] == [];
  }

  /** A call with no room for anything, whatever else it is called with, does nothing. */
  lemma NoRoom(index: Index, m: string, source: seq<Record>, limit: int, requestedSize: int, w: Option<int>,
               batchSetting: int, failAt: nat -> Option<nat>)
    requires limit <= 0
    ensures Ingested(index, m, source, Some(limit), requestedSize, w, batchSetting, failAt) == (index, Stats(0, 0, 0, 0))
  {
  }

  /** A limited call without a watermark stores the first `limit` of the records not held, in the
      order of the list, for any page and batch size. */
  lemma LimitedIngest(index: Index, m: string, source: seq<Record>, limit: int, requestedSize: int, batchSetting: int)
    requires Listing(source) && limit >= 0
    ensures var end := Ingested(index, m, source, Some(limit), requestedSize, None, batchSetting, NoFailure());
      && StoresJust(index, m, source,
           (i: nat) => i < |source| && !Holds(index, m, source[i]) && Missing(index, m, source[..i]) < limit, end.0)
      && end.1.written == if Missing(index, m, source) < limit then Missing(index, m, source) else limit
  {
    var chosen := (i: nat) => i < |source| && !Holds(index, m, source[i]) && Missing(index, m, source[..i]) < limit;
    LimitedRunIs(index, m, source, limit, PageSize(requestedSize), Batch(batchSetting));
    MissingIsStale(index, m, source);
    StaleAreAll(index, m, source);
    var first := FirstStale(index, m, source, limit);
    forall x | x in first ensures x in source { assert x in Stale(index, m, source); }
    forall i | 0 <= i < |source| ensures chosen(i) <==> source[i] in first { AmongFirst(index, m, source, limit, i); }
    UpsertedJust(index, m, source, first, chosen);
  }

  /** A call without limit and watermark stores exactly the records not held, selects all and writes
      those, for any page and batch size. */
  lemma FullIngest(index: Index, m: string, source: seq<Record>, requestedSize: int, batchSetting: int)
    requires Listing(source)
    ensures var end := Ingested(index, m, source, None, requestedSize, None, batchSetting, NoFailure());
      && StoresJust(index, m, source, (i: nat) => i < |source| && !Holds(index, m, source[i]), end.0)
      && end.1.selected == |source| && end.1.written == Missing(index, m, source)
      && end.1.skipped == |source| - Missing(index, m, source)
  {
    var chosen := (i: nat) => i < |source| && !Holds(index, m, source[i]);
    FullRunIs(index, m, source, PageSize(requestedSize), Batch(batchSetting));
    CountsAddUp(index, m, source, None, requestedSize, None, Batch(batchSetting), NoFailure());
    MissingIsStale(index, m, source);
    StaleAreAll(index, m, source);
    UpsertedJust(index, m, source, Stale(index, m, source), chosen);
  }

  /** Whatever fails while hashes are loaded: afterwards every record is held, and no point of
      another id or module has changed. */
  lemma FullIngestHolds(index: Index, m: string, source: seq<Record>, requestedSize: int, batchSetting: int,
                        failAt: nat -> Option<nat>)
    requires Listing(source)
    ensures var end := Ingested(index, m, source, None, requestedSize, None, batchSetting, failAt).0;
      && (forall r | r in source :: Holds(end, m, r))
      && forall k: Key | forall r | r in source :: (m, r.id) != k :: SameAt(index, end, k)
  {
    var end := Ingested(index, m, source, None, requestedSize, None, batchSetting, failAt).0;
    CompleteDespiteFailures(index, m, source, PageSize(requestedSize), Batch(batchSetting), failAt);
    forall r | r in source ensures Holds(end, m, r) { assert Current(end, m, r); }
    forall k: Key | forall r | r in source :: (m, r.id) != k ensures SameAt(index, end, k) {
      assert forall r | r in source :: KeyOf(m, r) != k;
    }
  }

  /** When the retrieval of chunk `f` of the hashes fails, the records of the chunks before it are
      compared and the others are written unseen. */
  lemma FailedLoadWrites(index: Index, m: string, rs: seq<Record>, batch: nat, f: nat, i: nat)
    requires Listing(rs) && i < |rs|
    ensures rs[i] in Writes(index, m, rs, batch, Some(f)) <==> !Holds(index, m, rs[i]) || i >= f * batch
  {
    var n := Loaded(|rs|, batch, Some(f));
    var known := Known(index, m, rs[..n]);
    KnownIs(index, m, rs[..n], (m, rs[i].id));
    ChangedIs(known, m, rs, rs[i]);
    if i < n { assert rs[..n][i] == rs[i]; }
  }

  lemma {:induction false} ChangedIs(known: map<Key, string>, m: string, rs: seq<Record>, r: Record)
    ensures r in Changed(known, m, rs) <==> r in rs && !((m, r.id) in known && known[(m, r.id)] == r.hash)
  {
    if rs != [] {
      ChangedIs(known, m, rs[..|rs| - 1], r);
      assert rs == rs[..|rs| - 1] + [rs[|rs| - 1]];
    }
  }

  // ---------------------------------------------------------------- incremental

  /** The page at `at` is the last: it is short, or a record on it is older than the watermark. */
  predicate LastPage(source: seq<Record>, w: Option<int>, size: nat, at: nat) {
    at + size > |source| || exists i | at <= i < at + size :: Older(w, source[i])
  }

  lemma PageReaches(source: seq<Record>, w: Option<int>, at: nat, n: nat)
    requires at + n <= |source|
    ensures ReachesExisting(source[at..at + n], w) <==> exists i | at <= i < at + n :: Older(w, source[i])
  {
    var page := source[at..at + n];
    if i :| at <= i < at + n && Older(w, source[i]) { assert !Selects(w, page[i - at]); }
    if ReachesExisting(page, w) {
      var j :| 0 <= j < n && !Selects(w, page[j]);
      assert Older(w, source[at + j]);
    }
  }

  lemma StopStep(source: seq<Record>, w: Option<int>, size: nat, at: nat)
    requires size > 0 && at <= |source|
    ensures if LastPage(source, w, size, at) then StopAt(source, at, size, w) == Min(at + size, |source|)
            else at + size <= |source| && StopAt(source, at, size, w) == StopAt(source, at + size, size, w)
  {
    PageReaches(source, w, at, PageLength(source, at, None, size));
  }

  /** The pages before the one at `at` are all full, and no record on them is older. */
  predicate ReadsUpTo(source: seq<Record>, w: Option<int>, size: nat, at: nat)
    requires size > 0
  {
    at == 0 || (at >= size && ReadsUpTo(source, w, size, at - size) && !LastPage(source, w, size, at - size))
  }

  lemma ReadsBack(source: seq<Record>, w: Option<int>, size: nat, at: nat)
    requires size > 0 && 0 < at <= |source| && ReadsUpTo(source, w, size, at)
    ensures at >= size && ReadsUpTo(source, w, size, at - size)
    ensures StopAt(source, at - size, size, w) == StopAt(source, at, size, w)
  {
    StopStep(source, w, size, at - size);
  }

  lemma {:induction false} StopBehind(source: seq<Record>, w: Option<int>, size: nat, at: nat, stop: nat)
    requires size > 0 && at <= |source| && ReadsUpTo(source, w, size, at)
    requires stop == StopAt(source, 0, size, w)
    ensures stop == StopAt(source, at, size, w)
  {
    if at > 0 {
      ReadsBack(source, w, size, at);
      StopBehind(source, w, size, at - size, stop);
    }
  }

  /** What is to be written of the records read. */
  lemma DueIs(index: Index, m: string, source: seq<Record>, w: Option<int>, stop: nat, i: nat)
    requires Listing(source) && stop <= |source| && i < |source|
    ensures source[i] in Stale(index, m, Selected(source[..stop], w)) <==>
      i < stop && !Holds(index, m, source[i]) && !Older(w, source[i])
  {
    StaleAreAll(index, m, Selected(source[..stop], w));
    SelectedIs(source[..stop], w, source[i]);
    TwoEnds(source, stop);
    if i < stop { assert source[..stop][i] == source[i]; } else { assert source[stop..][i - stop] == source[i]; }
  }

  lemma DueAreListed(index: Index, m: string, source: seq<Record>, w: Option<int>, stop: nat)
    requires stop <= |source|
    ensures forall x | x in Stale(index, m, Selected(source[..stop], w)) :: x in source
  {
    StaleAreAll(index, m, Selected(source[..stop], w));
    forall x | x in Stale(index, m, Selected(source[..stop], w)) ensures x in source { SelectedIs(source[..stop], w, x); }
  }

  lemma IncrementalStores(index: Index, m: string, source: seq<Record>, w: Option<int>, size: nat, batch: nat, stop: nat,
                          chosen: nat -> bool)
    requires Listing(source) && size > 0 && stop == StopAt(source, 0, size, w)
    requires forall i | 0 <= i < |source| :: chosen(i) <==> i < stop && !Holds(index, m, source[i]) && !Older(w, source[i])
    ensures StoresJust(index, m, source, chosen, IncrementalRun(index, m, source, size, w, batch).0)
  {
    IncrementalRunIs(index, m, source, size, w, batch);
    DueAreListed(index, m, source, w, stop);
    forall i | 0 <= i < |source| ensures chosen(i) <==> source[i] in Stale(index, m, Selected(source[..stop], w)) {
      DueIs(index, m, source, w, stop, i);
    }
    UpsertedJust(index, m, source, Stale(index, m, Selected(source[..stop], w)), chosen);
  }

  /** A call without limit reads page by page up to the first that is short or reaches a record older
      than the watermark, the one at `last`; of what it read it stores exactly the records that are
      neither held nor older. A page has one to five hundred records, whatever is asked for. */
  lemma IncrementalIngest(index: Index, m: string, source: seq<Record>, requestedSize: int, w: Option<int>,
                          batchSetting: int, size: nat, last: nat)
    requires Listing(source) && last <= |source|
    requires size == if requestedSize < 1 then 1 else if requestedSize > 500 then 500 else requestedSize
    requires ReadsUpTo(source, w, size, last) && LastPage(source, w, size, last)
    ensures var end := Ingested(index, m, source, None, requestedSize, w, batchSetting, NoFailure());
      StoresJust(index, m, source,
        (i: nat) => i < |source| && i < last + size && !Holds(index, m, source[i]) && !Older(w, source[i]), end.0)
  {
    StopBehind(source, w, size, last, StopAt(source, 0, size, w));
    StopStep(source, w, size, last);
    IncrementalStores(index, m, source, w, size, Batch(batchSetting), Min(last + size, |source|),
      (i: nat) => i < |source| && i < last + size && !Holds(index, m, source[i]) && !Older(w, source[i]));
  }

  /** There always is such a page. */
  lemma {:induction false} SomeLastPage(source: seq<Record>, w: Option<int>, size: nat, at: nat) returns (last: nat)
    requires size > 0 && at <= |source| && ReadsUpTo(source, w, size, at)
    ensures last <= |source| && ReadsUpTo(source, w, size, last) && LastPage(source, w, size, last)
    decreases |source| - at
  {
    last := at;
    if !LastPage(source, w, size, at) { last := SomeLastPage(source, w, size, at + size); }
  }

  lemma CanonicalIs(before: string, name: string, after: string)
    requires AllSpace(before) && AllSpace(after)
    requires name != "" && !IsSpace(name[0]) && !IsSpace(name[|name| - 1])
    ensures Canonical(before + name + after) == Lower(name) != ""
  {
    StripOuter(before, name, after);
  }

  /** Points filed under a name that differs in letter case or has whitespace around it are read back
      for the module all the same. */
  lemma NamesAlike(m: string, before: string, name: string, after: string, id: string)
    requires AllSpace(before) && AllSpace(after)
    requires m != "" && !IsSpace(m[0]) && !IsSpace(m[|m| - 1])
    requires name != "" && !IsSpace(name[0]) && !IsSpace(name[|name| - 1])
    ensures OfModule(m, (before + name + after, id)) <==> Lower(name) == Lower(m)
  {
    CanonicalIs(before, name, after);
    assert "" + m + "" == m;
    CanonicalIs("", m, "");
  }
}
