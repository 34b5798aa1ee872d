/** Runs in which the loading of hashes fails, on any page at any chunk: they write more than they
    need to and are as complete as others. */
module RagFailures {
  import opened Wrappers
  import opened RagIngest
  import opened RagAgreement

  // ---------------------------------------------------------------- one page

  /** Records with one id are one record, and each has a hash. */
  predicate Distinct(rs: seq<Record>) {
    && (forall x, y | x in rs && y in rs && x.id == y.id :: x == y)
    && forall r | r in rs :: r.hash != ""
  }

  lemma SelectedDistinct(page: seq<Record>, w: Option<int>)
    requires Listing(page)
    ensures Distinct(Selected(page, w))
  {
    forall x, y | x in Selected(page, w) && y in Selected(page, w) && x.id == y.id ensures x == y {
      SelectedIs(page, w, x);
      SelectedIs(page, w, y);
    }
    forall r | r in Selected(page, w) ensures r.hash != "" { SelectedIs(page, w, r); }
  }

  lemma CompletesThen(index: Index, m: string, a: seq<Record>, b: seq<Record>, mid: Index, end: Index)
    requires forall x, y | x in a && y in b :: x.id != y.id
    requires Completes(index, m, a, mid) && Completes(mid, m, b, end)
    ensures Completes(index, m, a + b, end)
  {
    forall r | r in a + b ensures Current(end, m, r) {
      if r in a {
        assert Current(mid, m, r);
        assert forall x | x in b :: KeyOf(m, x) != KeyOf(m, r);
      }
    }
    forall k: Key | forall r | r in a + b :: KeyOf(m, r) != k
      ensures (k in end <==> k in index) && (k in index ==> end[k] == index[k])
    {
      assert forall r | r in a :: KeyOf(m, r) != k by { assert forall r | r in a :: r in a + b; }
      assert forall r | r in b :: KeyOf(m, r) != k by { assert forall r | r in b :: r in a + b; }
    }
  }

  /** However many hashes were loaded, the records become current and no other point changes. */
  lemma WritesComplete(index: Index, m: string, rs: seq<Record>, batch: nat, failAt: Option<nat>)
    requires Distinct(rs)
    ensures Completes(index, m, rs, Upserted(index, m, Writes(index, m, rs, batch, failAt)))
  {
    var some := rs[..Loaded(|rs|, batch, failAt)];
    var written := Changed(Known(index, m, some), m, rs);
    var next := Upserted(index, m, written);
    ChangedAreSome(Known(index, m, some), m, rs);
    forall r | r in rs ensures Current(next, m, r) {
      OthersAreCurrent(index, m, some, rs, r);
      if r in written {
        UpsertedCurrent(index, m, written, r);
      } else {
        UpsertedOthers(index, m, written, KeyOf(m, r));
      }
    }
    forall k: Key | forall r | r in rs :: KeyOf(m, r) != k
      ensures (k in next <==> k in index) && (k in index ==> next[k] == index[k])
    {
      UpsertedOthers(index, m, written, k);
    }
  }

  /** What one page does, whatever fails: the records it selects become current. */
  ghost predicate PageIsCompleted(work: Work, m: string, w: Option<int>, index: Index, page: seq<Record>, asked: nat,
                                  offset: nat) {
    Listing(page) ==> Completes(index, m, Selected(page, w), work(index, page, asked, offset).0)
  }

  ghost predicate Completing(work: Work, m: string, w: Option<int>) {
    forall index: Index, page: seq<Record>, asked: nat, offset: nat :: PageIsCompleted(work, m, w, index, page, asked, offset)
  }

  lemma WorkIsCompleting(m: string, w: Option<int>, batch: nat, failAt: nat -> Option<nat>)
    ensures Completing(WorkOf(m, w, batch, failAt), m, w)
  {
    forall index: Index, page: seq<Record>, asked: nat, offset: nat
      ensures PageIsCompleted(WorkOf(m, w, batch, failAt), m, w, index, page, asked, offset)
    {
      WorkIs(m, w, batch, failAt, index, page, asked, offset);
      if Listing(page) {
        SelectedDistinct(page, w);
        WritesComplete(index, m, Selected(page, w), batch, failAt(offset));
      }
    }
  }

  // ---------------------------------------------------------------- whole runs

  ghost predicate CompletesTo(m: string, source: seq<Record>, w: Option<int>, index: Index, offset: nat, stop: nat,
                              end: Index) {
    offset <= stop <= |source| && Completes(index, m, Selected(source[offset..stop], w), end)
  }

  lemma CompletesOn(m: string, source: seq<Record>, w: Option<int>, index: Index, offset: nat, n: nat, stop: nat,
                    mid: Index, end: Index)
    requires Listing(source) && offset + n <= |source|
    requires Completes(index, m, Selected(source[offset..offset + n], w), mid)
    requires CompletesTo(m, source, w, mid, offset + n, stop, end)
    ensures CompletesTo(m, source, w, index, offset, stop, end)
  {
    var front := source[..stop];
    var page, rest := source[offset..offset + n], source[offset + n..stop];
    assert front[offset..offset + n] == page && front[offset + n..] == rest && front[offset..] == source[offset..stop];
    assert source[0..stop] == front;
    PartListing(source, 0, stop);
    SplitPage(front, offset, n);
    SelectedAppend(page, rest, w);
    SelectedParts(page, rest, w);
    CompletesThen(index, m, Selected(page, w), Selected(rest, w), mid, end);
  }

  ghost function CompletesClaim(m: string, source: seq<Record>, w: Option<int>): Claim {
    (index: Index, so: Stats, offset: nat, stop: nat, end: (Index, Stats)) => CompletesTo(m, source, w, index, offset, stop, end.0)
  }

  lemma NothingCompletes(m: string, source: seq<Record>, w: Option<int>, index: Index, offset: nat)
    requires offset <= |source|
    ensures CompletesTo(m, source, w, index, offset, offset, index)
  {
  }

  lemma CompletesBefore(work: Work, m: string, source: seq<Record>, w: Option<int>, index: Index, offset: nat, n: nat,
                        asked: nat, stop: nat, end: Index)
    requires Completing(work, m, w) && Listing(source) && offset + n <= |source|
    ensures var p := work(index, source[offset..offset + n], asked, offset);
      CompletesTo(m, source, w, p.0, offset + n, stop, end) ==> CompletesTo(m, source, w, index, offset, stop, end)
  {
    var p := work(index, source[offset..offset + n], asked, offset);
    PartListing(source, offset, offset + n);
    assert PageIsCompleted(work, m, w, index, source[offset..offset + n], asked, offset);
    if CompletesTo(m, source, w, p.0, offset + n, stop, end) {
      CompletesOn(m, source, w, index, offset, n, stop, p.0, end);
    }
  }

  lemma CompletesInductiveAt(work: Work, m: string, source: seq<Record>, w: Option<int>, index: Index, so: Stats,
                             offset: nat, n: nat, asked: nat)
    requires Completing(work, m, w) && Listing(source)
    ensures InductiveAt(work, source, CompletesClaim(m, source, w), index, so, offset, n, asked)
  {
    if offset + n <= |source| {
      var p := work(index, source[offset..offset + n], asked, offset);
      NothingCompletes(m, source, w, index, offset);
      NothingCompletes(m, source, w, p.0, offset + n);
      forall stop: nat, end: (Index, Stats) ensures
        CompletesTo(m, source, w, p.0, offset + n, stop, end.0) ==> CompletesTo(m, source, w, index, offset, stop, end.0)
      {
        CompletesBefore(work, m, source, w, index, offset, n, asked, stop, end.0);
      }
    }
  }

  /** A run with any failures, limited or not: the records it selects before it stops become current
      and no other point changes. */
  lemma RunCompletes(index: Index, m: string, source: seq<Record>, w: Option<int>, remaining: Option<nat>, size: nat,
                     batch: nat, failAt: nat -> Option<nat>)
    requires Listing(source)
    ensures var work := WorkOf(m, w, batch, failAt);
      Completes(index, m, Selected(source[..RunStop(work, index, source, 0, remaining, size)], w),
                Pages(work, index, NOTHING, source, 0, remaining, size).0)
  {
    var work := WorkOf(m, w, batch, failAt);
    var stop := RunStop(work, index, source, 0, remaining, size);
    WorkIsCompleting(m, w, batch, failAt);
    forall index: Index, so: Stats, offset: nat, n: nat, asked: nat
      ensures InductiveAt(work, source, CompletesClaim(m, source, w), index, so, offset, n, asked)
    {
      CompletesInductiveAt(work, m, source, w, index, so, offset, n, asked);
    }
    PagesInduct(work, source, size, CompletesClaim(m, source, w), index, NOTHING, 0, remaining, stop,
                Pages(work, index, NOTHING, source, 0, remaining, size));
    assert source[0..stop] == source[..stop];
  }

  /** Whatever fails while hashes are loaded, an incremental run makes every record current if and
      only if each one that has to be written passes the watermark and stands before the stop. */
  lemma IncrementalDespiteFailures(index: Index, m: string, source: seq<Record>, w: Option<int>, size: nat, batch: nat,
                                   failAt: nat -> Option<nat>)
    requires Listing(source)
    ensures var end := Pages(WorkOf(m, w, batch, failAt), index, NOTHING, source, 0, None, size).0;
      (forall r | r in source :: Current(end, m, r)) <==> Reached(index, m, source, w, StopAt(source, 0, size, w))
  {
    var work := WorkOf(m, w, batch, failAt);
    WorkStops(m, w, batch, failAt);
    UnlimitedStop(work, index, source, size, w);
    RunCompletes(index, m, source, w, None, size, batch, failAt);
    forall r | r in source
      ensures Current(Pages(work, index, NOTHING, source, 0, None, size).0, m, r) <==>
        Current(index, m, r) || (Selects(w, r) && r in source[..StopAt(source, 0, size, w)])
    {
      SelectedOrAsBefore(index, m, source, w, StopAt(source, 0, size, w), Pages(work, index, NOTHING, source, 0, None, size).0, r);
    }
  }

  lemma SelectedOrAsBefore(index: Index, m: string, source: seq<Record>, w: Option<int>, stop: nat, end: Index, r: Record)
    requires stop <= |source| && Listing(source) && r in source
    requires Completes(index, m, Selected(source[..stop], w), end)
    ensures Current(end, m, r) <==> Current(index, m, r) || (Selects(w, r) && r in source[..stop])
  {
    SelectedIs(source[..stop], w, r);
    ListingUnique(source, r);
    if r !in Selected(source[..stop], w) {
      forall x | x in Selected(source[..stop], w) ensures KeyOf(m, x) != KeyOf(m, r) {
        SelectedIs(source[..stop], w, x);
        assert x in source;
      }
    }
  }

  /** Whatever fails while hashes are loaded, a full run makes every record current and leaves
      every other point alone. */
  lemma CompleteDespiteFailures(index: Index, m: string, source: seq<Record>, size: nat, batch: nat,
                                failAt: nat -> Option<nat>)
    requires size > 0 && Listing(source)
    ensures Completes(index, m, source, Pages(WorkOf(m, None, batch, failAt), index, NOTHING, source, 0, None, size).0)
  {
    var work := WorkOf(m, None, batch, failAt);
    WorkStops(m, None, batch, failAt);
    FullStop(source, 0, size);
    UnlimitedStop(work, index, source, size, None);
    RunCompletes(index, m, source, None, None, size, batch, failAt);
    SelectedAll(source, None);
    assert source[..|source|] == source;
  }

  // ---------------------------------------------------------------- counts

  /** One page selects what it writes and what it finds unchanged. */
  predicate PageAddsUp(work: Work, index: Index, page: seq<Record>, asked: nat, offset: nat) {
    var p := work(index, page, asked, offset);
    p.1.selected == p.1.written + p.1.skipped && p.1.written <= |page|
  }

  ghost predicate Counting(work: Work) {
    forall index: Index, page: seq<Record>, asked: nat, offset: nat :: PageAddsUp(work, index, page, asked, offset)
  }

  lemma WorkIsCounting(m: string, w: Option<int>, batch: nat, failAt: nat -> Option<nat>)
    ensures Counting(WorkOf(m, w, batch, failAt))
  {
    forall index: Index, page: seq<Record>, asked: nat, offset: nat
      ensures PageAddsUp(WorkOf(m, w, batch, failAt), index, page, asked, offset)
    {
      WorkIs(m, w, batch, failAt, index, page, asked, offset);
    }
  }

  lemma {:induction false} PagesCount(work: Work, index: Index, so: Stats, source: seq<Record>, offset: nat,
                                      remaining: Option<nat>, size: nat, end: (Index, Stats))
    requires Counting(work) && offset <= |source| && so.selected == so.written + so.skipped
    requires end == Pages(work, index, so, source, offset, remaining, size)
    ensures end.1.selected == end.1.written + end.1.skipped
    ensures remaining.Some? ==> end.1.written <= so.written + remaining.value
    decreases |source| - offset
  {
    if remaining != Some(0) {
      var page := Listed(source, offset, remaining, size);
      var p := work(index, page, Asked(remaining, size), offset);
      assert PageAddsUp(work, index, page, Asked(remaining, size), offset);
      if !(p.2 || |page| == 0) {
        PagesCount(work, p.0, Plus(so, p.1), source, offset + |page|, Left(remaining, p.1.written), size, end);
      }
    }
  }

  /** In every run, limited or not, incremental or not, whatever fails: what is selected is either
      written or found unchanged, and never more points are written than the limit allows. */
  lemma CountsAddUp(index: Index, m: string, source: seq<Record>, limit: Option<int>, size: int, w: Option<int>,
                    batch: nat,
                    failAt: nat -> Option<nat>)
    ensures var end := Pages(WorkOf(m, w, batch, failAt), index, NOTHING, source, 0, Limit(limit), PageSize(size));
      && end.1.selected == end.1.written + end.1.skipped
      && (limit.Some? ==> end.1.written <= if limit.value < 0 then 0 else limit.value)
  {
    WorkIsCounting(m, w, batch, failAt);
    var work := WorkOf(m, w, batch, failAt);
    PagesCount(work, index, NOTHING, source, 0, Limit(limit), PageSize(size),
               Pages(work, index, NOTHING, source, 0, Limit(limit), PageSize(size)));
  }
}
