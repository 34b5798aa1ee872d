/** The search index against the CRM list it is ingested from: full runs are complete and
    idempotent, and exactly when an incremental run leaves the same index as a full one. */
module RagAgreement {
  import opened Wrappers
  import opened RagIngest

  /** Ids are distinct and every record has a hash. */
  predicate Listing(source: seq<Record>) {
    && (forall i, j | 0 <= i < j < |source| :: source[i].id != source[j].id)
    && forall r | r in source :: r.hash != ""
  }

  /** Every time parses, newest first. */
  predicate NewestFirst(source: seq<Record>) {
    && (forall r | r in source :: r.time.Some?)
    && forall i, j | 0 <= i < j < |source| :: source[i].time.value >= source[j].time.value
  }

  /** The records the index does not hold as they are. */
  function Stale(index: Index, m: string, rs: seq<Record>): (r: seq<Record>)
    ensures |r| <= |rs|
  {
    if rs == [] then []
    else
      var rest, last := Stale(index, m, rs[..|rs| - 1]), rs[|rs| - 1];
      if Current(index, m, last) then rest else rest + [last]
  }

  lemma {:induction false} StaleIs(index: Index, m: string, rs: seq<Record>, r: Record)
    ensures r in Stale(index, m, rs) <==> r in rs && !Current(index, m, r)
  {
    if rs != [] {
      var rest, last := rs[..|rs| - 1], rs[|rs| - 1];
      StaleIs(index, m, rest, r);
      assert r in rs <==> r in rest || r == last by { assert rs == rest + [last]; }
    }
  }

  lemma StaleAreAll(index: Index, m: string, rs: seq<Record>)
    ensures forall r :: r in Stale(index, m, rs) <==> r in rs && !Current(index, m, r)
  {
    forall r ensures r in Stale(index, m, rs) <==> r in rs && !Current(index, m, r) { StaleIs(index, m, rs, r); }
  }

  lemma {:induction false} ChangedAreSome(known: map<Key, string>, m: string, rs: seq<Record>)
    ensures forall r | r in Changed(known, m, rs) :: r in rs
  {
    if rs != [] {
      ChangedAreSome(known, m, rs[..|rs| - 1]);
      assert rs == rs[..|rs| - 1] + [rs[|rs| - 1]];
    }
  }

  function NoFailure(): nat -> Option<nat> {
    (page: nat) => None
  }

  // ---------------------------------------------------------------- one call of ingest_records

  lemma {:induction false} KnownIs(index: Index, m: string, rs: seq<Record>, k: Key)
    ensures var known := Known(index, m, rs);
      && (k in known <==> k in index && Trusted(index[k]) && exists i :: 0 <= i < |rs| && KeyOf(m, rs[i]) == k)
      && (k in known ==> known[k] == index[k].hash)
  {
    if rs != [] {
      var n := |rs| - 1;
      KnownIs(index, m, rs[..n], k);
      if i :| 0 <= i < |rs| && KeyOf(m, rs[i]) == k && i < n { assert KeyOf(m, rs[..n][i]) == k; }
      if i :| 0 <= i < n && KeyOf(m, rs[..n][i]) == k { assert KeyOf(m, rs[i]) == k; }
    }
  }

  /** With all hashes loaded, exactly the stale records are written. */
  lemma {:induction false} ChangedIsStale(index: Index, m: string, rs: seq<Record>, n: nat)
    requires n <= |rs|
    ensures Changed(Known(index, m, rs), m, rs[..n]) == Stale(index, m, rs[..n])
  {
    if n > 0 {
      ChangedIsStale(index, m, rs, n - 1);
      assert rs[..n][..n - 1] == rs[..n - 1];
      KnownIs(index, m, rs, KeyOf(m, rs[n - 1]));
    }
  }

  lemma WritesStale(index: Index, m: string, rs: seq<Record>, batch: nat)
    ensures Writes(index, m, rs, batch, None) == Stale(index, m, rs)
  {
    assert rs[..|rs|] == rs;
    ChangedIsStale(index, m, rs, |rs|);
  }

  /** However the loading of hashes fails, only current records are left out. */
  lemma {:induction false} OthersAreCurrent(index: Index, m: string, some: seq<Record>, rs: seq<Record>, r: Record)
    ensures r in rs && r !in Changed(Known(index, m, some), m, rs) ==> Current(index, m, r)
  {
    if rs != [] {
      var n := |rs| - 1;
      OthersAreCurrent(index, m, some, rs[..n], r);
      KnownIs(index, m, some, KeyOf(m, rs[n]));
      assert r in rs ==> r in rs[..n] || r == rs[n] by { assert rs == rs[..n] + [rs[n]]; }
    }
  }

  lemma {:induction false} UpsertedOthers(index: Index, m: string, rs: seq<Record>, k: Key)
    requires forall r | r in rs :: KeyOf(m, r) != k
    ensures (k in Upserted(index, m, rs) <==> k in index) && (k in index ==> Upserted(index, m, rs)[k] == index[k])
  {
    if rs != [] { UpsertedOthers(index, m, rs[..|rs| - 1], k); }
  }

  /** Records with one id have one hash, so after the upsert each is current. */
  lemma {:induction false} UpsertedCurrent(index: Index, m: string, rs: seq<Record>, r: Record)
    requires r in rs && r.hash != "" && forall x | x in rs && x.id == r.id :: x == r
    ensures Current(Upserted(index, m, rs), m, r)
  {
    var n := |rs| - 1;
    if rs[n] != r {
      assert rs == rs[..n] + [rs[n]];
      UpsertedCurrent(index, m, rs[..n], r);
    }
  }

  // ---------------------------------------------------------------- filters and pages

  lemma {:induction false} SelectedAppend(a: seq<Record>, b: seq<Record>, w: Option<int>)
    ensures Selected(a + b, w) == Selected(a, w) + Selected(b, w)
  {
    if b == [] {
      assert a + b == a;
    } else {
      assert (a + b)[..|a + b| - 1] == a + b[..|b| - 1];
      SelectedAppend(a, b[..|b| - 1], w);
    }
  }

  lemma {:induction false} StaleAppend(index: Index, m: string, a: seq<Record>, b: seq<Record>)
    ensures Stale(index, m, a + b) == Stale(index, m, a) + Stale(index, m, b)
  {
    if b == [] {
      assert a + b == a;
    } else {
      assert (a + b)[..|a + b| - 1] == a + b[..|b| - 1];
      StaleAppend(index, m, a, b[..|b| - 1]);
    }
  }

  lemma {:induction false} StaleAgrees(index: Index, other: Index, m: string, rs: seq<Record>)
    requires forall r | r in rs :: Current(index, m, r) == Current(other, m, r)
    ensures Stale(index, m, rs) == Stale(other, m, rs)
  {
    if rs != [] { StaleAgrees(index, other, m, rs[..|rs| - 1]); }
  }

  lemma {:induction false} SelectedIs(rs: seq<Record>, w: Option<int>, r: Record)
    ensures r in Selected(rs, w) <==> r in rs && Selects(w, r)
  {
    if rs != [] {
      SelectedIs(rs[..|rs| - 1], w, r);
      assert rs == rs[..|rs| - 1] + [rs[|rs| - 1]];
    }
  }

  lemma {:induction false} SelectedAll(rs: seq<Record>, w: Option<int>)
    ensures (forall r | r in rs :: Selects(w, r)) ==> Selected(rs, w) == rs
    ensures (forall r | r in rs :: !Selects(w, r)) ==> Selected(rs, w) == []
  {
    if rs != [] {
      SelectedAll(rs[..|rs| - 1], w);
      assert rs == rs[..|rs| - 1] + [rs[|rs| - 1]];
    }
  }

  /** Ingesting one part of a listing does not change what is stale of another part. */
  lemma OtherPart(index: Index, m: string, a: seq<Record>, b: seq<Record>)
    requires forall x, y | x in a && y in b :: x.id != y.id
    ensures Stale(Upserted(index, m, a), m, b) == Stale(index, m, b)
  {
    var next := Upserted(index, m, a);
    forall r | r in b ensures Current(index, m, r) == Current(next, m, r) { UpsertedOthers(index, m, a, KeyOf(m, r)); }
    StaleAgrees(index, next, m, b);
  }

  /** Ingesting two parts one after the other is ingesting them together. */
  lemma TwoParts(index: Index, m: string, a: seq<Record>, b: seq<Record>)
    requires forall x, y | x in a && y in b :: x.id != y.id
    ensures var next := Upserted(index, m, Stale(index, m, a));
      && Stale(next, m, b) == Stale(index, m, b)
      && Upserted(next, m, Stale(next, m, b)) == Upserted(index, m, Stale(index, m, a + b))
  {
    StaleAreAll(index, m, a);
    OtherPart(index, m, Stale(index, m, a), b);
    StaleAppend(index, m, a, b);
    UpsertedTwice(index, m, Stale(index, m, a), Stale(index, m, b));
  }

  /** The page at `offset` and the pages behind it. */
  lemma SplitPage(source: seq<Record>, offset: nat, n: nat)
    requires offset + n <= |source| && Listing(source)
    ensures source[offset..] == source[offset..offset + n] + source[offset + n..]
    ensures forall x, y | x in source[offset..offset + n] && y in source[offset + n..] :: x.id != y.id
  {
    forall x, y | x in source[offset..offset + n] && y in source[offset + n..] ensures x.id != y.id {
      var i :| 0 <= i < n && source[offset..offset + n][i] == x;
      var j :| 0 <= j < |source| - offset - n && source[offset + n..][j] == y;
      assert source[offset + i] == x && source[offset + n + j] == y;
    }
  }

  lemma PartListing(source: seq<Record>, i: nat, j: nat)
    requires i <= j <= |source| && Listing(source)
    ensures Listing(source[i..j])
  {
    var part := source[i..j];
    forall a, b | 0 <= a < b < |part| ensures part[a].id != part[b].id {
      assert part[a] == source[i + a] && part[b] == source[i + b];
    }
  }

  // ---------------------------------------------------------------- whole runs

  /** A run that selects `rs` from the list: the stale ones are written, once. */
  predicate Ran(before: Index, so: Stats, m: string, rs: seq<Record>, after: (Index, Stats)) {
    && after.0 == Upserted(before, m, Stale(before, m, rs))
    && after.1.written == so.written + |Stale(before, m, rs)|
    && after.1.selected == so.selected + |rs|
  }

  /** What one page does when all hashes are loaded: its selected stale records are written. */
  predicate PageWritesStale(work: Work, m: string, w: Option<int>, index: Index, page: seq<Record>, asked: nat,
                            offset: nat) {
    var p, selected := work(index, page, asked, offset), Selected(page, w);
    && p.0 == Upserted(index, m, Stale(index, m, selected))
    && p.1.written == |Stale(index, m, selected)| && p.1.selected == |selected|
    && (p.2 <==> page == [] || ReachesExisting(page, w) || |page| < asked)
  }

  ghost predicate Faithful(work: Work, m: string, w: Option<int>) {
    forall index: Index, page: seq<Record>, asked: nat, offset: nat :: PageWritesStale(work, m, w, index, page, asked, offset)
  }

  lemma WorkIsFaithful(m: string, w: Option<int>, batch: nat)
    ensures Faithful(WorkOf(m, w, batch, NoFailure()), m, w)
  {
    forall index: Index, page: seq<Record>, asked: nat, offset: nat
      ensures PageWritesStale(WorkOf(m, w, batch, NoFailure()), m, w, index, page, asked, offset)
    {
      WorkIs(m, w, batch, NoFailure(), index, page, asked, offset);
      PageWrites(index, m, page, asked, w, batch);
    }
  }

  lemma PageWrites(index: Index, m: string, page: seq<Record>, asked: nat, w: Option<int>, batch: nat)
    ensures var p, selected := Page(index, m, page, asked, w, batch, None), Selected(page, w);
      && p.0 == Upserted(index, m, Stale(index, m, selected))
      && p.1.written == |Stale(index, m, selected)| && p.1.selected == |selected|
      && (p.2 <==> page == [] || ReachesExisting(page, w) || |page| < asked)
  {
    WritesStale(index, m, Selected(page, w), batch);
    if page == [] { assert Stale(index, m, Selected(page, w)) == []; }
  }

  lemma RanThen(index: Index, so: Stats, m: string, a: seq<Record>, b: seq<Record>, mid: (Index, Stats), end: (Index,
                Stats))
    requires forall x, y | x in a && y in b :: x.id != y.id
    requires Ran(index, so, m, a, mid) && Ran(mid.0, mid.1, m, b, end)
    ensures Ran(index, so, m, a + b, end)
  {
    TwoParts(index, m, a, b);
    StaleAppend(index, m, a, b);
  }

  lemma RanOn(index: Index, so: Stats, m: string, source: seq<Record>, offset: nat, n: nat, stop: nat, w: Option<int>,
              mid: (Index, Stats), end: (Index, Stats))
    requires offset + n <= stop <= |source| && Listing(source)
    requires Ran(index, so, m, Selected(source[offset..offset + n], w), mid)
    requires Ran(mid.0, mid.1, m, Selected(source[offset + n..stop], w), end)
    ensures Ran(index, so, m, Selected(source[offset..stop], w), end)
  {
    var front := source[..stop];
    var page, rest := source[offset..offset + n], source[offset + n..stop];
    assert front[offset..offset + n] == page && front[offset + n..] == rest && front[offset..] == source[offset..stop];
    assert source[0..stop] == front;
    PartListing(source, 0, stop);
    SplitPage(front, offset, n);
    SelectedAppend(page, rest, w);
    SelectedParts(page, rest, w);
    RanThen(index, so, m, Selected(page, w), Selected(rest, w), mid, end);
  }

  predicate EndsRun(page: seq<Record>, asked: nat, w: Option<int>) {
    |page| == 0 || |page| < asked || ReachesExisting(page, w)
  }

  /** Where an unlimited run stops reading: at the end of the first page that is short or reaches a
      record older than the watermark. */
  function StopAt(source: seq<Record>, offset: nat, size: nat, w: Option<int>): (stop: nat)
    requires offset <= |source|
    ensures offset <= stop <= |source|
    decreases |source| - offset
  {
    var n := PageLength(source, offset, None, size);
    if EndsRun(source[offset..offset + n], size, w) then offset + n else StopAt(source, offset + n, size, w)
  }

  /** Where a run stops reading. */
  function RunStop(work: Work, index: Index, source: seq<Record>, offset: nat, remaining: Option<nat>, size: nat): (stop: nat)
    requires offset <= |source|
    ensures offset <= stop <= |source|
    decreases |source| - offset
  {
    if remaining == Some(0) then offset
    else
      var n := PageLength(source, offset, remaining, size);
      var p := work(index, Listed(source, offset, remaining, size), Asked(remaining, size), offset);
      if p.2 || n == 0 then offset + n
      else RunStop(work, p.0, source, offset + n, Left(remaining, p.1.written), size)
  }

  /** Something said of a run: the index and counts it starts with, its offset, its stop, its end. */
  type Claim = (Index, Stats, nat, nat, (Index, Stats)) -> bool

  /** The claim holds before any page, and of a page before pages of which it holds. */
  ghost predicate InductiveAt(work: Work, source: seq<Record>, claim: Claim, index: Index, so: Stats, offset: nat, n: nat,
                              asked: nat) {
    offset + n <= |source| ==>
      var p := work(index, source[offset..offset + n], asked, offset);
      && claim(index, so, offset, offset, (index, so))
      && claim(p.0, Plus(so, p.1), offset + n, offset + n, (p.0, Plus(so, p.1)))
      && forall stop: nat, end: (Index, Stats) ::
           claim(p.0, Plus(so, p.1), offset + n, stop, end) ==> claim(index, so, offset, stop, end)
  }

  ghost predicate Inductive(work: Work, source: seq<Record>, claim: Claim) {
    forall index: Index, so: Stats, offset: nat, n: nat, asked: nat ::
      InductiveAt(work, source, claim, index, so, offset, n, asked)
  }

  lemma OnePage(work: Work, index: Index, so: Stats, source: seq<Record>, offset: nat, remaining: Option<nat>, size: nat)
    requires offset <= |source| && remaining != Some(0)
    ensures var n := PageLength(source, offset, remaining, size);
      var p := work(index, source[offset..offset + n], Asked(remaining, size), offset);
      && Pages(work, index, so, source, offset, remaining, size) ==
        (if p.2 || n == 0 then (p.0, Plus(so, p.1))
         else Pages(work, p.0, Plus(so, p.1), source, offset + n, Left(remaining, p.1.written), size))
      && RunStop(work, index, source, offset, remaining, size) ==
        if p.2 || n == 0 then offset + n
        else RunStop(work, p.0, source, offset + n, Left(remaining, p.1.written), size)
  {
  }

  /** What holds page by page holds of the run. */
  lemma {:induction false} PagesInduct(work: Work, source: seq<Record>, size: nat, claim: Claim, index: Index, so: Stats,
                                       offset: nat, remaining: Option<nat>, stop: nat, end: (Index, Stats))
    requires offset <= |source| && Inductive(work, source, claim)
    requires stop == RunStop(work, index, source, offset, remaining, size)
    requires end == Pages(work, index, so, source, offset, remaining, size)
    ensures claim(index, so, offset, stop, end)
    decreases |source| - offset
  {
    var asked, n := Asked(remaining, size), PageLength(source, offset, remaining, size);
    assert InductiveAt(work, source, claim, index, so, offset, n, asked);
    if remaining != Some(0) {
      OnePage(work, index, so, source, offset, remaining, size);
      var p := work(index, source[offset..offset + n], asked, offset);
      if !p.2 && n > 0 {
        PagesInduct(work, source, size, claim, p.0, Plus(so, p.1), offset + n, Left(remaining, p.1.written), stop, end);
      }
    }
  }

  /** A page ends a run when it is empty, short, or reaches a record older than the watermark. */
  predicate PageStops(work: Work, w: Option<int>, index: Index, page: seq<Record>, asked: nat, offset: nat) {
    work(index, page, asked, offset).2 <==> EndsRun(page, asked, w)
  }

  ghost predicate Stopping(work: Work, w: Option<int>) {
    forall index: Index, page: seq<Record>, asked: nat, offset: nat :: PageStops(work, w, index, page, asked, offset)
  }

  lemma WorkStops(m: string, w: Option<int>, batch: nat, failAt: nat -> Option<nat>)
    ensures Stopping(WorkOf(m, w, batch, failAt), w)
  {
    forall index: Index, page: seq<Record>, asked: nat, offset: nat
      ensures PageStops(WorkOf(m, w, batch, failAt), w, index, page, asked, offset)
    {
      WorkIs(m, w, batch, failAt, index, page, asked, offset);
    }
  }

  lemma {:induction false} StopsThere(work: Work, index: Index, source: seq<Record>, offset: nat, size: nat, w: Option<int>,
                                      stop: nat, halt: nat)
    requires offset <= |source| && Stopping(work, w)
    requires stop == StopAt(source, offset, size, w) && halt == RunStop(work, index, source, offset, None, size)
    ensures halt == stop
    decreases |source| - offset
  {
    var n := PageLength(source, offset, None, size);
    var p := work(index, source[offset..offset + n], size, offset);
    assert PageStops(work, w, index, source[offset..offset + n], size, offset);
    if !p.2 { StopsThere(work, p.0, source, offset + n, size, w, stop, halt); }
  }

  /** Where an unlimited run stops does not depend on the index. */
  lemma UnlimitedStop(work: Work, index: Index, source: seq<Record>, size: nat, w: Option<int>)
    requires Stopping(work, w)
    ensures RunStop(work, index, source, 0, None, size) == StopAt(source, 0, size, w)
  {
    StopsThere(work, index, source, 0, size, w, StopAt(source, 0, size, w), RunStop(work, index, source, 0, None, size));
  }

  predicate RanTo(m: string, source: seq<Record>, w: Option<int>, index: Index, so: Stats, offset: nat, stop: nat,
                  end: (Index, Stats)) {
    offset <= stop <= |source| && Ran(index, so, m, Selected(source[offset..stop], w), end)
  }

  function RanClaim(m: string, source: seq<Record>, w: Option<int>): Claim {
    (index: Index, so: Stats, offset: nat, stop: nat, end: (Index, Stats)) => RanTo(m, source, w, index, so, offset, stop, end)
  }

  lemma NothingRan(m: string, source: seq<Record>, w: Option<int>, index: Index, so: Stats, offset: nat)
    requires offset <= |source|
    ensures RanTo(m, source, w, index, so, offset, offset, (index, so))
  {
  }

  lemma RanBefore(work: Work, m: string, source: seq<Record>, w: Option<int>, index: Index, so: Stats, offset: nat, n: nat,
                  asked: nat, stop: nat, end: (Index, Stats))
    requires Faithful(work, m, w) && Listing(source) && offset + n <= |source|
    ensures var p := work(index, source[offset..offset + n], asked, offset);
      RanTo(m, source, w, p.0, Plus(so, p.1), offset + n, stop, end) ==> RanTo(m, source, w, index, so, offset, stop, end)
  {
    var p := work(index, source[offset..offset + n], asked, offset);
    PageRan(work, index, so, m, source[offset..offset + n], asked, w, offset);
    if RanTo(m, source, w, p.0, Plus(so, p.1), offset + n, stop, end) {
      RanOn(index, so, m, source, offset, n, stop, w, (p.0, Plus(so, p.1)), end);
    }
  }

  lemma RanInductiveAt(work: Work, m: string, source: seq<Record>, w: Option<int>, index: Index, so: Stats, offset: nat,
                       n: nat, asked: nat)
    requires Faithful(work, m, w) && Listing(source)
    ensures InductiveAt(work, source, RanClaim(m, source, w), index, so, offset, n, asked)
  {
    if offset + n <= |source| {
      var p := work(index, source[offset..offset + n], asked, offset);
      NothingRan(m, source, w, index, so, offset);
      NothingRan(m, source, w, p.0, Plus(so, p.1), offset + n);
      forall stop: nat, end: (Index, Stats) ensures
        RanTo(m, source, w, p.0, Plus(so, p.1), offset + n, stop, end) ==> RanTo(m, source, w, index, so, offset, stop, end)
      {
        RanBefore(work, m, source, w, index, so, offset, n, asked, stop, end);
      }
    }
  }

  /** A run over any list, limited or not, whatever its page and batch size: it writes exactly the
      stale ones among the records it selects before it stops. */
  lemma RunIs(work: Work, index: Index, m: string, source: seq<Record>, size: nat, w: Option<int>, remaining: Option<nat>)
    requires Faithful(work, m, w) && Listing(source)
    ensures RanTo(m, source, w, index, NOTHING, 0, RunStop(work, index, source, 0, remaining, size),
              Pages(work, index, NOTHING, source, 0, remaining, size))
  {
    forall index: Index, so: Stats, offset: nat, n: nat, asked: nat
      ensures InductiveAt(work, source, RanClaim(m, source, w), index, so, offset, n, asked)
    {
      RanInductiveAt(work, m, source, w, index, so, offset, n, asked);
    }
    PagesInduct(work, source, size, RanClaim(m, source, w), index, NOTHING, 0, remaining,
                RunStop(work, index, source, 0, remaining, size), Pages(work, index, NOTHING, source, 0, remaining, size));
  }

  lemma PageRan(work: Work, index: Index, so: Stats, m: string, page: seq<Record>, asked: nat, w: Option<int>,
                offset: nat)
    requires Faithful(work, m, w)
    ensures var p := work(index, page, asked, offset);
      && Ran(index, so, m, Selected(page, w), (p.0, Plus(so, p.1)))
      && (p.2 <==> page == [] || ReachesExisting(page, w) || |page| < asked)
  {
    assert PageWritesStale(work, m, w, index, page, asked, offset);
  }

  lemma SelectedParts(a: seq<Record>, b: seq<Record>, w: Option<int>)
    requires forall x, y | x in a && y in b :: x.id != y.id
    ensures forall x, y | x in Selected(a, w) && y in Selected(b, w) :: x.id != y.id
  {
    forall x, y | x in Selected(a, w) && y in Selected(b, w) ensures x.id != y.id {
      SelectedIs(a, w, x);
      SelectedIs(b, w, y);
    }
  }

  function FullRun(index: Index, m: string, source: seq<Record>, size: nat, batch: nat): (Index, Stats) {
    Pages(WorkOf(m, None, batch, NoFailure()), index, NOTHING, source, 0, None, size)
  }

  function IncrementalRun(index: Index, m: string, source: seq<Record>, size: nat, w: Option<int>,
                          batch: nat): (Index, Stats) {
    Pages(WorkOf(m, w, batch, NoFailure()), index, NOTHING, source, 0, None, size)
  }

  /** A run without a watermark reads the whole list. */
  lemma {:induction false} FullStop(source: seq<Record>, offset: nat, size: nat)
    requires offset <= |source| && size > 0
    ensures StopAt(source, offset, size, None) == |source|
    decreases |source| - offset
  {
    var n := PageLength(source, offset, None, size);
    if n == size { FullStop(source, offset + n, size); }
  }

  lemma IncrementalRunIs(index: Index, m: string, source: seq<Record>, size: nat, w: Option<int>, batch: nat)
    requires size > 0 && Listing(source)
    ensures Ran(index, NOTHING, m, Selected(source[..StopAt(source, 0, size, w)], w), IncrementalRun(index, m, source, size, w, batch))
  {
    var work, stop := WorkOf(m, w, batch, NoFailure()), StopAt(source, 0, size, w);
    WorkIsFaithful(m, w, batch);
    RunIs(work, index, m, source, size, w, None);
    WorkStops(m, w, batch, NoFailure());
    UnlimitedStop(work, index, source, size, w);
    assert source[0..stop] == source[..stop];
  }

  lemma FullRunIs(index: Index, m: string, source: seq<Record>, size: nat, batch: nat)
    requires size > 0 && Listing(source)
    ensures Ran(index, NOTHING, m, source, FullRun(index, m, source, size, batch))
  {
    IncrementalRunIs(index, m, source, size, None, batch);
    FullStop(source, 0, size);
    assert source[..|source|] == source;
    SelectedAll(source, None);
  }

  lemma ListingUnique(source: seq<Record>, r: Record)
    requires Listing(source) && r in source
    ensures forall x | x in source && x.id == r.id :: x == r
  {
  }

  /** The listing is current and every other point as before. */
  ghost predicate Completes(index: Index, m: string, rs: seq<Record>, end: Index) {
    && (forall r | r in rs :: Current(end, m, r))
    && (forall k: Key | forall r | r in rs :: KeyOf(m, r) != k :: (k in end <==> k in index) && (k in index ==> end[k] == index[k]))
  }

  /** Ingesting what is stale makes the whole listing current and touches nothing else. */
  lemma StaleIngested(index: Index, m: string, source: seq<Record>)
    requires Listing(source)
    ensures var next := Upserted(index, m, Stale(index, m, source));
      Completes(index, m, source, next) && Stale(next, m, source) == []
  {
    var stale := Stale(index, m, source);
    var next := Upserted(index, m, stale);
    StaleAreAll(index, m, source);
    forall r | r in source ensures Current(next, m, r) {
      ListingUnique(source, r);
      if r in stale {
        UpsertedCurrent(index, m, stale, r);
      } else {
        UpsertedOthers(index, m, stale, KeyOf(m, r));
      }
    }
    forall k: Key | forall r | r in source :: KeyOf(m, r) != k
      ensures (k in next <==> k in index) && (k in index ==> next[k] == index[k])
    {
      UpsertedOthers(index, m, stale, k);
    }
    NothingStale(next, m, source);
  }

  lemma {:induction false} NothingStale(index: Index, m: string, rs: seq<Record>)
    requires forall r | r in rs :: Current(index, m, r)
    ensures Stale(index, m, rs) == []
  {
    if rs != [] { NothingStale(index, m, rs[..|rs| - 1]); }
  }

  /** A full run indexes every record with its current hash, leaves every other point alone, and
      writes nothing when it is run again, for any page and batch sizes. */
  lemma FullRunTwice(index: Index, m: string, source: seq<Record>, size: nat, batch: nat, size2: nat, batch2: nat)
    requires size > 0 && size2 > 0 && Listing(source)
    ensures var once := FullRun(index, m, source, size, batch); var twice := FullRun(once.0, m, source, size2, batch2);
      && Completes(index, m, source, once.0)
      && once.1.selected == |source|
      && twice.0 == once.0 && twice.1.written == 0
  {
    var once := FullRun(index, m, source, size, batch);
    FullRunIs(index, m, source, size, batch);
    StaleIngested(index, m, source);
    FullRunIs(once.0, m, source, size2, batch2);
  }

  // ---------------------------------------------------------------- incremental runs

  /** Every record that has to be written is listed with a time at or after the watermark. */
  predicate WatermarkCovers(index: Index, m: string, source: seq<Record>, w: Option<int>) {
    forall r | r in source && !Current(index, m, r) :: Selects(w, r)
  }

  lemma {:induction false} StaleSelected(index: Index, m: string, rs: seq<Record>, w: Option<int>)
    requires WatermarkCovers(index, m, rs, w)
    ensures Stale(index, m, Selected(rs, w)) == Stale(index, m, rs)
  {
    if rs != [] {
      var rest, last := rs[..|rs| - 1], rs[|rs| - 1];
      StaleSelected(index, m, rest, w);
      if Selects(w, last) {
        var s := Selected(rest, w);
        assert (s + [last])[..|s|] == s;
      }
    }
  }

  /** Every record that has to be written is selected before the run stops. */
  predicate Reached(index: Index, m: string, source: seq<Record>, w: Option<int>, stop: nat)
    requires stop <= |source|
  {
    forall r | r in source && !Current(index, m, r) :: Selects(w, r) && r in source[..stop]
  }

  /** Records before and behind a point of a listing have different ids. */
  lemma TwoEnds(source: seq<Record>, stop: nat)
    requires stop <= |source| && Listing(source)
    ensures source == source[..stop] + source[stop..]
    ensures forall x, y | x in source[..stop] && y in source[stop..] :: x.id != y.id
  {
    SplitPage(source, 0, stop);
    assert source[0..] == source && source[0..0 + stop] == source[..stop] && source[0 + stop..] == source[stop..];
  }

  lemma ReachedStale(index: Index, m: string, source: seq<Record>, w: Option<int>, stop: nat)
    requires stop <= |source| && Listing(source) && Reached(index, m, source, w, stop)
    ensures Stale(index, m, Selected(source[..stop], w)) == Stale(index, m, source)
  {
    var front, back := source[..stop], source[stop..];
    TwoEnds(source, stop);
    StaleSelected(index, m, front, w);
    StaleAppend(index, m, front, back);
    NothingStale(index, m, back);
    assert Stale(index, m, front) + [] == Stale(index, m, front);
  }

  /** A record that is not selected before the stop stays as it was. */
  lemma Missed(index: Index, m: string, source: seq<Record>, w: Option<int>, stop: nat, r: Record)
    requires stop <= |source| && Listing(source) && r in source && !(Selects(w, r) && r in source[..stop])
    ensures Current(Upserted(index, m, Stale(index, m, Selected(source[..stop], w))), m, r) == Current(index, m, r)
  {
    var selected := Selected(source[..stop], w);
    ListingUnique(source, r);
    StaleAreAll(index, m, selected);
    forall x | x in Stale(index, m, selected) ensures KeyOf(m, x) != KeyOf(m, r) {
      SelectedIs(source[..stop], w, x);
      assert x in source;
    }
    UpsertedOthers(index, m, Stale(index, m, selected), KeyOf(m, r));
  }

  /** Writing what is stale of the records selected before a stop makes every record current if and
      only if all stale ones are selected before it. */
  lemma SelectedCompleteIff(index: Index, m: string, source: seq<Record>, w: Option<int>, stop: nat, end: Index)
    requires stop <= |source| && Listing(source)
    requires end == Upserted(index, m, Stale(index, m, Selected(source[..stop], w)))
    ensures (forall r | r in source :: Current(end, m, r)) <==> Reached(index, m, source, w, stop)
  {
    if Reached(index, m, source, w, stop) {
      ReachedStale(index, m, source, w, stop);
      StaleIngested(index, m, source);
    } else {
      var r :| r in source && !Current(index, m, r) && !(Selects(w, r) && r in source[..stop]);
      Missed(index, m, source, w, stop, r);
      assert !Current(end, m, r);
    }
  }

  /** Against any list at all, for any page and batch sizes: an incremental run makes every record
      current, and leaves the index of a full run, if and only if each record that has to be written
      is at or after the watermark, or has no time, and stands before the end of the first page that
      is short or reaches an older record. */
  lemma IncrementalCompleteIff(index: Index, m: string, source: seq<Record>, w: Option<int>, size: nat, batch: nat,
                               size2: nat, batch2: nat)
    requires size > 0 && size2 > 0 && Listing(source)
    ensures var end, stop := IncrementalRun(index, m, source, size, w, batch).0, StopAt(source, 0, size, w);
      && ((forall r | r in source :: Current(end, m, r)) <==> Reached(index, m, source, w, stop))
      && (end == FullRun(index, m, source, size2, batch2).0 <==> Reached(index, m, source, w, stop))
  {
    var end, stop := IncrementalRun(index, m, source, size, w, batch).0, StopAt(source, 0, size, w);
    IncrementalRunIs(index, m, source, size, w, batch);
    SelectedCompleteIff(index, m, source, w, stop, end);
    FullRunIs(index, m, source, size2, batch2);
    StaleIngested(index, m, source);
    if Reached(index, m, source, w, stop) { ReachedStale(index, m, source, w, stop); }
  }

  /** Behind a record older than the watermark every record is. */
  predicate Downhill(source: seq<Record>, w: Option<int>) {
    forall i, j | 0 <= i < j < |source| && !Selects(w, source[i]) :: !Selects(w, source[j])
  }

  lemma NewestFirstIsDownhill(source: seq<Record>, w: Option<int>)
    requires NewestFirst(source)
    ensures Downhill(source, w)
  {
    forall i, j | 0 <= i < j < |source| && !Selects(w, source[i]) ensures !Selects(w, source[j]) {
      assert source[i] in source && source[j] in source;
    }
  }

  lemma OldOnPage(source: seq<Record>, w: Option<int>, offset: nat, n: nat) returns (i: nat)
    requires offset + n <= |source| && ReachesExisting(source[offset..offset + n], w)
    ensures offset <= i < offset + n && !Selects(w, source[i])
  {
    var page := source[offset..offset + n];
    var j :| 0 <= j < n && !Selects(w, page[j]);
    i := offset + j;
  }

  /** A run stops at the end of the list or behind a record older than the watermark. */
  lemma {:induction false} StopReason(source: seq<Record>, offset: nat, size: nat, w: Option<int>, stop: nat)
    requires offset <= |source| && size > 0 && stop == StopAt(source, offset, size, w)
    ensures stop == |source| || exists i :: offset <= i < stop && !Selects(w, source[i])
    decreases |source| - offset
  {
    var n := PageLength(source, offset, None, size);
    if ReachesExisting(source[offset..offset + n], w) {
      var i := OldOnPage(source, w, offset, n);
    } else if n == size {
      StopReason(source, offset + n, size, w, stop);
    }
  }

  lemma NewestFirstReached(index: Index, m: string, source: seq<Record>, w: Option<int>, size: nat)
    requires size > 0 && Listing(source) && NewestFirst(source)
    ensures Reached(index, m, source, w, StopAt(source, 0, size, w)) <==> WatermarkCovers(index, m, source, w)
  {
    var stop := StopAt(source, 0, size, w);
    StopReason(source, 0, size, w, stop);
    NewestFirstIsDownhill(source, w);
    forall r | r in source && Selects(w, r) ensures r in source[..stop] {
      var j :| 0 <= j < |source| && source[j] == r;
      if j < stop { assert source[..stop][j] == r; }
    }
  }

  /** So against a list that is newest first with times that all parse, it is enough, and needed,
      that every record that has to be written is at or after the watermark. */
  lemma IncrementalAgreesIff(index: Index, m: string, source: seq<Record>, w: Option<int>, size: nat, batch: nat,
                             size2: nat, batch2: nat)
    requires size > 0 && size2 > 0 && Listing(source) && NewestFirst(source)
    ensures IncrementalRun(index, m, source, size, w, batch).0 == FullRun(index, m, source, size2, batch2).0
      <==> WatermarkCovers(index, m, source, w)
  {
    IncrementalCompleteIff(index, m, source, w, size, batch, size2, batch2);
    NewestFirstReached(index, m, source, w, size);
  }

  /** So an incremental run is enough when whatever changed since the last one has a time no older
      than anything indexed: the watermark is the newest of those times. */
  lemma ChangedSinceSync(index: Index, m: string, source: seq<Record>, w: Option<int>, size: nat, batch: nat)
    requires size > 0 && Listing(source) && NewestFirst(source) && IsWatermark(index, m, w)
    requires forall r, k | r in source && !Current(index, m, r) && k in index && OfModule(m, k) && index[k].time.Some? ::
      r.time.value >= index[k].time.value
    ensures forall r | r in source :: Current(IncrementalRun(index, m, source, size, w, batch).0, m, r)
  {
    forall r | r in source && !Current(index, m, r) ensures Selects(w, r) {
      if w.Some? { var k :| k in index && OfModule(m, k) && index[k].time == w; }
    }
    IncrementalAgreesIff(index, m, source, w, size, batch, size, batch);
    FullRunTwice(index, m, source, size, batch, size, batch);
  }

  /** And in any order, a record that has to be written is missed, however new it is, when it stands
      behind a page that reaches one older than the watermark. */
  lemma UnsortedMisses(index: Index, m: string, source: seq<Record>, w: Option<int>, size: nat, batch: nat, r: Record)
    requires 0 < size <= |source| && Listing(source) && ReachesExisting(source[..size], w)
    requires r in source[size..] && !Current(index, m, r)
    ensures !Current(IncrementalRun(index, m, source, size, w, batch).0, m, r)
  {
    assert source[0..0 + size] == source[..size] && PageLength(source, 0, None, size) == size;
    TwoEnds(source, size);
    IncrementalRunIs(index, m, source, size, w, batch);
    Missed(index, m, source, w, size, r);
  }
}
