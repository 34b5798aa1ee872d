/** Runs with a limit on the records they write, incremental or not. What they read depends on what
    they write: a page is never longer than the limit still allows. */
module RagLimits {
  import opened Wrappers
  import opened RagIngest
  import opened RagAgreement

  /** The first `j` of the records that have to be written. */
  function FirstStale(index: Index, m: string, rs: seq<Record>, j: nat): seq<Record> {
    Stale(index, m, rs)[..Min(j, |Stale(index, m, rs)|)]
  }

  /** The index after a run that was cut short when it had written `j` records. */
  function Cut(index: Index, m: string, rs: seq<Record>, j: nat): Index {
    Upserted(index, m, FirstStale(index, m, rs, j))
  }

  // ---------------------------------------------------------------- where such a run stops

  /** The record passes the watermark and has to be written. */
  predicate IsDue(index: Index, m: string, w: Option<int>, r: Record) {
    Selects(w, r) && !Current(index, m, r)
  }

  /** Which records of the list are due. */
  function Due(index: Index, m: string, source: seq<Record>, w: Option<int>): (due: seq<bool>)
    ensures |due| == |source| && forall i | 0 <= i < |source| :: due[i] == IsDue(index, m, w, source[i])
  {
    seq(|source|, i requires 0 <= i < |source| => IsDue(index, m, w, source[i]))
  }

  function Count(due: seq<bool>): (c: nat)
    ensures c <= |due|
  {
    if due == [] then 0 else Count(due[..|due| - 1]) + if due[|due| - 1] then 1 else 0
  }

  /** Where a run stops that may still write `limit` records, and what it has written then: when they
      are written, or at the end of the first page that is short or reaches a record older than the
      watermark. */
  function Walk(due: seq<bool>, source: seq<Record>, offset: nat, remaining: Option<nat>, size: nat, w: Option<int>)
    : (end: (nat, nat))
    requires offset <= |source| == |due|
    ensures offset <= end.0 <= |source| && (remaining.Some? ==> end.1 <= remaining.value)
    decreases |source| - offset
  {
    if remaining == Some(0) then (offset, 0)
    else
      var n := PageLength(source, offset, remaining, size);
      var c := Count(due[offset..offset + n]);
      if EndsRun(source[offset..offset + n], Asked(remaining, size), w) then (offset + n, c)
      else
        var rest := Walk(due, source, offset + n, Left(remaining, c), size, w);
        (rest.0, c + rest.1)
  }

  function LimitStop(index: Index, m: string, source: seq<Record>, w: Option<int>, limit: nat, size: nat): (stop: nat)
    ensures stop <= |source|
  {
    Walk(Due(index, m, source, w), source, 0, Some(limit), size, w).0
  }

  lemma {:induction false} CountIs(index: Index, m: string, rs: seq<Record>, w: Option<int>, due: seq<bool>)
    requires due == Due(index, m, rs, w)
    ensures |Stale(index, m, Selected(rs, w))| == Count(due)
  {
    if rs != [] {
      var n := |rs| - 1;
      var s := Selected(rs[..n], w);
      CountIs(index, m, rs[..n], w, due[..n]);
      if Selects(w, rs[n]) { assert (s + [rs[n]])[..|s|] == s; }
    }
  }

  /** What is due of a part of the list. */
  lemma CountOfPart(index: Index, m: string, source: seq<Record>, w: Option<int>, i: nat, j: nat, due: seq<bool>)
    requires i <= j <= |source| && due == Due(index, m, source, w)
    ensures |Stale(index, m, Selected(source[i..j], w))| == Count(due[i..j])
  {
    assert due[i..j] == Due(index, m, source[i..j], w);
    CountIs(index, m, source[i..j], w, due[i..j]);
  }

  lemma {:induction false} CountAppend(a: seq<bool>, b: seq<bool>)
    ensures Count(a + b) == Count(a) + Count(b)
  {
    if b == [] {
      assert a + b == a;
    } else {
      assert (a + b)[..|a + b| - 1] == a + b[..|b| - 1];
      CountAppend(a, b[..|b| - 1]);
    }
  }

  lemma CountSplit(due: seq<bool>, i: nat, j: nat, k: nat)
    requires i <= j <= k <= |due|
    ensures Count(due[i..k]) == Count(due[i..j]) + Count(due[j..k])
  {
    assert due[i..k] == due[i..j] + due[j..k];
    CountAppend(due[i..j], due[j..k]);
  }

  /** The two indexes have the same records of the list current from `offset` on. */
  ghost predicate Alike(a: Index, b: Index, m: string, source: seq<Record>, offset: nat)
    requires offset <= |source|
  {
    forall i | offset <= i < |source| :: Current(a, m, source[i]) == Current(b, m, source[i])
  }

  /** Writing records of a page changes nothing behind it. */
  lemma AlikeBehind(index: Index, m: string, source: seq<Record>, offset: nat, n: nat, w: Option<int>)
    requires offset + n <= |source| && Listing(source)
    ensures Alike(Upserted(index, m, Stale(index, m, Selected(source[offset..offset + n], w))), index, m, source, offset + n)
  {
    var page := source[offset..offset + n];
    var written := Stale(index, m, Selected(page, w));
    StaleAreAll(index, m, Selected(page, w));
    forall i | offset + n <= i < |source|
      ensures Current(Upserted(index, m, written), m, source[i]) == Current(index, m, source[i])
    {
      forall x | x in written ensures KeyOf(m, x) != KeyOf(m, source[i]) {
        SelectedIs(page, w, x);
        var j :| 0 <= j < n && page[j] == x;
        assert source[offset + j] == x;
      }
      UpsertedOthers(index, m, written, KeyOf(m, source[i]));
    }
  }

  lemma AlikeThen(a: Index, b: Index, c: Index, m: string, source: seq<Record>, offset: nat, next: nat)
    requires offset <= next <= |source| && Alike(b, c, m, source, offset) && Alike(a, b, m, source, next)
    ensures Alike(a, c, m, source, next)
  {
  }

  lemma PageWritten(work: Work, index: Index, m: string, page: seq<Record>, asked: nat, offset: nat, w: Option<int>,
                    written: seq<Record>)
    requires Faithful(work, m, w) && written == Stale(index, m, Selected(page, w))
    ensures var p := work(index, page, asked, offset); p.0 == Upserted(index, m, written) && p.1.written == |written|
  {
    assert PageWritesStale(work, m, w, index, page, asked, offset);
  }

  lemma PageCounts(work: Work, index: Index, m: string, page: seq<Record>, asked: nat, offset: nat, w: Option<int>, c: nat)
    requires Faithful(work, m, w) && c == |Stale(index, m, Selected(page, w))|
    ensures work(index, page, asked, offset).1.written == c
  {
    assert PageWritesStale(work, m, w, index, page, asked, offset);
  }

  /** The same is due of a page as at the start. */
  lemma DueOfPage(base: Index, m: string, source: seq<Record>, w: Option<int>, index: Index, offset: nat, n: nat,
                  due: seq<bool>)
    requires due == Due(base, m, source, w) && offset + n <= |source| && Alike(index, base, m, source, offset)
    ensures |Stale(index, m, Selected(source[offset..offset + n], w))| == Count(due[offset..offset + n])
  {
    var now := Due(index, m, source, w);
    assert now[offset..offset + n] == due[offset..offset + n];
    CountOfPart(index, m, source, w, offset, offset + n, now);
  }

  /** What a page writes is what was due of it at the start. */
  lemma PageSpends(work: Work, base: Index, m: string, source: seq<Record>, w: Option<int>, index: Index, offset: nat,
                   n: nat, asked: nat, due: seq<bool>)
    requires Faithful(work, m, w) && due == Due(base, m, source, w)
    requires offset + n <= |source| && Alike(index, base, m, source, offset)
    ensures work(index, source[offset..offset + n], asked, offset).1.written == Count(due[offset..offset + n])
  {
    DueOfPage(base, m, source, w, index, offset, n, due);
    PageCounts(work, index, m, source[offset..offset + n], asked, offset, w, Count(due[offset..offset + n]));
  }

  /** What stands behind a page is as it was at the start. */
  lemma PageLeaves(work: Work, base: Index, m: string, source: seq<Record>, w: Option<int>, index: Index, offset: nat,
                   n: nat, asked: nat)
    requires Faithful(work, m, w) && Listing(source)
    requires offset + n <= |source| && Alike(index, base, m, source, offset)
    ensures Alike(work(index, source[offset..offset + n], asked, offset).0, base, m, source, offset + n)
  {
    var page := source[offset..offset + n];
    AlikeBehind(index, m, source, offset, n, w);
    PageWritten(work, index, m, page, asked, offset, w, Stale(index, m, Selected(page, w)));
    AlikeThen(work(index, page, asked, offset).0, index, base, m, source, offset, offset + n);
  }

  /** Something that holds of the index at an offset. */
  type Invariant = (Index, nat) -> bool

  ghost function AlikeTo(base: Index, m: string, source: seq<Record>): Invariant {
    (index: Index, offset: nat) => offset <= |source| && Alike(index, base, m, source, offset)
  }

  /** A page writes what is due of it, and the invariant holds behind it. */
  ghost predicate PagePays(work: Work, source: seq<Record>, due: seq<bool>, inv: Invariant, index: Index, offset: nat, n: nat,
                           asked: nat) {
    offset + n <= |source| == |due| && inv(index, offset) ==>
      var p := work(index, source[offset..offset + n], asked, offset);
      p.1.written == Count(due[offset..offset + n]) && inv(p.0, offset + n)
  }

  ghost predicate Paying(work: Work, source: seq<Record>, due: seq<bool>, inv: Invariant) {
    forall index: Index, offset: nat, n: nat, asked: nat :: PagePays(work, source, due, inv, index, offset, n, asked)
  }

  lemma WorkPays(work: Work, base: Index, m: string, source: seq<Record>, w: Option<int>)
    requires Faithful(work, m, w) && Listing(source)
    ensures Paying(work, source, Due(base, m, source, w), AlikeTo(base, m, source))
  {
    var due, inv := Due(base, m, source, w), AlikeTo(base, m, source);
    forall index: Index, offset: nat, n: nat, asked: nat ensures PagePays(work, source, due, inv, index, offset, n, asked) {
      if offset + n <= |source| && inv(index, offset) {
        PageSpends(work, base, m, source, w, index, offset, n, asked, due);
        PageLeaves(work, base, m, source, w, index, offset, n, asked);
      }
    }
  }

  lemma {:induction false} StopsAtLimit(work: Work, source: seq<Record>, due: seq<bool>, inv: Invariant, index: Index,
                                        offset: nat, remaining: Option<nat>, size: nat, w: Option<int>, stop: nat, halt: nat)
    requires Stopping(work, w) && Paying(work, source, due, inv) && offset <= |source| == |due| && inv(index, offset)
    requires stop == Walk(due, source, offset, remaining, size, w).0
    requires halt == RunStop(work, index, source, offset, remaining, size)
    ensures halt == stop
    decreases |source| - offset
  {
    if remaining != Some(0) {
      var n, asked := PageLength(source, offset, remaining, size), Asked(remaining, size);
      var p := work(index, source[offset..offset + n], asked, offset);
      assert PageStops(work, w, index, source[offset..offset + n], asked, offset);
      assert PagePays(work, source, due, inv, index, offset, n, asked);
      if !p.2 { StopsAtLimit(work, source, due, inv, p.0, offset + n, Left(remaining, p.1.written), size, w, stop, halt); }
    }
  }

  /** Where a limited run stops does not depend on what it writes on the way. */
  lemma LimitedStop(work: Work, index: Index, m: string, source: seq<Record>, limit: nat, size: nat, w: Option<int>)
    requires Faithful(work, m, w) && Stopping(work, w) && Listing(source)
    ensures RunStop(work, index, source, 0, Some(limit), size) == LimitStop(index, m, source, w, limit, size)
  {
    WorkPays(work, index, m, source, w);
    StopsAtLimit(work, source, Due(index, m, source, w), AlikeTo(index, m, source), index, 0, Some(limit), size, w,
                 LimitStop(index, m, source, w, limit, size), RunStop(work, index, source, 0, Some(limit), size));
  }

  // ---------------------------------------------------------------- what such a run does

  function LimitedIncremental(index: Index, m: string, source: seq<Record>, w: Option<int>, limit: nat, size: nat,
                              batch: nat): (Index, Stats) {
    Pages(WorkOf(m, w, batch, NoFailure()), index, NOTHING, source, 0, Some(limit), size)
  }

  /** Against any list: a limited run writes exactly what is stale of the records it selects before
      its stop. */
  lemma LimitedIncrementalIs(index: Index, m: string, source: seq<Record>, w: Option<int>, limit: nat, size: nat,
                             batch: nat)
    requires Listing(source)
    ensures Ran(index, NOTHING, m, Selected(source[..LimitStop(index, m, source, w, limit, size)], w),
                LimitedIncremental(index, m, source, w, limit, size, batch))
  {
    var work, stop := WorkOf(m, w, batch, NoFailure()), LimitStop(index, m, source, w, limit, size);
    WorkIsFaithful(m, w, batch);
    WorkStops(m, w, batch, NoFailure());
    RunIs(work, index, m, source, size, w, Some(limit));
    LimitedStop(work, index, m, source, limit, size, w);
    assert source[0..stop] == source[..stop];
  }

  /** So it makes every record current if and only if each one that has to be written passes the
      watermark and stands before that stop. */
  lemma LimitedIncrementalIff(index: Index, m: string, source: seq<Record>, w: Option<int>, limit: nat, size: nat,
                              batch: nat)
    requires Listing(source)
    ensures (forall r | r in source :: Current(LimitedIncremental(index, m, source, w, limit, size, batch).0, m, r))
      <==> Reached(index, m, source, w, LimitStop(index, m, source, w, limit, size))
  {
    LimitedIncrementalIs(index, m, source, w, limit, size, batch);
    SelectedCompleteIff(index, m, source, w, LimitStop(index, m, source, w, limit, size),
                        LimitedIncremental(index, m, source, w, limit, size, batch).0);
  }

  // ---------------------------------------------------------------- lists that are newest first

  /** Why a run stopped that has written `c`: at the end of the list, behind a record older than the
      watermark, or because it has written as many as it may. */
  predicate Stopped(source: seq<Record>, w: Option<int>, limit: nat, stop: nat, c: nat)
    requires stop <= |source|
  {
    c <= limit && (stop == |source| || c == limit || exists i :: 0 <= i < stop && !Selects(w, source[i]))
  }

  /** Why it stops; `older` is the place of a record older than the watermark, if it is that. */
  lemma {:induction false} LimitReason(due: seq<bool>, source: seq<Record>, offset: nat, remaining: Option<nat>, size: nat,
                                       w: Option<int>, stop: nat, spent: nat) returns (older: Option<nat>)
    requires offset <= |source| == |due| && size > 0 && (stop, spent) == Walk(due, source, offset, remaining, size, w)
    ensures older.Some? ==> older.value < stop && !Selects(w, source[older.value])
    ensures older.None? ==> stop == |source| || remaining == Some(spent)
    decreases |source| - offset, 0
  {
    older := None;
    if remaining != Some(0) {
      var n := PageLength(source, offset, remaining, size);
      if !EndsRun(source[offset..offset + n], Asked(remaining, size), w) {
        older := ReasonBehind(due, source, offset + n, remaining, Count(due[offset..offset + n]), size, w, stop, spent);
      } else if ReachesExisting(source[offset..offset + n], w) {
        var i := OldOnPage(source, w, offset, n);
        older := Some(i);
      }
    }
  }

  /** Why it stops behind a page that took `c` off the limit. */
  lemma ReasonBehind(due: seq<bool>, source: seq<Record>, next: nat, remaining: Option<nat>, c: nat, size: nat,
                     w: Option<int>, stop: nat, spent: nat) returns (older: Option<nat>)
    requires next <= |source| == |due| && size > 0 && (remaining.Some? ==> c <= remaining.value)
    requires var rest := Walk(due, source, next, Left(remaining, c), size, w); stop == rest.0 && spent == c + rest.1
    ensures older.Some? ==> older.value < stop && !Selects(w, source[older.value])
    ensures older.None? ==> stop == |source| || remaining == Some(spent)
    decreases |source| - next, 1
  {
    older := LimitReason(due, source, next, Left(remaining, c), size, w, stop, spent - c);
  }

  lemma {:induction false} SpentIs(due: seq<bool>, source: seq<Record>, offset: nat, remaining: Option<nat>, size: nat,
                                   w: Option<int>, stop: nat, spent: nat)
    requires offset <= |source| == |due| && (stop, spent) == Walk(due, source, offset, remaining, size, w)
    ensures Count(due[offset..stop]) == spent
    decreases |source| - offset, 0
  {
    if remaining != Some(0) {
      var n := PageLength(source, offset, remaining, size);
      var next, c := offset + n, Count(due[offset..offset + n]);
      if !EndsRun(source[offset..offset + n], Asked(remaining, size), w) {
        SpentBehind(due, source, next, Left(remaining, c), size, w, c, stop, spent);
        CountSplit(due, offset, next, stop);
      }
    }
  }

  lemma SpentBehind(due: seq<bool>, source: seq<Record>, next: nat, left: Option<nat>, size: nat, w: Option<int>, c: nat,
                    stop: nat, spent: nat)
    requires next <= |source| == |due|
    requires var rest := Walk(due, source, next, left, size, w); stop == rest.0 && spent == c + rest.1
    ensures c + Count(due[next..stop]) == spent
    decreases |source| - next, 1
  {
    SpentIs(due, source, next, left, size, w, stop, spent - c);
  }

  /** Behind a stop that is the end of the list, or behind an older record of a list that is newest
      first, nothing is selected. */
  lemma NothingLeft(source: seq<Record>, w: Option<int>, stop: nat)
    requires stop <= |source| && Downhill(source, w)
    requires stop == |source| || exists i :: 0 <= i < stop && !Selects(w, source[i])
    ensures Selected(source[stop..], w) == []
  {
    var rest := source[stop..];
    forall r | r in rest ensures !Selects(w, r) {
      var j :| 0 <= j < |rest| && rest[j] == r;
      assert source[stop + j] == r;
    }
    SelectedAll(rest, w);
  }

  lemma PrefixIs(a: seq<Record>, b: seq<Record>, limit: nat)
    requires |a| <= limit && (|a| == limit || b == [])
    ensures a == (a + b)[..Min(limit, |a + b|)]
  {
  }

  lemma StaleParts(index: Index, m: string, source: seq<Record>, w: Option<int>, stop: nat)
    requires stop <= |source|
    ensures Stale(index, m, Selected(source, w)) ==
      Stale(index, m, Selected(source[..stop], w)) + Stale(index, m, Selected(source[stop..], w))
  {
    assert source == source[..stop] + source[stop..];
    SelectedAppend(source[..stop], source[stop..], w);
    StaleAppend(index, m, Selected(source[..stop], w), Selected(source[stop..], w));
  }

  lemma StopIs(due: seq<bool>, source: seq<Record>, w: Option<int>, limit: nat, size: nat, stop: nat, c: nat)
    requires |source| == |due| && size > 0 && stop == Walk(due, source, 0, Some(limit), size, w).0 && c == Count(due[0..stop])
    ensures Stopped(source, w, limit, stop, c)
  {
    var end := Walk(due, source, 0, Some(limit), size, w);
    SpentIs(due, source, 0, Some(limit), size, w, end.0, end.1);
    var older := LimitReason(due, source, 0, Some(limit), size, w, end.0, end.1);
  }

  lemma StopOf(index: Index, m: string, source: seq<Record>, w: Option<int>, limit: nat, size: nat, stop: nat,
               written: seq<Record>)
    requires size > 0 && stop == LimitStop(index, m, source, w, limit, size)
    requires written == Stale(index, m, Selected(source[..stop], w))
    ensures Stopped(source, w, limit, stop, |written|)
  {
    var due := Due(index, m, source, w);
    assert source[0..stop] == source[..stop];
    CountOfPart(index, m, source, w, 0, stop, due);
    StopIs(due, source, w, limit, size, stop, |written|);
  }

  lemma BeforeStop(index: Index, m: string, source: seq<Record>, w: Option<int>, limit: nat, stop: nat, a: seq<Record>,
                   b: seq<Record>)
    requires stop <= |source| && Downhill(source, w) && Stopped(source, w, limit, stop, |a|)
    requires a == Stale(index, m, Selected(source[..stop], w)) && b == Stale(index, m, Selected(source[stop..], w))
    ensures a == FirstStale(index, m, Selected(source, w), limit)
  {
    StaleParts(index, m, source, w, stop);
    if |a| != limit { NothingLeft(source, w, stop); }
    PrefixIs(a, b, limit);
  }

  lemma WrittenUpToLimit(index: Index, m: string, source: seq<Record>, w: Option<int>, limit: nat, size: nat, stop: nat,
                         written: seq<Record>)
    requires size > 0 && Downhill(source, w) && stop == LimitStop(index, m, source, w, limit, size)
    requires written == Stale(index, m, Selected(source[..stop], w))
    ensures written == FirstStale(index, m, Selected(source, w), limit)
  {
    StopOf(index, m, source, w, limit, size, stop, written);
    BeforeStop(index, m, source, w, limit, stop, written, Stale(index, m, Selected(source[stop..], w)));
  }

  lemma RanUpTo(index: Index, m: string, selected: seq<Record>, all: seq<Record>, limit: nat, end: (Index, Stats))
    requires Ran(index, NOTHING, m, selected, end) && Stale(index, m, selected) == FirstStale(index, m, all, limit)
    ensures end.0 == Cut(index, m, all, limit) && end.1.written == Min(limit, |Stale(index, m, all)|)
  {
  }

  /** Against a list that is newest first a limited run writes the first `limit` of the records that
      have to be written and pass the watermark, in the order of the list, for any page and batch
      sizes. */
  lemma LimitedNewestFirst(index: Index, m: string, source: seq<Record>, w: Option<int>, limit: nat, size: nat, batch: nat)
    requires size > 0 && Listing(source) && Downhill(source, w)
    ensures var end := LimitedIncremental(index, m, source, w, limit, size, batch);
      && end.0 == Cut(index, m, Selected(source, w), limit)
      && end.1.written == Min(limit, |Stale(index, m, Selected(source, w))|)
  {
    var stop := LimitStop(index, m, source, w, limit, size);
    var written := Stale(index, m, Selected(source[..stop], w));
    LimitedIncrementalIs(index, m, source, w, limit, size, batch);
    WrittenUpToLimit(index, m, source, w, limit, size, stop, written);
    RanUpTo(index, m, Selected(source[..stop], w), Selected(source, w), limit,
            LimitedIncremental(index, m, source, w, limit, size, batch));
  }

  lemma StaleBehind(index: Index, m: string, source: seq<Record>, w: Option<int>, limit: nat, stop: nat)
    requires stop <= |source| && WatermarkCovers(index, m, source, w)
    requires |Stale(index, m, source)| <= limit == |Stale(index, m, Selected(source[..stop], w))|
    ensures Stale(index, m, source[stop..]) == []
  {
    var front, back := source[..stop], source[stop..];
    assert source == front + back;
    StaleSelected(index, m, front, w);
    StaleAppend(index, m, front, back);
  }

  /** A selected record behind the stop of a list that is newest first: so are all before the stop. */
  lemma SelectedBehind(source: seq<Record>, w: Option<int>, stop: nat, r: Record)
    requires stop <= |source| && Downhill(source, w) && r in source && Selects(w, r) && r !in source[..stop]
    ensures r in source[stop..] && forall i | 0 <= i < stop :: Selects(w, source[i])
  {
    assert source == source[..stop] + source[stop..];
    var j :| 0 <= j < |source| - stop && source[stop..][j] == r;
    assert source[stop + j] == r;
  }

  lemma LeftOver(index: Index, m: string, source: seq<Record>, w: Option<int>, limit: nat, stop: nat, r: Record, c: nat)
    requires stop <= |source| && Downhill(source, w) && WatermarkCovers(index, m, source, w)
    requires c == |Stale(index, m, Selected(source[..stop], w))| && Stopped(source, w, limit, stop, c)
    requires r in source && !Current(index, m, r) && r !in source[..stop]
    ensures |Stale(index, m, source)| > limit
  {
    SelectedBehind(source, w, stop, r);
    if |Stale(index, m, source)| <= limit {
      StaleBehind(index, m, source, w, limit, stop);
      StaleIs(index, m, source[stop..], r);
    }
  }

  lemma ReachedWithin(index: Index, m: string, source: seq<Record>, w: Option<int>, limit: nat, stop: nat,
                      written: seq<Record>)
    requires stop <= |source| && Listing(source) && Downhill(source, w)
    requires written == Stale(index, m, Selected(source[..stop], w)) && Stopped(source, w, limit, stop, |written|)
    ensures Reached(index, m, source, w, stop) <==> WatermarkCovers(index, m, source, w) && |Stale(index, m, source)| <= limit
  {
    if Reached(index, m, source, w, stop) {
      ReachedStale(index, m, source, w, stop);
    } else if WatermarkCovers(index, m, source, w) {
      var r :| r in source && !Current(index, m, r) && r !in source[..stop];
      LeftOver(index, m, source, w, limit, stop, r, |written|);
    }
  }

  /** So it makes every record current if and only if all that have to be written pass the watermark
      and are no more than the limit. */
  lemma LimitedNewestFirstIff(index: Index, m: string, source: seq<Record>, w: Option<int>, limit: nat, size: nat,
                              batch: nat)
    requires size > 0 && Listing(source) && Downhill(source, w)
    ensures (forall r | r in source :: Current(LimitedIncremental(index, m, source, w, limit, size, batch).0, m, r))
      <==> WatermarkCovers(index, m, source, w) && |Stale(index, m, source)| <= limit
  {
    var stop := LimitStop(index, m, source, w, limit, size);
    var written := Stale(index, m, Selected(source[..stop], w));
    LimitedIncrementalIff(index, m, source, w, limit, size, batch);
    StopOf(index, m, source, w, limit, size, stop, written);
    ReachedWithin(index, m, source, w, limit, stop, written);
  }

  function LimitedRun(index: Index, m: string, source: seq<Record>, limit: nat, size: nat, batch: nat): (Index, Stats) {
    LimitedIncremental(index, m, source, None, limit, size, batch)
  }

  /** A limited full run writes exactly the first `limit` of the records that have to be written, in
      the order of the list, whatever that is. */
  lemma LimitedRunIs(index: Index, m: string, source: seq<Record>, limit: nat, size: nat, batch: nat)
    requires size > 0 && Listing(source)
    ensures var end := LimitedRun(index, m, source, limit, size, batch);
      && end.0 == Cut(index, m, source, limit)
      && end.1.written == Min(limit, |Stale(index, m, source)|)
  {
    LimitedNewestFirst(index, m, source, None, limit, size, batch);
    SelectedAll(source, None);
  }
}
