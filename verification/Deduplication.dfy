/** De-duplication of search results (app/engine/record_extract.py): one item for each identity, the
    best-scored one, in the order in which the identities first appear. */
module Deduplication {
  import opened Wrappers

  /** A payload field: missing, a dictionary, or anything else. */
  datatype Value = Missing | Dict(content: string) | Plain(content: string)

  datatype Payload = Payload(text: Value, record: Value, others: string)

  /** A result; `identity` stands for what the fields of the compacted item amount to. */
  datatype Item = NotADict | Item(payload: Option<Payload>, score: real, others: string)

  /** How the code names the thing an item shows: by record id, by its shape, or by its raw text. */
  type Identify = Item -> string

  function CompactPayload(p: Payload): Payload {
    if p.text.Dict? && p.record.Dict? && p.text == p.record then p.(text := Missing) else p
  }

  function Compact(i: Item): Item
    requires i.Item?
  {
    if i.payload.Some? then i.(payload := Some(CompactPayload(i.payload.value))) else i
  }

  /** The compacted dictionaries among the results. */
  function Candidates(results: seq<Item>): (cs: seq<Item>)
    ensures forall c | c in cs :: c.Item? && Compact(c) == c
  {
    if results == [] then []
    else
      var rest, last := Candidates(results[..|results| - 1]), results[|results| - 1];
      if last.Item? then rest + [Compact(last)] else rest
  }

  /** How many of the results are dictionaries. */
  function Dictionaries(results: seq<Item>): nat {
    if results == [] then 0
    else Dictionaries(results[..|results| - 1]) + if results[|results| - 1].Item? then 1 else 0
  }

  /** The candidates are the dictionaries among the results, in their order and as they are, but for
      a payload whose text repeats its record: that text is left out. */
  lemma {:induction false} CandidateIs(results: seq<Item>, j: nat)
    requires j < |results| && results[j].Item?
    ensures |Candidates(results)| == Dictionaries(results) > Dictionaries(results[..j])
    ensures var c, i := Candidates(results)[Dictionaries(results[..j])], results[j];
      && c.score == i.score && c.others == i.others
      && match i.payload
         case None => c.payload == None
         case Some(p) =>
           var text := if p.text.Dict? && p.record.Dict? && p.text.content == p.record.content then Missing else p.text;
           c.payload == Some(Payload(text, p.record, p.others))
  {
    var n := |results| - 1;
    CandidatesCount(results[..n]);
    if j < n {
      CandidateIs(results[..n], j);
      assert results[..n][..j] == results[..j];
    }
  }

  lemma {:induction false} CandidatesCount(results: seq<Item>)
    ensures |Candidates(results)| == Dictionaries(results)
  {
    if results != [] { CandidatesCount(results[..|results| - 1]); }
  }

  // ---------------------------------------------------------------- what the result should be

  /** The identities in the order of their first appearance. */
  function Firsts(id: Identify, cs: seq<Item>): seq<string> {
    if cs == [] then []
    else
      var rest, i := Firsts(id, cs[..|cs| - 1]), id(cs[|cs| - 1]);
      if i in rest then rest else rest + [i]
  }

  /** Candidate `j` is the first of those of its identity with the highest score. */
  ghost predicate IsBest(id: Identify, cs: seq<Item>, j: int) {
    && 0 <= j < |cs|
    && forall k | 0 <= k < |cs| && id(cs[k]) == id(cs[j]) ::
      cs[k].Item? && cs[j].Item? && cs[k].score <= cs[j].score && (k < j ==> cs[k].score < cs[j].score)
  }

  /** One item for each identity, in order of first appearance, each the first of the best. */
  ghost predicate Deduplicated(id: Identify, cs: seq<Item>, d: seq<Item>) {
    && |d| == |Firsts(id, cs)|
    && forall i | 0 <= i < |d| :: exists j :: IsBest(id, cs, j) && d[i] == cs[j] && id(cs[j]) == Firsts(id, cs)[i]
  }

  predicate Distinct(s: seq<string>) {
    forall i, j | 0 <= i < j < |s| :: s[i] != s[j]
  }

  lemma {:induction false} FirstsDistinct(id: Identify, cs: seq<Item>)
    ensures Distinct(Firsts(id, cs))
    ensures forall x :: x in Firsts(id, cs) <==> exists k :: 0 <= k < |cs| && id(cs[k]) == x
  {
    if cs != [] {
      var n := |cs| - 1;
      FirstsDistinct(id, cs[..n]);
      forall x ensures x in Firsts(id, cs) <==> exists k :: 0 <= k < |cs| && id(cs[k]) == x {
        if x in Firsts(id, cs) && x != id(cs[n]) {
          var k :| 0 <= k < n && id(cs[..n][k]) == x;
          assert id(cs[k]) == x;
        }
        if k :| 0 <= k < |cs| && id(cs[k]) == x && k < n { assert id(cs[..n][k]) == x; }
      }
    }
  }

  /** There is only one such result. */
  lemma DeduplicatedUnique(id: Identify, cs: seq<Item>, d: seq<Item>, e: seq<Item>)
    requires Deduplicated(id, cs, d) && Deduplicated(id, cs, e)
    ensures d == e
  {
    forall i | 0 <= i < |d| ensures d[i] == e[i] {
      var j :| IsBest(id, cs, j) && d[i] == cs[j] && id(cs[j]) == Firsts(id, cs)[i];
      var k :| IsBest(id, cs, k) && e[i] == cs[k] && id(cs[k]) == Firsts(id, cs)[i];
      assert j == k;
    }
  }

  // ---------------------------------------------------------------- what the code computes

  /** The result kept so far, with one more candidate. */
  function Kept(id: Identify, cs: seq<Item>): seq<Item> {
    if cs == [] then []
    else
      var c := cs[|cs| - 1];
      WithOne(id, Kept(id, cs[..|cs| - 1]), c)
  }

  function WithOne(id: Identify, d: seq<Item>, c: Item): seq<Item> {
    var at := Find(id, d, id(c));
    if at == |d| then d + [c]
    else if c.Item? && d[at].Item? && c.score > d[at].score then d[at := c]
    else d
  }

  /** The position of the item with that identity; the length when there is none. */
  function Find(id: Identify, d: seq<Item>, x: string): (at: nat)
    ensures at <= |d| && (at < |d| ==> id(d[at]) == x)
    ensures forall i | 0 <= i < at :: id(d[i]) != x
  {
    if d == [] then 0
    else
      var at := Find(id, d[..|d| - 1], x);
      if at < |d| - 1 then at else if id(d[|d| - 1]) == x then |d| - 1 else |d|
  }

  /** The index knows where each identity of the result stands. */
  ghost predicate Indexes(index: map<string, nat>, id: Identify, d: seq<Item>) {
    && (forall x :: x in index <==> Find(id, d, x) < |d|)
    && (forall x | x in index :: index[x] == Find(id, d, x))
    && (forall c | c in d :: c.Item?)
  }

  lemma AppendIndexed(index: map<string, nat>, id: Identify, d: seq<Item>, c: Item)
    requires Indexes(index, id, d) && c.Item? && id(c) !in index
    ensures Indexes(index[id(c) := |d|], id, d + [c])
  {
    assert (d + [c])[..|d|] == d;
  }

  lemma ReplaceIndexed(index: map<string, nat>, id: Identify, d: seq<Item>, at: nat, c: Item)
    requires Indexes(index, id, d) && c.Item? && at < |d| && id(c) == id(d[at])
    ensures Indexes(index, id, d[at := c])
  {
    forall x ensures Find(id, d[at := c], x) == Find(id, d, x) {
      var a, b := Find(id, d, x), Find(id, d[at := c], x);
      assert a < |d| ==> id(d[at := c][a]) == x;
      assert b < |d| ==> id(d[b]) == x;
    }
  }

  /** `dedupe_rag_results`. */
  method Dedupe(id: Identify, results: seq<Item>) returns (deduped: seq<Item>)
    ensures deduped == Kept(id, Candidates(results))
    ensures Deduplicated(id, Candidates(results), deduped)
  {
    deduped := [];
    var indexByIdentity: map<string, nat> := map[];
    assert results[..|results|] == results;
    for n := 0 to |results|
      invariant deduped == Kept(id, Candidates(results[..n]))
      invariant Indexes(indexByIdentity, id, deduped)
    {
      assert results[..n + 1][..n] == results[..n];
      var item := results[n];
      if item.NotADict? { continue; }
      var candidate := Compact(item);
      OneMore(id, Candidates(results[..n]), candidate);
      var identity := id(candidate);
      if identity !in indexByIdentity {
        AppendIndexed(indexByIdentity, id, deduped, candidate);
        indexByIdentity := indexByIdentity[identity := |deduped|];
        deduped := deduped + [candidate];
        continue;
      }
      var existing := indexByIdentity[identity];
      if candidate.score > deduped[existing].score {
        ReplaceIndexed(indexByIdentity, id, deduped, existing, candidate);
        deduped := deduped[existing := candidate];
      }
    }
    KeptIsDeduplicated(id, Candidates(results));
  }

  lemma OneMore(id: Identify, cs: seq<Item>, c: Item)
    ensures Kept(id, cs + [c]) == WithOne(id, Kept(id, cs), c)
  {
    assert (cs + [c])[..|cs|] == cs;
  }

  // ---------------------------------------------------------------- and that it is the same

  lemma KeptStep(id: Identify, cs: seq<Item>, c: Item, d: seq<Item>)
    requires c.Item? && (forall x | x in cs :: x.Item?) && Deduplicated(id, cs, d)
    ensures Deduplicated(id, cs + [c], WithOne(id, d, c))
  {
    var more, n := cs + [c], |cs|;
    var e := WithOne(id, d, c);
    var firsts := Firsts(id, cs);
    var at := Find(id, d, id(c));
    assert more[..n] == cs;
    FirstsDistinct(id, cs);
    IdsOfDeduplicated(id, cs, d);
    forall i | 0 <= i < |e| ensures exists j :: IsBest(id, more, j) && e[i] == more[j] && id(more[j]) == Firsts(id, more)[i] {
      if i < |d| {
        var j :| IsBest(id, cs, j) && d[i] == cs[j] && id(cs[j]) == firsts[i];
        BestStays(id, cs, c, j);
        if i == at && c.score > d[at].score {
          assert IsBest(id, more, n);
          assert more[n] == c == e[i];
        } else {
          assert more[j] == cs[j];
          assert IsBest(id, more, j);
        }
      } else {
        assert IsBest(id, more, n) by { NewIsBest(id, cs, c); }
      }
    }
  }

  /** The items of a deduplicated list carry the identities in order. */
  lemma IdsOfDeduplicated(id: Identify, cs: seq<Item>, d: seq<Item>)
    requires Deduplicated(id, cs, d) && forall x | x in cs :: x.Item?
    ensures forall i | 0 <= i < |d| :: id(d[i]) == Firsts(id, cs)[i] && d[i].Item?
  {
  }

  lemma BestStays(id: Identify, cs: seq<Item>, c: Item, j: int)
    requires IsBest(id, cs, j) && c.Item? && cs[j].Item?
    ensures id(c) == id(cs[j]) && c.score > cs[j].score ==> IsBest(id, cs + [c], |cs|)
    ensures !(id(c) == id(cs[j]) && c.score > cs[j].score) ==> IsBest(id, cs + [c], j)
  {
    var more := cs + [c];
    assert forall k | 0 <= k < |cs| :: more[k] == cs[k];
  }

  lemma NewIsBest(id: Identify, cs: seq<Item>, c: Item)
    requires c.Item? && id(c) !in Firsts(id, cs)
    ensures IsBest(id, cs + [c], |cs|)
  {
    FirstsDistinct(id, cs);
    var more := cs + [c];
    assert forall k | 0 <= k < |cs| :: more[k] == cs[k];
  }

  lemma {:induction false} KeptIsDeduplicated(id: Identify, cs: seq<Item>)
    requires forall x | x in cs :: x.Item?
    ensures Deduplicated(id, cs, Kept(id, cs))
  {
    if cs != [] {
      var rest, c := cs[..|cs| - 1], cs[|cs| - 1];
      assert cs == rest + [c];
      KeptIsDeduplicated(id, rest);
      KeptStep(id, rest, c, Kept(id, rest));
      OneMore(id, rest, c);
    }
  }

  // ---------------------------------------------------------------- once is enough

  lemma {:induction false} CandidatesOf(cs: seq<Item>)
    requires forall c | c in cs :: c.Item? && Compact(c) == c
    ensures Candidates(cs) == cs
  {
    if cs != [] {
      CandidatesOf(cs[..|cs| - 1]);
      assert cs[|cs| - 1] in cs;
    }
  }

  lemma {:induction false} KeepsDistinct(id: Identify, d: seq<Item>)
    requires forall i, j | 0 <= i < j < |d| :: id(d[i]) != id(d[j])
    ensures Kept(id, d) == d
  {
    if d != [] {
      var n := |d| - 1;
      KeepsDistinct(id, d[..n]);
      assert d == d[..n] + [d[n]];
    }
  }

  lemma {:induction false} KeptAreCandidates(id: Identify, cs: seq<Item>)
    ensures forall x | x in Kept(id, cs) :: x in cs
  {
    if cs != [] {
      var n := |cs| - 1;
      KeptAreCandidates(id, cs[..n]);
      assert cs == cs[..n] + [cs[n]];
    }
  }

  /** Applying it twice, compaction included, equals applying it once. */
  lemma DedupeTwice(id: Identify, results: seq<Item>)
    ensures var once := Kept(id, Candidates(results)); Kept(id, Candidates(once)) == once
  {
    var cs := Candidates(results);
    var once := Kept(id, cs);
    KeptAreCandidates(id, cs);
    CandidatesOf(once);
    KeptIsDeduplicated(id, cs);
    IdsOfDeduplicated(id, cs, once);
    FirstsDistinct(id, cs);
    KeepsDistinct(id, once);
  }
}
