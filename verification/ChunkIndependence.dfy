/** How the model's text happens to be cut into chunks does not matter to what the classifier
    shows, for exactly the texts on which `Steady` holds. */
module ChunkIndependence {
  import opened Wrappers
  import opened Text
  import opened AnswerStream

  // ---------------------------------------------------------------- the whole-text meaning

  /** The text after leading whitespace and completed think blocks. */
  function Lead(t: string): (r: string)
    ensures |r| <= |t| && (r != "" ==> !IsSpace(r[0]))
    ensures StartsWith(r, THINK) ==> Find(r, THINK_END, 0) == -1
    decreases |t|
  {
    var s := LStrip(t);
    if !StartsWith(s, THINK) then s
    else
      var j := Find(s, THINK_END, 0);
      if j == -1 then s else Lead(s[j + |THINK_END|..])
  }

  /** The text after its lead is neither empty, nor an open think block, nor the beginning of a
      tag, nor a tool call: it is an answer. */
  predicate IsAnswer(r: string) {
    r != "" && !StartsWith(r, THINK) && !CouldBeTag(r) && !StartsWith(r, TOOL_CALL)
  }

  /** No think tag stands inside the answer. */
  predicate Steady(t: string) {
    IsAnswer(Lead(t)) ==> !Contains(Lead(t), THINK)
  }

  /** All but the last TAIL_GUARD characters as they are, then the end trimmed. */
  function Finish(body: string): string {
    if |body| <= TAIL_GUARD then Trim(body)
    else body[..|body| - TAIL_GUARD] + Trim(body[|body| - TAIL_GUARD..])
  }

  /** What the user should see for a whole text. */
  function Meaning(t: string): string {
    if IsAnswer(Lead(t)) then Finish(Body(Lead(t))) else ""
  }

  // ---------------------------------------------------------------- the lead

  /** The lead of a text depends on the text after leading whitespace only. */
  lemma LeadOfStripped(t: string, u: string)
    requires LStrip(t) == LStrip(u)
    ensures Lead(t) == Lead(u)
  {
  }

  lemma LStripIdempotent(s: string)
    ensures LStrip(LStrip(s)) == LStrip(s)
  {
  }

  /** Leading blocks can be dropped before or after more text arrives. */
  lemma {:induction false} LeadAppend(p: string, q: string)
    ensures Lead(p + q) == Lead(Lead(p) + q)
    decreases |p|
  {
    var s := LStrip(p);
    LStripAppend(p, q);
    if s == "" {
      assert Lead(p) == "" && "" + q == q;
      LeadOfStripped(p + q, q);
    } else {
      LStripAppend(s, q);
      LStripIdempotent(p);
      LeadOfStripped(p + q, s + q);
      if StartsWith(s, THINK) && Find(s, THINK_END, 0) != -1 {
        var j := Find(s, THINK_END, 0);
        FindAppend(s, q, THINK_END);
        assert StartsWith(s + q, THINK) by { assert (s + q)[..|THINK|] == s[..|THINK|]; }
        assert (s + q)[j + |THINK_END|..] == s[j + |THINK_END|..] + q;
        LeadAppend(s[j + |THINK_END|..], q);
      }
    }
  }

  /** Once the lead reads as an answer it goes on doing so, and more text extends its body. */
  lemma AnswerAppend(r: string, q: string)
    requires IsAnswer(r) && !IsSpace(r[0])
    ensures Lead(r + q) == r + q && IsAnswer(r + q)
    ensures Body(r + q) == Body(r) + q
  {
    PrefixAppend(r, q, THINK);
    PrefixAppend(r, q, TOOL_CALL);
    PrefixAppend(r, q, ANSWER);
  }

  /** Text that is not the beginning of a tag settles whether it starts with the tag. */
  lemma PrefixAppend(r: string, q: string, tag: string)
    requires !(r < tag)
    ensures StartsWith(r + q, tag) == StartsWith(r, tag)
    ensures !(r + q < tag)
  {
    if |tag| <= |r| {
      assert (r + q)[..|tag|] == r[..|tag|];
    } else {
      var k :| 0 <= k < |r| && r[k] != tag[k];
      assert (r + q)[k] != tag[k];
      AtChar(r + q, tag, 0, k);
    }
  }

  // ---------------------------------------------------------------- the classifier meets the lead

  lemma ThinkAfterSpace(w: string, s: string)
    requires AllSpace(w)
    ensures Find(w + s, THINK, 0) == if Find(s, THINK, 0) == -1 then -1 else |w| + Find(s, THINK, 0)
    ensures StartsWith(s, THINK) ==> Find(w + s, THINK, 0) == |w|
  {
    FindBehind(w, s, THINK, 0);
    if StartsWith(s, THINK) { FindIs(s, THINK, 0, 0); }
  }

  lemma SpaceInFront(w: string, s: string)
    requires AllSpace(w)
    ensures LStrip(w + s) == LStrip(s)
  {
    assert w + "" == w;
    LStripUnique(w, "");
    LStripAppend(w, s);
  }

  lemma DropOne(p: string, i: nat, j: int)
    requires Find(p, THINK, 0) == i && Find(p, THINK_END, i) == j
    ensures j == -1 ==> DropThink(p).None?
    ensures j != -1 ==> DropThink(p) == DropThink(p[..i] + p[j + |THINK_END|..])
  {
    if j != -1 {
      var next := p[..i] + p[j + |THINK_END|..];
      assert |next| < |p|;
    }
  }

  lemma DropTo(p: string, i: nat, j: nat, next: string)
    requires Find(p, THINK, 0) == i && Find(p, THINK_END, i) == j
    requires next == p[..i] + p[j + |THINK_END|..]
    ensures DropThink(p) == DropThink(next)
  {
    DropOne(p, i, j);
  }

  lemma LeadStep(t: string, s: string, j: nat)
    requires s == LStrip(t) && StartsWith(s, THINK) && Find(s, THINK_END, 0) == j
    ensures Lead(t) == Lead(s[j + |THINK_END|..])
  {
  }

  /** Cutting a stretch out of the text behind what stands in front of it. */
  lemma CutBehind(w: string, s: string, p: string, i: nat, j: nat, n: nat, next: string)
    requires p == w + s && i <= j && j + n <= |s| && next == s[..i] + s[j + n..]
    ensures w + next == p[..|w| + i] + p[|w| + j + n..]
  {
  }

  /** The first block of a text is the first one with whitespace in front. */
  lemma SameBlock(w: string, s: string, p: string, i: nat, j: int)
    requires AllSpace(w) && p == w + s && Find(s, THINK, 0) == i && Find(s, THINK_END, i) == j
    ensures Find(p, THINK, 0) == |w| + i
    ensures Find(p, THINK_END, |w| + i) == if j == -1 then -1 else |w| + j
  {
    ThinkAfterSpace(w, s);
    FindShift(w, s, THINK_END, i);
  }

  lemma DropBehind(w: string, s: string, p: string, i: nat, j: nat, next: string)
    requires AllSpace(w) && p == w + s && Find(s, THINK, 0) == i && Find(s, THINK_END, i) == j
    requires next == s[..i] + s[j + |THINK_END|..]
    ensures DropThink(p) == DropThink(w + next)
  {
    SameBlock(w, s, p, i, j);
    CutBehind(w, s, p, i, j, |THINK_END|, next);
    DropTo(p, |w| + i, |w| + j, w + next);
  }

  lemma BothOpen(w: string, s: string, i: nat)
    requires AllSpace(w) && Find(s, THINK, 0) == i && Find(s, THINK_END, i) == -1
    ensures DropThink(s).None? && DropThink(w + s).None?
  {
    SameBlock(w, s, w + s, i, -1);
    DropOne(s, i, -1);
    DropOne(w + s, |w| + i, -1);
  }

  lemma NoneDrops(w: string, s: string)
    requires AllSpace(w) && Find(s, THINK, 0) == -1
    ensures DropThink(s) == Some(s) && DropThink(w + s) == Some(w + s)
  {
    ThinkAfterSpace(w, s);
  }

  /** Whitespace in front of a text does not matter to which blocks are dropped. */
  lemma {:induction false} DropAfterSpace(w: string, s: string, dropped: Option<string>, behind: Option<string>)
    requires AllSpace(w) && dropped == DropThink(s) && behind == DropThink(w + s)
    ensures behind == match dropped case None => None case Some(b) => Some(w + b)
    decreases |s|
  {
    var i := Find(s, THINK, 0);
    if i == -1 {
      NoneDrops(w, s);
    } else {
      var j := Find(s, THINK_END, i);
      if j == -1 {
        BothOpen(w, s, i);
      } else {
        var next := s[..i] + s[j + |THINK_END|..];
        DropTo(s, i, j, next);
        DropBehind(w, s, w + s, i, j, next);
        DropAfterSpace(w, next, dropped, behind);
      }
    }
  }

  lemma DropFirst(s: string, j: nat)
    requires StartsWith(s, THINK) && Find(s, THINK_END, 0) == j
    ensures DropThink(s) == DropThink(s[j + |THINK_END|..])
  {
    FindIs(s, THINK, 0, 0);
    DropTo(s, 0, j, s[j + |THINK_END|..]);
  }

  lemma ClassifyStripped(p: string)
    ensures Classify(p) == Classify(LStrip(p))
  {
    var w := LStripSplit(p);
    var s := LStrip(p);
    DropAfterSpace(w, s, DropThink(s), DropThink(p));
    if DropThink(s).Some? { SpaceInFront(w, DropThink(s).value); }
  }

  lemma ClassifySame(a: string, b: string)
    requires DropThink(a) == DropThink(b)
    ensures Classify(a) == Classify(b)
  {
  }

  /** The classifier's buffer and its lead come to the same thing. */
  lemma {:induction false} ClassifyLead(p: string, verdict: Class)
    requires verdict == Classify(p)
    ensures verdict == Classify(Lead(p))
    decreases |p|
  {
    var s := LStrip(p);
    var j := Find(s, THINK_END, 0);
    ClassifyStripped(p);
    if StartsWith(s, THINK) && j != -1 {
      var rest := s[j + |THINK_END|..];
      DropFirst(s, j);
      ClassifySame(s, rest);
      LeadStep(p, s, j);
      ClassifyLead(rest, verdict);
    }
  }

  /** An open think block leaves nothing to classify. */
  lemma OpenThink(r: string)
    requires StartsWith(r, THINK) && Find(r, THINK_END, 0) == -1
    ensures DropThink(r).None?
  {
    FindIs(r, THINK, 0, 0);
    DropOne(r, 0, -1);
  }

  lemma TagsDiffer(s: string)
    ensures !(StartsWith(s, THINK) && StartsWith(s, TOOL_CALL))
  {
    AtChar(s, THINK, 0, 2);
    AtChar(s, TOOL_CALL, 0, 2);
  }

  /** Blocks behind an opening tool-call tag: dropping them does not touch the tag. */
  lemma {:induction false} ToolCallSurvives(s: string)
    requires StartsWith(s, TOOL_CALL)
    ensures DropThink(s).None? || StartsWith(DropThink(s).value, TOOL_CALL)
    decreases |s|
  {
    var i := Find(s, THINK, 0);
    if i != -1 {
      FindSpec(s, THINK, 0);
      ThinkBehindToolCall(s, i);
      var j := Find(s, THINK_END, i);
      DropOne(s, i, j);
      if j != -1 {
        PrefixStays(s, i, j + |THINK_END|, TOOL_CALL);
        ToolCallSurvives(s[..i] + s[j + |THINK_END|..]);
      }
    }
  }

  lemma PrefixStays(s: string, i: nat, k: nat, tag: string)
    requires |tag| <= i <= k <= |s| && StartsWith(s, tag)
    ensures StartsWith(s[..i] + s[k..], tag)
  {
    assert (s[..i] + s[k..])[..|tag|] == s[..|tag|];
  }

  lemma ThinkBehindToolCall(s: string, i: nat)
    requires StartsWith(s, TOOL_CALL) && At(s, THINK, i)
    ensures i >= |TOOL_CALL|
  {
    AtChar(s, THINK, i, 0);
    TagsDiffer(s);
    if i < |TOOL_CALL| { AtChar(s, TOOL_CALL, 0, i); }
  }

  lemma ToolCallVerdict(r: string)
    requires StartsWith(r, TOOL_CALL)
    ensures Classify(r) == if DropThink(r).None? then Undecided else ToolCall
  {
    ToolCallSurvives(r);
    if DropThink(r).Some? {
      var b := DropThink(r).value;
      AtChar(b, TOOL_CALL, 0, 0);
      AtChar(b, TOOL_CALL, 0, 1);
      assert LStrip(b) == b;
    }
  }

  /** The classifier's verdict on a text is the one on its lead. A lead that opens a tool call is one
      as soon as no think block is open behind it, a lead that reads as an answer and holds no
      think tag is that answer, and any other lead but an answer leaves it undecided. */
  lemma ClassifyByLead(p: string)
    ensures Classify(p) == Classify(Lead(p))
    ensures StartsWith(Lead(p), TOOL_CALL) ==> Classify(p) == if DropThink(Lead(p)).None? then Undecided else ToolCall
    ensures IsAnswer(Lead(p)) && !Contains(Lead(p), THINK) ==> Classify(p) == Answer(Body(Lead(p)))
    ensures !IsAnswer(Lead(p)) && !StartsWith(Lead(p), TOOL_CALL) ==> Classify(p).Undecided?
  {
    var r := Lead(p);
    ClassifyLead(p, Classify(p));
    if StartsWith(r, TOOL_CALL) {
      ToolCallVerdict(r);
    } else if StartsWith(r, THINK) {
      OpenThink(r);
    } else if !IsAnswer(r) {
      ShortHasNoThink(r);
    }
  }

  lemma ShortHasNoThink(r: string)
    requires r == "" || CouldBeTag(r)
    ensures !Contains(r, THINK) || StartsWith(r, THINK)
  {
    var i := Find(r, THINK, 0);
    FindSpec(r, THINK, 0);
    AtChar(r, THINK, i, 0);
  }

  // ---------------------------------------------------------------- chunk independence

  /** What a run knows after the text `p`, having shown `out`. */
  ghost predicate Tracks(s: State, out: string, p: string) {
    match s.mode
    case Hold => s.held == p && s.tail == "" && out == "" && Classify(p).Undecided?
    case Suppressed => out == "" && StartsWith(Lead(p), TOOL_CALL)
    case Streaming =>
      && IsAnswer(Lead(p))
      && out + s.tail == Body(Lead(p))
      && |s.tail| == if |Body(Lead(p))| <= TAIL_GUARD then |Body(Lead(p))| else TAIL_GUARD
  }

  /** A steady text has no think tag in the answer any prefix of it begins. */
  lemma SteadyPrefix(p: string, q: string)
    requires Steady(p + q) && IsAnswer(Lead(p))
    ensures !Contains(Lead(p), THINK)
  {
    var r := Lead(p);
    LeadAppend(p, q);
    AnswerAppend(r, q);
    assert Lead(p + q) == r + q;
    ContainsAppend(r, q, THINK);
  }

  lemma ToolCallAppend(r: string, q: string)
    requires StartsWith(r, TOOL_CALL)
    ensures Lead(r + q) == r + q && StartsWith(r + q, TOOL_CALL)
  {
    assert (r + q)[..|TOOL_CALL|] == r[..|TOOL_CALL|];
    TagsDiffer(r + q);
  }

  /** The tail guard holds back the last characters of the body, however it grows. */
  lemma EmitGrows(out: string, tail: string, b: string, c: string)
    requires out + tail == b && |tail| == if |b| <= TAIL_GUARD then |b| else TAIL_GUARD
    ensures var e := Emitted(tail, c);
      && out + e.0 + e.1 == b + c
      && |e.1| == if |b + c| <= TAIL_GUARD then |b + c| else TAIL_GUARD
  {
    var e := Emitted(tail, c);
    assert out + e.0 + e.1 == out + (e.0 + e.1) == out + (tail + c) == out + tail + c;
  }

  lemma StreamingTracks(s: State, out: string, p: string, c: string)
    requires Tracks(s, out, p) && s.mode == Streaming
    ensures var f := Fed(s, c); Tracks(f.0, out + f.1, p + c)
  {
    LeadAppend(p, c);
    AnswerAppend(Lead(p), c);
    EmitGrows(out, s.tail, Body(Lead(p)), c);
  }

  lemma HoldTracks(s: State, out: string, p: string, c: string, q: string)
    requires Tracks(s, out, p) && s.mode == Hold && Steady(p + c + q)
    ensures var f := Fed(s, c); Tracks(f.0, out + f.1, p + c)
  {
    var t := p + c;
    ClassifyByLead(t);
    if IsAnswer(Lead(t)) {
      SteadyPrefix(t, q);
      var b := Body(Lead(t));
      assert "" + b == b;
      EmitGrows("", "", "", b);
    }
  }

  /** The step of the induction: one more chunk. */
  lemma FeedTracks(s: State, out: string, p: string, c: string, q: string)
    requires Tracks(s, out, p) && Steady(p + c + q)
    ensures var f := Fed(s, c); Tracks(f.0, out + f.1, p + c)
  {
    match s.mode
    case Streaming => StreamingTracks(s, out, p, c);
    case Hold => HoldTracks(s, out, p, c, q);
    case Suppressed =>
      LeadAppend(p, c);
      ToolCallAppend(Lead(p), c);
  }

  lemma FeedAllFirst(s: State, out: string, p: string, chunks: seq<string>)
    requires chunks != []
    ensures var f, g := Fed(s, chunks[0]), FeedAll(s, chunks);
      && g.0 == FeedAll(f.0, chunks[1..]).0
      && out + g.1 == out + f.1 + FeedAll(f.0, chunks[1..]).1
    ensures p + Concat(chunks) == p + chunks[0] + Concat(chunks[1..])
  {
    var f := Fed(s, chunks[0]);
    Grouped(out, f.1, FeedAll(f.0, chunks[1..]).1);
    Grouped(p, chunks[0], Concat(chunks[1..]));
  }

  lemma Grouped(a: string, b: string, c: string)
    ensures a + (b + c) == a + b + c
  {
  }

  lemma {:induction false} FeedAllTracks(s: State, out: string, p: string, chunks: seq<string>)
    requires Tracks(s, out, p) && Steady(p + Concat(chunks))
    ensures var f := FeedAll(s, chunks); Tracks(f.0, out + f.1, p + Concat(chunks))
    decreases chunks
  {
    if chunks == [] {
      assert p + "" == p && out + "" == out;
    } else {
      FeedAllFirst(s, out, p, chunks);
      FeedTracks(s, out, p, chunks[0], Concat(chunks[1..]));
      var f := Fed(s, chunks[0]);
      FeedAllTracks(f.0, out + f.1, p + chunks[0], chunks[1..]);
    }
  }

  lemma StreamingCompletes(s: State, out: string, t: string)
    requires Tracks(s, out, t) && s.mode == Streaming
    ensures out + Flushed(s).1 == Finish(Body(Lead(t)))
  {
    var b := Body(Lead(t));
    assert out == b[..|b| - |s.tail|] && s.tail == b[|b| - |s.tail|..];
  }

  /** Draining the tail at the end completes the meaning of the text. */
  lemma FlushCompletes(s: State, out: string, t: string)
    requires Tracks(s, out, t) && Steady(t)
    ensures out + Flushed(s).1 == Meaning(t)
  {
    match s.mode
    case Hold => ClassifyByLead(t); assert Trim("") == "";
    case Suppressed =>
    case Streaming => StreamingCompletes(s, out, t);
  }

  lemma StartTracks()
    ensures Tracks(INITIAL, "", "")
  {
    assert DropThink("") == Some("");
  }

  /** Whatever the cut into chunks, a steady text shows exactly its meaning. */
  lemma SteadyShowsMeaning(chunks: seq<string>)
    requires Steady(Concat(chunks))
    ensures Shown(chunks) == Meaning(Concat(chunks))
  {
    StartTracks();
    assert "" + Concat(chunks) == Concat(chunks);
    FeedAllTracks(INITIAL, "", "", chunks);
    var f := FeedAll(INITIAL, chunks);
    assert "" + f.1 == f.1;
    FlushCompletes(f.0, f.1, Concat(chunks));
  }

  // ---------------------------------------------------------------- exactly the steady texts

  /** The leading whitespace and completed think blocks themselves. */
  function LeadPart(t: string): string
    decreases |t|
  {
    var s := LStrip(t);
    var j := Find(s, THINK_END, 0);
    var w := t[..|t| - |s|];
    if StartsWith(s, THINK) && j != -1 then w + (s[..j + |THINK_END|] + LeadPart(s[j + |THINK_END|..])) else w
  }

  lemma Regroup(a: string, b: string, c: string, d: string)
    ensures a + (b + c) + d == a + (b + (c + d))
  {
  }

  lemma FromParts(a: string, s: string, k: nat, c: string, d: string)
    requires k <= |s| && s[k..] == c + d
    ensures a + s == (a + (s[..k] + c)) + d
  {
    assert s == s[..k] + s[k..];
  }

  lemma LeadPartStep(t: string, w: string, s: string, j: nat)
    requires t == w + s && s == LStrip(t) && StartsWith(s, THINK) && Find(s, THINK_END, 0) == j
    ensures LeadPart(t) == w + (s[..j + |THINK_END|] + LeadPart(s[j + |THINK_END|..]))
  {
    assert w == t[..|t| - |s|];
  }

  lemma {:induction false} LeadPartSplits(t: string)
    ensures t == LeadPart(t) + Lead(t)
    decreases |t|
  {
    var s := LStrip(t);
    var w := LStripSplit(t);
    var j := Find(s, THINK_END, 0);
    if StartsWith(s, THINK) && j != -1 {
      var k := j + |THINK_END|;
      LeadPartStep(t, w, s, j);
      LeadStep(t, s, j);
      LeadPartSplits(s[k..]);
      FromParts(w, s, k, LeadPart(s[k..]), Lead(s[k..]));
    } else {
      assert w == t[..|t| - |s|] == LeadPart(t);
    }
  }

  /** A text that opens with one completed block: the block is skipped. */
  lemma BlockSkipped(block: string, u: string, j: nat)
    requires StartsWith(block, THINK) && Find(block, THINK_END, 0) == j == |block| - |THINK_END|
    ensures Lead(block + u) == Lead(u)
  {
    FindAppend(block, u, THINK_END);
    PrefixAppend(block, u, THINK);
    assert (block + u)[j + |THINK_END|..] == u;
    AtChar(block, THINK, 0, 0);
    assert LStrip(block + u) == block + u;
  }

  /** What stood in front of the lead is skipped in front of any text. */
  lemma {:induction false} LeadPartSkipped(t: string, u: string)
    ensures Lead(LeadPart(t) + u) == Lead(u)
    decreases |t|
  {
    var s := LStrip(t);
    var w := LStripSplit(t);
    var j := Find(s, THINK_END, 0);
    if StartsWith(s, THINK) && j != -1 {
      var block, rest := s[..j + |THINK_END|], s[j + |THINK_END|..];
      LeadPartStep(t, w, s, j);
      Regroup(w, block, LeadPart(rest), u);
      FirstBlock(s, j);
      SkipOne(w, block, LeadPart(rest) + u, j);
      LeadPartSkipped(rest, u);
    } else {
      assert w == t[..|t| - |s|] == LeadPart(t);
      SpaceInFront(w, u);
      LeadOfStripped(w + u, u);
    }
  }

  lemma SkipOne(w: string, block: string, u: string, j: nat)
    requires AllSpace(w) && StartsWith(block, THINK)
    requires Find(block, THINK_END, 0) == j == |block| - |THINK_END|
    ensures Lead(w + (block + u)) == Lead(u)
  {
    SpaceInFront(w, block + u);
    LeadOfStripped(w + (block + u), block + u);
    BlockSkipped(block, u, j);
  }

  /** No closing think tag begins inside an opening one. */
  lemma EndBehindOpen(s: string)
    requires StartsWith(s, THINK)
    ensures Find(s, THINK_END, 0) == Find(s, THINK_END, |THINK|)
  {
    forall i | 0 <= i < |THINK| ensures !At(s, THINK_END, i) {
      AtChar(s, THINK, 0, i);
      AtChar(s, THINK_END, i, 0);
      AtChar(s, THINK_END, i, 1);
      AtChar(s, THINK, 0, 1);
    }
    FindSpec(s, THINK_END, 0);
    FindSpec(s, THINK_END, |THINK|);
    var r := Find(s, THINK_END, |THINK|);
    if r != -1 { FindIs(s, THINK_END, 0, r); }
  }

  /** A first occurrence is found in the text cut behind it. */
  lemma FindInPrefix(s: string, pat: string, j: nat)
    requires Find(s, pat, 0) == j
    ensures Find(s[..j + |pat|], pat, 0) == j
  {
    var v, q := s[..j + |pat|], s[j + |pat|..];
    assert s == v + q && s == "" + v + q;
    FindSpec(s, pat, 0);
    AtShift("", v, q, pat, j);
    FindSpec(v, pat, 0);
    FindAppend(v, q, pat);
  }

  lemma FirstBlock(s: string, j: nat)
    requires StartsWith(s, THINK) && Find(s, THINK_END, 0) == j
    ensures var block := s[..j + |THINK_END|]; StartsWith(block, THINK) && Find(block, THINK_END, 0) == j
  {
    FindInPrefix(s, THINK_END, j);
    EndBehindOpen(s);
    assert s[..j + |THINK_END|][..|THINK|] == s[..|THINK|];
  }

  lemma {:induction false} DropThinkClean(buf: string)
    ensures DropThink(buf).Some? ==> !Contains(DropThink(buf).value, THINK)
    decreases |buf|
  {
    var i := Find(buf, THINK, 0);
    if i != -1 {
      var j := Find(buf, THINK_END, i);
      if j != -1 { DropThinkClean(buf[..i] + buf[j + |THINK_END|..]); }
    }
  }

  lemma OneChunk(t: string)
    ensures Concat([t]) == t
    ensures var f := Reclassified(State(Hold, t, "")); Shown([t]) == f.1 + Flushed(f.0).1
  {
    assert "" + t == t && t + "" == t && [t][1..] == [];
    var f := Reclassified(State(Hold, t, ""));
    assert Fed(INITIAL, t) == f;
    assert FeedAll(f.0, []) == (f.0, "");
    assert f.1 + "" == f.1;
  }

  lemma EmittedAtOnce(body: string)
    ensures var e := Emitted("", body); e.0 + Trim(e.1) == Finish(body)
  {
    assert "" + body == body;
    assert "" + Trim(body) == Trim(body);
  }

  lemma OnePiece(t: string)
    ensures match Classify(t) case Answer(body) => Shown([t]) == Finish(body) case _ => Shown([t]) == ""
  {
    OneChunk(t);
    match Classify(t)
    case Answer(body) => EmittedAtOnce(body);
    case _ => assert Trim("") == "";
  }

  lemma FinishIsPrefix(b: string)
    ensures Finish(b) <= b
    ensures var c := if |b| <= TAIL_GUARD then 0 else |b| - TAIL_GUARD; Finish(b) == b[..c] + Trim(b[c..])
  {
    var c := if |b| <= TAIL_GUARD then 0 else |b| - TAIL_GUARD;
    assert b == b[..c] + b[c..];
    assert b[0..] == b && b[..0] + Trim(b) == Trim(b);
  }

  lemma SuffixClean(w: string, x: string, body: string)
    requires !Contains(w + (x + body), THINK)
    ensures !Contains(body, THINK)
  {
    assert w + (x + body) == (w + x) + body + "";
    PartContains(w + x, body, "", THINK);
  }

  lemma BodyIsSuffix(s: string)
    ensures s == s[..|s| - |Body(s)|] + Body(s)
  {
  }

  lemma AnswerBodyClean(t: string)
    requires Classify(t).Answer?
    ensures !Contains(Classify(t).body, THINK)
  {
    DropThinkClean(t);
    var s := LStrip(DropThink(t).value);
    var w := LStripSplit(DropThink(t).value);
    BodyIsSuffix(s);
    SuffixClean(w, s[..|s| - |Body(s)|], Body(s));
  }

  /** A text that arrives in one piece never shows a think tag. */
  lemma OnePieceShowsNoThink(t: string)
    ensures !Contains(Shown([t]), THINK)
  {
    OnePiece(t);
    match Classify(t)
    case Answer(body) =>
      AnswerBodyClean(t);
      FinishIsPrefix(body);
      PrefixClean(Finish(body), body);
    case _ =>
  }

  lemma PrefixClean(f: string, body: string)
    requires f <= body && !Contains(body, THINK)
    ensures !Contains(f, THINK)
  {
    assert body == "" + f + body[|f|..];
    PartContains("", f, body[|f|..], THINK);
  }

  lemma {:induction false} RStripKeeps(w: string, x: nat)
    requires x < |w| && !IsSpace(w[x])
    ensures x < |RStrip(w)|
  {
    if IsSpace(w[|w| - 1]) { RStripKeeps(w[..|w| - 1], x); }
  }

  /** A '>' that does not end an answer tag stands before the closing answer tag. */
  lemma BeforeEndTag(s: string, x: nat)
    requires EndsWith(s, ANSWER_END) && x < |s| && s[x] == '>' && (x > 0 ==> s[x - 1] != 'r')
    ensures x < |s| - |ANSWER_END|
  {
    var n := |s| - |ANSWER_END|;
    AtChar(s, ANSWER_END, n, if x >= n then x - n else 0);
    AtChar(s, ANSWER_END, n, 7);
    EndTagChars(if x >= n then x - n else 0);
  }

  lemma EndTagChars(k: nat)
    requires k < |ANSWER_END|
    ensures ANSWER_END[k] == '>' ==> k == 8
    ensures ANSWER_END[7] == 'r'
  {
    assert ANSWER_END == ['<', '/', 'a', 'n', 's', 'w', 'e', 'r', '>'];
  }

  lemma TrimKeeps(w: string, x: nat)
    requires x < |w| && w[x] == '>' && (x > 0 ==> w[x - 1] != 'r')
    ensures x < |Trim(w)|
  {
    var s := RStrip(w);
    RStripKeeps(w, x);
    if EndsWith(s, ANSWER_END) {
      BeforeEndTag(s, x);
      RStripKeeps(s[..|s| - |ANSWER_END|], x);
    }
  }

  lemma PrefixContains(f: string, b: string, pat: string, i: nat)
    requires f <= b && At(b, pat, i) && i + |pat| <= |f|
    ensures Contains(f, pat)
  {
    assert f[i..i + |pat|] == b[i..i + |pat|];
    assert At(f, pat, i);
    FindSpec(f, pat, 0);
  }

  /** The end of a think tag survives the trimming of what follows position `c`. */
  lemma TrimKeepsTag(b: string, c: nat, i: nat)
    requires c <= |b| && At(b, THINK, i)
    ensures i + |THINK| <= c + |Trim(b[c..])| || i + |THINK| <= c
  {
    AtChar(b, THINK, i, 5);
    AtChar(b, THINK, i, 6);
    if i + 6 >= c {
      assert b[c..][i + 6 - c] == b[i + 6] == '>';
      assert i + 6 - c > 0 ==> b[c..][i + 5 - c] == b[i + 5] == 'k';
      TrimKeeps(b[c..], i + 6 - c);
    }
  }

  /** A think tag inside an answer is shown. */
  lemma FinishKeepsThink(b: string)
    requires Contains(b, THINK)
    ensures Contains(Finish(b), THINK)
  {
    FindSpec(b, THINK, 0);
    var i := Find(b, THINK, 0);
    var c := if |b| <= TAIL_GUARD then 0 else |b| - TAIL_GUARD;
    FinishIsPrefix(b);
    TrimKeepsTag(b, c, i);
    assert |Finish(b)| == c + |Trim(b[c..])|;
    PrefixContains(Finish(b), b, THINK, i);
  }

  /** Up to the '<' of a think tag inside it, an answer reads as an answer without think tags. */
  lemma CutInsideTag(r: string) returns (k: nat)
    requires IsAnswer(r) && !IsSpace(r[0]) && Contains(r, THINK)
    ensures k < |r| && Lead(r[..k + 1]) == r[..k + 1]
    ensures IsAnswer(r[..k + 1]) && !Contains(r[..k + 1], THINK)
  {
    k := Find(r, THINK, 0);
    FindSpec(r, THINK, 0);
    AtChar(r, THINK, k, 0);
    var v := r[..k + 1];
    assert r == v + r[k + 1..];
    PrefixOfAnswer(v, r[k + 1..]);
    FindSpec(v, THINK, 0);
    if Contains(v, THINK) {
      FindAppend(v, r[k + 1..], THINK);
      assert false;
    }
  }

  /** A think tag behind an opening answer tag starts after it. */
  lemma ThinkBehindAnswerTag(r: string, k: nat)
    requires At(r, THINK, k) && k != 0 && StartsWith(r, ANSWER)
    ensures k >= |ANSWER|
  {
    AtChar(r, THINK, k, 0);
    var m := if k < |ANSWER| then k else 0;
    AtChar(r, ANSWER, 0, m);
    assert ANSWER == ['<', 'a', 'n', 's', 'w', 'e', 'r', '>'];
  }

  lemma ThinkInBody(r: string)
    requires Contains(r, THINK) && !StartsWith(r, THINK)
    ensures Contains(Body(r), THINK)
  {
    var k := Find(r, THINK, 0);
    FindSpec(r, THINK, 0);
    if StartsWith(r, ANSWER) {
      ThinkBehindAnswerTag(r, k);
      assert r == r[..|ANSWER|] + Body(r) + "";
      AtShift(r[..|ANSWER|], Body(r), "", THINK, k - |ANSWER|);
      FindSpec(Body(r), THINK, 0);
    }
  }

  lemma PrefixOfAnswer(v: string, q: string)
    requires |v| > 1 && v[|v| - 1] == '<' && IsAnswer(v + q) && !IsSpace(v[0])
    ensures IsAnswer(v) && Lead(v) == v
  {
    PrefixAppend(v, q, THINK);
    PrefixAppend(v, q, TOOL_CALL);
    assert LStrip(v) == v;
  }

  lemma TwoChunks(c: string, d: string)
    ensures Concat([c, d]) == c + d
    ensures var f := Fed(INITIAL, c); var g := Fed(f.0, d);
      Shown([c, d]) == f.1 + g.1 + Flushed(g.0).1
  {
    assert [c, d][1..] == [d] && [d][1..] == [];
    assert Concat([d]) == d + "" == d;
    var f := Fed(INITIAL, c);
    var g := Fed(f.0, d);
    assert FeedAll(f.0, [d]) == (g.0, g.1 + "");
    assert g.1 + "" == g.1;
  }

  /** A first chunk that ends inside the answer lets everything after it through. */
  lemma CutInAnswer(c: string, d: string)
    requires IsAnswer(Lead(c)) && !Contains(Lead(c), THINK)
    ensures Shown([c, d]) == Finish(Body(Lead(c + d)))
  {
    StartTracks();
    ClassifyByLead(c);
    var f := Fed(INITIAL, c);
    assert "" + c == c && "" + f.1 == f.1;
    var b := Body(Lead(c));
    assert "" + b == b;
    assert Tracks(f.0, f.1, c);
    StreamingTracks(f.0, f.1, c, d);
    var g := Fed(f.0, d);
    StreamingCompletes(g.0, f.1 + g.1, c + d);
    TwoChunks(c, d);
  }

  /** Some cut of an unsteady text shows the think tag inside its answer. */
  lemma SomeCutShowsThink(t: string) returns (chunks: seq<string>)
    requires !Steady(t)
    ensures Concat(chunks) == t && Contains(Shown(chunks), THINK)
  {
    var r, a := Lead(t), LeadPart(t);
    LeadPartSplits(t);
    var k := CutInsideTag(r);
    var v, q := r[..k + 1], r[k + 1..];
    assert r == v + q && a + (v + q) == a + v + q;
    LeadPartSkipped(t, v);
    chunks := [a + v, q];
    ThinkInBody(r);
    FinishKeepsThink(Body(r));
    assert Concat(chunks) == t by { TwoChunks(a + v, q); }
    CutInAnswer(a + v, q);
  }

  /** Every two cuts of the text into chunks show the same. */
  ghost predicate ChunkIndependent(t: string) {
    forall a, b | Concat(a) == t && Concat(b) == t :: Shown(a) == Shown(b)
  }

  /** The cut into chunks does not matter exactly when no think tag stands inside the answer. */
  lemma ChunkIndependentIffSteady(t: string)
    ensures ChunkIndependent(t) <==> Steady(t)
  {
    if Steady(t) {
      forall a, b | Concat(a) == t && Concat(b) == t
        ensures Shown(a) == Shown(b)
      {
        SteadyShowsMeaning(a);
        SteadyShowsMeaning(b);
      }
    } else {
      var chunks := SomeCutShowsThink(t);
      OnePieceShowsNoThink(t);
      assert Concat([t]) == t + "" == t;
      assert Shown([t]) != Shown(chunks);
    }
  }

  // ---------------------------------------------------------------- silence

  lemma {:induction false} SilentUntilStreaming(s: State, chunks: seq<string>)
    requires s.mode != Streaming && s.tail == ""
    requires s.mode == Hold ==> Classify(s.held).Undecided?
    ensures var f := FeedAll(s, chunks);
      f.0.mode != Streaming ==> f.1 == "" && f.0.tail == "" && (f.0.mode == Hold ==> Classify(f.0.held).Undecided?)
    decreases chunks
  {
    if chunks != [] {
      var f := Fed(s, chunks[0]);
      if f.0.mode != Streaming {
        SilentUntilStreaming(f.0, chunks[1..]);
      } else {
        StaysStreaming(f.0, chunks[1..]);
      }
    }
  }

  lemma {:induction false} StaysStreaming(s: State, chunks: seq<string>)
    requires s.mode == Streaming
    ensures FeedAll(s, chunks).0.mode == Streaming
    decreases chunks
  {
    if chunks != [] { StaysStreaming(Fed(s, chunks[0]).0, chunks[1..]); }
  }

  /** A stream that ends as a tool call, or undecided, has shown nothing; `flush` adds nothing. */
  lemma NothingShownUnlessAnswer(chunks: seq<string>)
    requires FeedAll(INITIAL, chunks).0.mode != Streaming
    ensures Shown(chunks) == "" && Flushed(FeedAll(INITIAL, chunks).0).1 == ""
  {
    StartTracks();
    SilentUntilStreaming(INITIAL, chunks);
    assert Trim("") == "";
  }
}
