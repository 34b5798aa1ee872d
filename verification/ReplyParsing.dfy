/** The agent loop's own reading of a complete reply (app/utils/text.py, app/engine/agent.py):
    think blocks are removed whatever their case, then the text between the answer tags is the
    answer. For replies of the shape the system prompt asks for, the streamed text is that answer
    exactly when at most three whitespace characters follow the closing tag. */
module ReplyParsing {
  import opened Wrappers
  import opened Text
  import opened AnswerStream
  import opened ChunkIndependence

  const TOOL_CALL_END := "</tool_call>"

  /** The characters Python's case-insensitive matching takes for a lower-case ASCII letter. */
  function Fold(c: char): char {
    if 'A' <= c <= 'Z' then c + 32 as char
    else if c == '\U{0130}' || c == '\U{0131}' then 'i'
    else if c == '\U{017F}' then 's'
    else if c == '\U{212A}' then 'k'
    else c
  }

  function FoldAll(s: string): (r: string)
    ensures |r| == |s| && forall i | 0 <= i < |s| :: r[i] == Fold(s[i])
  {
    seq(|s|, i requires 0 <= i < |s| => Fold(s[i]))
  }

  function FindAnyCase(s: string, pat: string, start: nat): (r: int)
    ensures r == -1 || start <= r <= |s| - |pat|
  {
    Find(FoldAll(s), pat, start)
  }

  /** `<think>.*?</think>` removed everywhere: leftmost, non-greedy, without rescanning. */
  function RemoveThink(s: string): string
    decreases |s|
  {
    var i := FindAnyCase(s, THINK, 0);
    if i == -1 then s
    else
      var j := FindAnyCase(s, THINK_END, i + |THINK|);
      if j == -1 then s else s[..i] + RemoveThink(s[j + |THINK_END|..])
  }

  /** What stands between the first `open` and the next `close`, for a lazy match between them. */
  function Between(s: string, open: string, close: string): Option<string> {
    var i := Find(s, open, 0);
    if i == -1 then None
    else
      var j := Find(s, close, i + |open|);
      if j == -1 then None else Some(s[i + |open|..j])
  }

  datatype Reading = Empty | Call(json: string) | Final(answer: string)

  /** How the loop reads one complete reply. */
  function Read(raw: string): Reading {
    var content := Strip(RemoveThink(raw));
    if content == "" then Empty
    else
      match Between(content, TOOL_CALL, TOOL_CALL_END)
      case Some(json) => Call(Strip(json))
      case None =>
        match Between(content, ANSWER, ANSWER_END)
        case Some(text) => Final(Strip(text))
        case None => Final(content)
  }

  // ---------------------------------------------------------------- replies as prompted

  /** Whitespace and a completed think block. */
  datatype Block = Block(gap: string, thought: string)

  predicate GoodBlock(b: Block) {
    AllSpace(b.gap) && FindAnyCase(b.thought, THINK_END, 0) == -1
  }

  function Blocks(bs: seq<Block>): string {
    if bs == [] then "" else bs[0].gap + (THINK + (bs[0].thought + (THINK_END + Blocks(bs[1..]))))
  }

  /** Leading blocks, `<answer>`, a body free of tags, `</answer>` and trailing whitespace. */
  datatype Reply = Reply(blocks: seq<Block>, gap: string, body: string, space: string)

  predicate GoodReply(r: Reply) {
    && (forall b | b in r.blocks :: GoodBlock(b))
    && AllSpace(r.gap) && AllSpace(r.space)
    && FindAnyCase(r.body, THINK, 0) == -1
    && !Contains(r.body, ANSWER_END) && !Contains(r.body, TOOL_CALL)
  }

  function Answered(r: Reply): string {
    ANSWER + (r.body + (ANSWER_END + r.space))
  }

  function Raw(r: Reply): string {
    Blocks(r.blocks) + (r.gap + Answered(r))
  }

  // ---------------------------------------------------------------- searching over joints

  /** A pattern whose first character does not occur in it again. */
  predicate Borderless(pat: string) {
    pat != "" && forall i | 0 < i < |pat| :: pat[i] != pat[0]
  }

  /** No occurrence straddles a joint at which the pattern's first character stands. */
  lemma {:induction false} JointFind(a: string, b: string, pat: string, start: nat)
    requires Borderless(pat) && start <= |a|
    requires b != "" ==> b[0] == pat[0]
    requires Find(a, pat, start) == -1
    ensures Find(a + b, pat, start) == if Find(b, pat, 0) == -1 then -1 else |a| + Find(b, pat, 0)
    decreases |a| - start
  {
    if start == |a| {
      FindShift(a, b, pat, 0);
    } else {
      NoStraddle(a, b, pat, start);
      JointFind(a, b, pat, start + 1);
    }
  }

  lemma NoStraddle(a: string, b: string, pat: string, i: nat)
    requires Borderless(pat) && i < |a|
    requires b != "" ==> b[0] == pat[0]
    requires !At(a, pat, i)
    ensures !At(a + b, pat, i)
  {
    if i + |pat| <= |a| {
      assert "" + a + b == a + b;
      AtShift("", a, b, pat, i);
    } else {
      AtChar(a + b, pat, i, |a| - i);
    }
  }

  /** Behind a tag in which the pattern can begin at most at its first character, and does not. */
  lemma BehindTag(tag: string, s: string, pat: string)
    requires tag != "" && pat != "" && (forall i | 0 < i < |tag| :: tag[i] != pat[0]) && !At(tag + s, pat, 0)
    ensures Find(tag + s, pat, 0) == if Find(s, pat, 0) == -1 then -1 else |tag| + Find(s, pat, 0)
    ensures Find(tag + s, pat, |tag|) == Find(tag + s, pat, 0)
  {
    FindBehind(tag, s, pat, 1);
    FindBehind(tag, s, pat, |tag|);
  }

  /** The opening answer tag contains none of the other tags, nor the beginning of one. */
  lemma BehindAnswerTag(s: string, pat: string)
    requires pat == THINK || pat == TOOL_CALL || pat == ANSWER_END
    ensures Find(ANSWER + s, pat, 0) == if Find(s, pat, 0) == -1 then -1 else |ANSWER| + Find(s, pat, 0)
    ensures Find(ANSWER + s, pat, |ANSWER|) == Find(ANSWER + s, pat, 0)
  {
    AtChar(ANSWER + s, pat, 0, 1);
    assert (ANSWER + s)[1] == 'a';
    BehindTag(ANSWER, s, pat);
  }

  lemma TagsBorderless()
    ensures Borderless(THINK) && Borderless(THINK_END) && Borderless(TOOL_CALL) && Borderless(ANSWER_END)
  {
  }

  /** What is found as it is would be found in any case. */
  lemma AnyCaseFindsMore(s: string, pat: string)
    requires FoldAll(pat) == pat
    ensures FindAnyCase(s, pat, 0) == -1 ==> Find(s, pat, 0) == -1
  {
    var i := Find(s, pat, 0);
    FindSpec(s, pat, 0);
    FindSpec(FoldAll(s), pat, 0);
    if i != -1 {
      assert FoldAll(s)[i..i + |pat|] == FoldAll(pat) by {
        forall k | 0 <= k < |pat| ensures FoldAll(s)[i + k] == FoldAll(pat)[k] { AtChar(s, pat, i, k); }
      }
      assert At(FoldAll(s), pat, i);
    }
  }

  lemma FoldJoin(a: string, b: string)
    ensures FoldAll(a + b) == FoldAll(a) + FoldAll(b)
  {
  }

  lemma FoldTags()
    ensures FoldAll(THINK) == THINK && FoldAll(THINK_END) == THINK_END
    ensures FoldAll(ANSWER) == ANSWER && FoldAll(ANSWER_END) == ANSWER_END
  {
  }

  lemma FoldSpace(w: string)
    requires AllSpace(w)
    ensures FoldAll(w) == w
  {
  }

  // ---------------------------------------------------------------- the loop's reading

  lemma OpenAtStart(s: string, tag: string)
    ensures Find(tag + s, tag, 0) == 0
  {
    assert (tag + s)[..|tag|] == tag;
    FindIs(tag + s, tag, 0, 0);
  }

  /** The closing tag of a block is the first one after its opening tag. */
  lemma BlockCloses(thought: string, rest: string)
    requires Find(thought, THINK_END, 0) == -1
    ensures Find(THINK + (thought + (THINK_END + rest)), THINK_END, |THINK|) == |THINK| + |thought|
  {
    TagsBorderless();
    JointFind(thought, THINK_END + rest, THINK_END, 0);
    OpenAtStart(rest, THINK_END);
    FindBehind(THINK, thought + (THINK_END + rest), THINK_END, |THINK|);
  }

  lemma FoldBlock(b: Block, rest: string)
    requires AllSpace(b.gap)
    ensures FoldAll(b.gap + (THINK + (b.thought + (THINK_END + rest))))
         == b.gap + (THINK + (FoldAll(b.thought) + (THINK_END + FoldAll(rest))))
  {
    FoldTags();
    FoldSpace(b.gap);
    FoldJoin(THINK_END, rest);
    FoldJoin(b.thought, THINK_END + rest);
    FoldJoin(THINK, b.thought + (THINK_END + rest));
    FoldJoin(b.gap, THINK + (b.thought + (THINK_END + rest)));
  }

  lemma BlockFound(gap: string, thought: string, rest: string)
    requires AllSpace(gap) && Find(thought, THINK_END, 0) == -1
    ensures var s := gap + (THINK + (thought + (THINK_END + rest)));
      Find(s, THINK, 0) == |gap| && Find(s, THINK_END, |gap| + |THINK|) == |gap| + |THINK| + |thought|
  {
    var f := THINK + (thought + (THINK_END + rest));
    OpenAtStart(thought + (THINK_END + rest), THINK);
    ThinkAfterSpace(gap, f);
    BlockCloses(thought, rest);
    FindShift(gap, f, THINK_END, |THINK|);
  }

  lemma RemoveStep(s: string, i: nat, j: nat, rest: string, cleaned: string)
    requires FindAnyCase(s, THINK, 0) == i && FindAnyCase(s, THINK_END, i + |THINK|) == j
    requires rest == s[j + |THINK_END|..] && cleaned == RemoveThink(rest)
    ensures RemoveThink(s) == s[..i] + cleaned
  {
  }

  lemma BlockSlices(b: Block, rest: string, s: string)
    requires s == b.gap + (THINK + (b.thought + (THINK_END + rest)))
    ensures |s| >= |b.gap| + |THINK| + |b.thought| + |THINK_END|
    ensures s[..|b.gap|] == b.gap && s[|b.gap| + |THINK| + |b.thought| + |THINK_END|..] == rest
  {
  }

  /** Where the any-case search finds the tags of a leading block. */
  lemma BlockFoundAnyCase(b: Block, rest: string, s: string)
    requires GoodBlock(b) && s == b.gap + (THINK + (b.thought + (THINK_END + rest)))
    ensures FindAnyCase(s, THINK, 0) == |b.gap|
    ensures FindAnyCase(s, THINK_END, |b.gap| + |THINK|) == |b.gap| + |THINK| + |b.thought|
  {
    FoldBlock(b, rest);
    BlockFound(b.gap, FoldAll(b.thought), FoldAll(rest));
  }

  lemma RemoveBlock(b: Block, rest: string, s: string, cleaned: string)
    requires GoodBlock(b) && s == b.gap + (THINK + (b.thought + (THINK_END + rest))) && cleaned == RemoveThink(rest)
    ensures RemoveThink(s) == b.gap + cleaned
  {
    BlockFoundAnyCase(b, rest, s);
    BlockSlices(b, rest, s);
    RemoveStep(s, |b.gap|, |b.gap| + |THINK| + |b.thought|, rest, cleaned);
  }

  /** The whitespace between the leading blocks. */
  function Gaps(bs: seq<Block>): string {
    if bs == [] then "" else bs[0].gap + Gaps(bs[1..])
  }

  lemma {:induction false} RemoveBlocks(bs: seq<Block>, rest: string)
    requires forall b | b in bs :: GoodBlock(b)
    ensures RemoveThink(Blocks(bs) + rest) == Gaps(bs) + RemoveThink(rest) && AllSpace(Gaps(bs))
  {
    if bs == [] {
      assert "" + rest == rest && "" + RemoveThink(rest) == RemoveThink(rest);
    } else {
      RemoveBlocks(bs[1..], rest);
      FirstBlockOf(bs, rest);
      var tail := Blocks(bs[1..]) + rest;
      RemoveBlock(bs[0], tail, Blocks(bs) + rest, RemoveThink(tail));
      assert bs[0].gap + (Gaps(bs[1..]) + RemoveThink(rest)) == Gaps(bs) + RemoveThink(rest);
    }
  }

  lemma Regrouped(a: string, b: string, c: string)
    ensures (a + b) + c == a + (b + c)
  {
  }

  lemma FirstBlockOf(bs: seq<Block>, rest: string)
    requires bs != []
    ensures Blocks(bs) + rest == bs[0].gap + (THINK + (bs[0].thought + (THINK_END + (Blocks(bs[1..]) + rest))))
  {
    var b, gap, thought := Blocks(bs[1..]), bs[0].gap, bs[0].thought;
    Regrouped(THINK_END, b, rest);
    Regrouped(thought, THINK_END + b, rest);
    Regrouped(THINK, thought + (THINK_END + b), rest);
    Regrouped(gap, THINK + (thought + (THINK_END + b)), rest);
  }

  /** Nothing in an answer reads as a think block in any case. */
  lemma AnsweredHasNoThink(r: Reply)
    requires GoodReply(r)
    ensures FindAnyCase(Answered(r), THINK, 0) == -1
  {
    FoldTags();
    FoldSpace(r.space);
    FoldJoin(ANSWER_END, r.space);
    FoldJoin(r.body, ANSWER_END + r.space);
    FoldJoin(ANSWER, r.body + (ANSWER_END + r.space));
    EndHasNo(r.space, THINK);
    TagsBorderless();
    JointFind(FoldAll(r.body), ANSWER_END + r.space, THINK, 0);
    BehindAnswerTag(FoldAll(r.body) + (ANSWER_END + r.space), THINK);
  }

  /** A closing answer tag and whitespace contain neither an opening think nor tool-call tag. */
  lemma EndHasNo(space: string, pat: string)
    requires AllSpace(space) && (pat == THINK || pat == TOOL_CALL)
    ensures Find(ANSWER_END + space, pat, 0) == -1
  {
    var s := ANSWER_END + space;
    forall i | 0 <= i ensures !At(s, pat, i) {
      AtChar(s, pat, i, 0);
      AtChar(s, pat, i, 1);
    }
    FindSpec(s, pat, 0);
  }

  lemma AnsweredStays(r: Reply)
    requires GoodReply(r)
    ensures RemoveThink(r.gap + Answered(r)) == r.gap + Answered(r)
  {
    AnsweredHasNoThink(r);
    FoldSpace(r.gap);
    FoldJoin(r.gap, Answered(r));
    ThinkAfterSpace(r.gap, FoldAll(Answered(r)));
  }

  lemma OuterSpace(w: string, gap: string, body: string, space: string)
    requires AllSpace(w) && AllSpace(gap) && AllSpace(space)
    ensures Strip(w + (gap + (ANSWER + (body + (ANSWER_END + space))))) == ANSWER + (body + ANSWER_END)
  {
    var content := ANSWER + (body + ANSWER_END);
    assert w + (gap + (ANSWER + (body + (ANSWER_END + space)))) == (w + gap) + content + space;
    assert content[0] == '<' && content[|content| - 1] == '>';
    StripOuter(w + gap, content, space);
  }

  /** The loop extracts exactly the body, without outer whitespace. */
  lemma ReadsBody(r: Reply)
    requires GoodReply(r)
    ensures Read(Raw(r)) == Final(Strip(r.body))
  {
    RemoveBlocks(r.blocks, r.gap + Answered(r));
    AnsweredStays(r);
    OuterSpace(Gaps(r.blocks), r.gap, r.body, r.space);
    ReadsContent(r.body);
  }

  lemma NoCallInContent(body: string)
    requires !Contains(body, TOOL_CALL)
    ensures Find(ANSWER + (body + ANSWER_END), TOOL_CALL, 0) == -1
  {
    assert ANSWER_END + "" == ANSWER_END;
    EndHasNo("", TOOL_CALL);
    TagsBorderless();
    JointFind(body, ANSWER_END, TOOL_CALL, 0);
    BehindAnswerTag(body + ANSWER_END, TOOL_CALL);
  }

  lemma EndInContent(body: string)
    requires !Contains(body, ANSWER_END)
    ensures Find(ANSWER + (body + ANSWER_END), ANSWER_END, |ANSWER|) == |ANSWER| + |body|
  {
    assert ANSWER_END + "" == ANSWER_END;
    OpenAtStart("", ANSWER_END);
    TagsBorderless();
    JointFind(body, ANSWER_END, ANSWER_END, 0);
    BehindAnswerTag(body + ANSWER_END, ANSWER_END);
  }

  lemma ReadsContent(body: string)
    requires !Contains(body, ANSWER_END) && !Contains(body, TOOL_CALL)
    ensures var content := ANSWER + (body + ANSWER_END);
      Between(content, TOOL_CALL, TOOL_CALL_END).None? && Between(content, ANSWER, ANSWER_END) == Some(body)
  {
    var content := ANSWER + (body + ANSWER_END);
    NoCallInContent(body);
    EndInContent(body);
    OpenAtStart(body + ANSWER_END, ANSWER);
    assert content[|ANSWER|..|ANSWER| + |body|] == body;
  }

  /** A tool call as prompted. */
  function Called(json: string, space: string): string {
    TOOL_CALL + (json + (TOOL_CALL_END + space))
  }

  lemma CallFolds(json: string, space: string)
    requires AllSpace(space)
    ensures FoldAll(Called(json, space)) == Called(FoldAll(json), space)
  {
    FoldSpace(space);
    assert FoldAll(TOOL_CALL) == TOOL_CALL;
    assert FoldAll(TOOL_CALL_END) == TOOL_CALL_END;
    FoldJoin(TOOL_CALL_END, space);
    FoldJoin(json, TOOL_CALL_END + space);
    FoldJoin(TOOL_CALL, json + (TOOL_CALL_END + space));
  }

  lemma CallEndHasNoThink(space: string)
    requires AllSpace(space)
    ensures Find(TOOL_CALL_END + space, THINK, 0) == -1
  {
    var s := TOOL_CALL_END + space;
    forall i | 0 <= i ensures !At(s, THINK, i) {
      AtChar(s, THINK, i, 0);
      AtChar(s, THINK, i, 1);
    }
    FindSpec(s, THINK, 0);
  }

  lemma BehindCallTag(s: string)
    ensures Find(s, THINK, 0) == -1 ==> Find(TOOL_CALL + s, THINK, 0) == -1
  {
    AtChar(TOOL_CALL + s, THINK, 0, 2);
    assert (TOOL_CALL + s)[2] == 'o';
    BehindTag(TOOL_CALL, s, THINK);
  }

  /** Nothing in a tool call reads as a think block in any case. */
  lemma CallHasNoThink(json: string, space: string)
    requires AllSpace(space) && FindAnyCase(json, THINK, 0) == -1
    ensures FindAnyCase(Called(json, space), THINK, 0) == -1
  {
    CallFolds(json, space);
    CallEndHasNoThink(space);
    TagsBorderless();
    JointFind(FoldAll(json), TOOL_CALL_END + space, THINK, 0);
    BehindCallTag(FoldAll(json) + (TOOL_CALL_END + space));
  }

  lemma CallStays(gap: string, json: string, space: string)
    requires AllSpace(gap) && AllSpace(space) && FindAnyCase(json, THINK, 0) == -1
    ensures RemoveThink(gap + Called(json, space)) == gap + Called(json, space)
  {
    CallHasNoThink(json, space);
    FoldSpace(gap);
    FoldJoin(gap, Called(json, space));
    ThinkAfterSpace(gap, FoldAll(Called(json, space)));
  }

  lemma CallOuterSpace(w: string, gap: string, json: string, space: string)
    requires AllSpace(w) && AllSpace(gap) && AllSpace(space)
    ensures Strip(w + (gap + Called(json, space))) == TOOL_CALL + (json + TOOL_CALL_END)
  {
    var content := TOOL_CALL + (json + TOOL_CALL_END);
    assert w + (gap + Called(json, space)) == (w + gap) + content + space;
    assert content[0] == '<' && content[|content| - 1] == '>';
    StripOuter(w + gap, content, space);
  }

  lemma CallBetween(json: string)
    requires !Contains(json, TOOL_CALL_END)
    ensures Between(TOOL_CALL + (json + TOOL_CALL_END), TOOL_CALL, TOOL_CALL_END) == Some(json)
  {
    var rest := json + TOOL_CALL_END;
    OpenAtStart(rest, TOOL_CALL);
    OpenAtStart("", TOOL_CALL_END);
    assert TOOL_CALL_END + "" == TOOL_CALL_END;
    assert Borderless(TOOL_CALL_END);
    JointFind(json, TOOL_CALL_END, TOOL_CALL_END, 0);
    FindShift(TOOL_CALL, rest, TOOL_CALL_END, 0);
    assert (TOOL_CALL + rest)[|TOOL_CALL|..|TOOL_CALL| + |json|] == json;
  }

  /** From a tool call as prompted the loop takes exactly its JSON, without outer whitespace. */
  lemma ReadsCall(bs: seq<Block>, gap: string, json: string, space: string)
    requires (forall b | b in bs :: GoodBlock(b)) && AllSpace(gap) && AllSpace(space)
    requires FindAnyCase(json, THINK, 0) == -1 && !Contains(json, TOOL_CALL_END)
    ensures Read(Blocks(bs) + (gap + Called(json, space))) == Call(Strip(json))
  {
    RemoveBlocks(bs, gap + Called(json, space));
    CallStays(gap, json, space);
    CallOuterSpace(Gaps(bs), gap, json, space);
    CallBetween(json);
  }

  lemma SpaceAround(w: string, gap: string, text: string, space: string)
    requires AllSpace(w) && AllSpace(gap) && AllSpace(space)
    requires text != "" ==> !IsSpace(text[0]) && !IsSpace(text[|text| - 1])
    ensures Strip(w + (gap + text + space)) == text
  {
    assert w + (gap + text + space) == (w + gap) + text + space;
    StripOuter(w + gap, text, space);
  }

  lemma ReadsUntagged(raw: string, text: string)
    requires Strip(RemoveThink(raw)) == text && !Contains(text, TOOL_CALL) && !Contains(text, ANSWER)
    ensures Read(raw) == if text == "" then Empty else Final(text)
  {
  }

  /** A reply without tags is the answer as it stands, without outer whitespace; nothing but think
      blocks and whitespace is an empty reply. */
  lemma ReadsPlain(bs: seq<Block>, gap: string, text: string, space: string)
    requires (forall b | b in bs :: GoodBlock(b)) && AllSpace(gap) && AllSpace(space)
    requires text != "" ==> !IsSpace(text[0]) && !IsSpace(text[|text| - 1])
    requires FindAnyCase(gap + text + space, THINK, 0) == -1 && !Contains(text, TOOL_CALL) && !Contains(text, ANSWER)
    ensures Read(Blocks(bs) + (gap + text + space)) == if text == "" then Empty else Final(text)
  {
    RemoveBlocks(bs, gap + text + space);
    SpaceAround(Gaps(bs), gap, text, space);
    ReadsUntagged(Blocks(bs) + (gap + text + space), text);
  }

  // ---------------------------------------------------------------- what the stream shows

  lemma ClosedBlock(thought: string)
    requires Find(thought, THINK_END, 0) == -1
    ensures var block := THINK + (thought + THINK_END);
      StartsWith(block, THINK) && Find(block, THINK_END, 0) == |THINK| + |thought|
  {
    assert THINK_END + "" == THINK_END;
    BlockCloses(thought, "");
    OpenAtStart(thought + THINK_END, THINK);
    FindSpec(THINK + (thought + THINK_END), THINK, 0);
    EndBehindOpen(THINK + (thought + THINK_END));
  }

  lemma BlockStart(b: Block, u: string)
    requires GoodBlock(b)
    ensures Lead(b.gap + (THINK + (b.thought + (THINK_END + u)))) == Lead(u)
  {
    FoldTags();
    AnyCaseFindsMore(b.thought, THINK_END);
    ClosedBlock(b.thought);
    SkipOne(b.gap, THINK + (b.thought + THINK_END), u, |THINK| + |b.thought|);
    assert THINK + (b.thought + THINK_END) + u == THINK + (b.thought + (THINK_END + u));
  }

  lemma {:induction false} BlocksSkipped(bs: seq<Block>, u: string)
    requires forall b | b in bs :: GoodBlock(b)
    ensures Lead(Blocks(bs) + u) == Lead(u)
  {
    if bs == [] {
      assert "" + u == u;
    } else {
      FirstBlockOf(bs, u);
      BlockStart(bs[0], Blocks(bs[1..]) + u);
      BlocksSkipped(bs[1..], u);
    }
  }

  /** A prompted reply is steady, and its meaning is its end-trimmed answer. */
  lemma ReplyMeaning(r: Reply)
    requires GoodReply(r)
    ensures Steady(Raw(r)) && Meaning(Raw(r)) == Finish(r.body + (ANSWER_END + r.space))
  {
    BlocksSkipped(r.blocks, r.gap + Answered(r));
    SpaceInFront(r.gap, Answered(r));
    LeadOfStripped(r.gap + Answered(r), Answered(r));
    AnsweredHasNoThink(r);
    FoldTags();
    AnyCaseFindsMore(Answered(r), THINK);
    OpenAtStart(r.body + (ANSWER_END + r.space), ANSWER);
    AnswerTagIsAnswer(r.body + (ANSWER_END + r.space));
  }

  lemma AnswerTagIsAnswer(s: string)
    ensures Lead(ANSWER + s) == ANSWER + s && IsAnswer(ANSWER + s) && Body(ANSWER + s) == s
  {
    var t := ANSWER + s;
    AtChar(t, THINK, 0, 1);
    AtChar(t, TOOL_CALL, 0, 1);
    assert t[0] == '<' && t[1] == 'a';
    assert t[..|ANSWER|] == ANSWER;
    assert LStrip(t) == t;
  }

  // ---------------------------------------------------------------- where the two agree

  /** Trailing whitespace never matters to `strip`. */
  lemma StripIgnores(z: string, space: string)
    requires AllSpace(space)
    ensures Strip(z + space) == Strip(z)
  {
    LStripAppend(z, space);
    assert space + "" == space;
    LStripUnique(space, "");
    var u := LStrip(z);
    var v := RStripSplit(u);
    assert u + space == RStrip(u) + (v + space);
    RStripUnique(RStrip(u), v + space);
  }

  lemma EndsInTag(x: string, tag: string)
    requires tag != ""
    ensures EndsWith(x + tag, tag) && (x + tag)[..|x + tag| - |tag|] == x
    ensures (x + tag)[|x + tag| - 1] == tag[|tag| - 1]
  {
    assert (x + tag)[|x|..|x| + |tag|] == tag;
  }

  lemma TrimTagged(x: string, space: string)
    requires AllSpace(space)
    ensures Trim((x + ANSWER_END) + space) == RStrip(x)
  {
    EndsInTag(x, ANSWER_END);
    RStripUnique(x + ANSWER_END, space);
  }

  lemma TrimUntagged(z: string, space: string)
    requires AllSpace(space) && |z| < |ANSWER_END| && (z != "" ==> !IsSpace(z[|z| - 1]))
    ensures Trim(z + space) == z
  {
    RStripUnique(z, space);
  }

  lemma ShortSplit(body: string, space: string, c: nat)
    requires |space| <= 3
    requires var n := |body + (ANSWER_END + space)|; c == if n <= TAIL_GUARD then 0 else n - TAIL_GUARD
    ensures var b := body + (ANSWER_END + space);
      c <= |body| && b[..c] == body[..c] && b[c..] == (body[c..] + ANSWER_END) + space
  {
  }

  /** With the whole closing tag in the tail, what is shown is the body. */
  lemma ShortSpace(body: string, space: string)
    requires AllSpace(space) && |space| <= 3
    ensures Strip(Finish(body + (ANSWER_END + space))) == Strip(body)
  {
    var b := body + (ANSWER_END + space);
    FinishIsPrefix(b);
    var c := if |b| <= TAIL_GUARD then 0 else |b| - TAIL_GUARD;
    ShortSplit(body, space, c);
    TrimTagged(body[c..], space);
    StripTail(body, c);
  }

  lemma StripTail(body: string, c: nat)
    requires c <= |body|
    ensures Strip(body[..c] + RStrip(body[c..])) == Strip(body)
  {
    var v := RStripSplit(body[c..]);
    assert body == (body[..c] + RStrip(body[c..])) + v;
    StripIgnores(body[..c] + RStrip(body[c..]), v);
  }

  lemma SplitAt(x: string, y: string)
    ensures (x + y)[..|x|] == x && (x + y)[|x|..] == y
  {
  }

  /** The tail guard cuts the closing tag in two. */
  lemma CutInTag(body: string, tag: string, space: string, m: nat)
    requires m <= |tag|
    ensures var b := body + (tag + space); var c := |body| + m;
      b[c..] == tag[m..] + space && b[..c] + tag[m..] == body + tag
  {
    var x, y := body + tag[..m], tag[m..] + space;
    assert tag == tag[..m] + tag[m..];
    assert body + (tag + space) == x + y;
    SplitAt(x, y);
  }

  /** The tail guard cuts within the trailing whitespace. */
  lemma CutInSpace(body: string, tag: string, space: string, m: nat)
    requires m <= |space|
    ensures var b := body + (tag + space); var c := |body + tag| + m;
      b[c..] == space[m..] && b[..c] == (body + tag) + space[..m]
  {
    var x, y := (body + tag) + space[..m], space[m..];
    assert space == space[..m] + space[m..];
    assert body + (tag + space) == x + y;
    SplitAt(x, y);
  }

  lemma SpaceInTail(body: string, tag: string, space: string, n: nat)
    requires |space| <= n <= |tag| + |space|
    ensures var b := body + (tag + space); var c := |b| - n; var z := tag[|tag| + |space| - n..];
      && c >= 0 && b[c..] == z + space
      && b[..c] + z == body + tag
  {
    CutInTag(body, tag, space, |tag| + |space| - n);
  }

  /** The whitespace and an end of the closing tag are in the tail. */
  lemma TagEndInTail(body: string, space: string)
    requires AllSpace(space) && 3 < |space| <= TAIL_GUARD
    ensures Strip(Finish(body + (ANSWER_END + space))) == Strip(body + ANSWER_END)
  {
    var b := body + (ANSWER_END + space);
    FinishIsPrefix(b);
    SpaceInTail(body, ANSWER_END, space, TAIL_GUARD);
    TrimUntagged(ANSWER_END[|ANSWER_END| + |space| - TAIL_GUARD..], space);
  }

  /** Only whitespace is in the tail. */
  lemma SpaceFillsTail(body: string, space: string)
    requires AllSpace(space) && |space| > TAIL_GUARD
    ensures Strip(Finish(body + (ANSWER_END + space))) == Strip(body + ANSWER_END)
  {
    var b, n := body + (ANSWER_END + space), |space| - TAIL_GUARD;
    FinishIsPrefix(b);
    CutInSpace(body, ANSWER_END, space, n);
    OnlySpace(space[n..]);
    assert ((body + ANSWER_END) + space[..n]) + "" == (body + ANSWER_END) + space[..n];
    StripIgnores(body + ANSWER_END, space[..n]);
  }

  lemma OnlySpace(space: string)
    requires AllSpace(space)
    ensures Trim(space) == ""
  {
    assert "" + space == space;
    TrimUntagged("", space);
  }

  /** With more whitespace the closing tag reaches the user. */
  lemma LongSpace(body: string, space: string)
    requires AllSpace(space) && |space| > 3
    ensures Strip(Finish(body + (ANSWER_END + space))) == Strip(body + ANSWER_END)
  {
    if |space| <= TAIL_GUARD { TagEndInTail(body, space); } else { SpaceFillsTail(body, space); }
  }

  lemma TagStaysOn(body: string)
    ensures Strip(body + ANSWER_END) != Strip(body)
  {
    LStripAppend(body, ANSWER_END);
    assert LStrip(ANSWER_END) == ANSWER_END;
    var l := LStrip(body);
    assert (l + ANSWER_END) + "" == l + ANSWER_END;
    RStripUnique(l + ANSWER_END, "");
    assert ANSWER_END + "" == ANSWER_END;
    RStripUnique(ANSWER_END, "");
  }

  /** For a reply as prompted, cut into chunks anyhow: the user is shown the answer the loop
      extracts, up to outer whitespace, exactly when at most three characters follow the tag. */
  lemma StreamAgreesWithRead(r: Reply, chunks: seq<string>)
    requires GoodReply(r) && Concat(chunks) == Raw(r)
    ensures Read(Raw(r)) == Final(Strip(r.body))
    ensures Final(Strip(Shown(chunks))) == Read(Raw(r)) <==> |r.space| <= 3
  {
    ReadsBody(r);
    ReplyMeaning(r);
    SteadyShowsMeaning(chunks);
    if |r.space| <= 3 {
      ShortSpace(r.body, r.space);
    } else {
      LongSpace(r.body, r.space);
      TagStaysOn(r.body);
    }
  }
}
