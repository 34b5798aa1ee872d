/** What holds of every run of the agent loop, whatever model and tools do. */
module AgentBounds {
  import opened Wrappers
  import opened Text
  import opened AgentLoop
  import S = AnswerStream
  import R = ReplyParsing

  /** Model calls among the acts of a run. */
  function Asks(acts: seq<Act>): nat {
    if acts == [] then 0 else Asks(acts[..|acts| - 1]) + if acts[|acts| - 1].Asked? then 1 else 0
  }

  /** Tool invocations among the acts of a run. */
  function Invocations(acts: seq<Act>): nat {
    if acts == [] then 0 else Invocations(acts[..|acts| - 1]) + if acts[|acts| - 1].Invoked? then 1 else 0
  }

  /** Events number 1, 2, 3, … without a gap. */
  predicate Numbered(events: seq<Event>) {
    forall i | 0 <= i < |events| :: events[i].number == i + 1
  }

  /** Nothing but a stop follows an observation that stops the loop. */
  predicate StopsStop(acts: seq<Act>) {
    forall i | 0 <= i < |acts| - 1 :: acts[i] != Observed(true)
  }

  predicate Fits(s: State, asks: nat, invocations: nat) {
    && s.number == |s.events| && Numbered(s.events)
    && Asks(s.acts) <= asks && Invocations(s.acts) <= invocations
  }

  /** No observation has stopped the loop yet. */
  predicate Calm(s: State) {
    Observed(true) !in s.acts
  }

  lemma ActFits(s: State, a: Act, asks: nat, invocations: nat)
    requires Fits(s, asks, invocations)
    ensures var t := s.(acts := s.acts + [a]);
      && Fits(t, if a.Asked? then asks + 1 else asks, if a.Invoked? then invocations + 1 else invocations)
      && (Calm(s) ==> StopsStop(t.acts) && (a == Observed(true) || Calm(t)))
  {
    assert (s.acts + [a])[..|s.acts|] == s.acts;
  }

  lemma EmitFits(env: Env, s: State, kind: Kind, asks: nat, invocations: nat)
    requires Fits(s, asks, invocations)
    ensures Fits(Emit(env, s, kind), asks, invocations) && Emit(env, s, kind).acts == s.acts
  {
  }

  lemma {:induction false} StreamFits(env: Env, s: State, a: S.State, chunks: seq<string>, asks: nat, invocations: nat)
    requires Fits(s, asks, invocations)
    ensures var t := Stream(env, s, a, chunks).0; Fits(t, asks, invocations) && t.acts == s.acts
  {
    if chunks != [] {
      StreamFits(env, s, a, chunks[..|chunks| - 1], asks, invocations);
      var before := Stream(env, s, a, chunks[..|chunks| - 1]);
      EmitFits(env, before.0, Delta(env.feed(before.1, chunks[|chunks| - 1]).1), asks, invocations);
    }
  }

  lemma AskFits(env: Env, s: State, k: nat, asks: nat, invocations: nat)
    requires Fits(s, asks, invocations) && Calm(s)
    ensures var t := Ask(env, s, k); Fits(t, asks + 1, invocations) && Calm(t)
  {
    var asked := s.(acts := s.acts + [Asked]);
    ActFits(s, Asked, asks, invocations);
    if env.listened {
      StreamFits(env, asked, S.INITIAL, env.model(k).chunks, asks + 1, invocations);
      var r := Stream(env, asked, S.INITIAL, env.model(k).chunks);
      EmitFits(env, r.0, Delta(env.flush(r.1).1), asks + 1, invocations);
    }
  }

  lemma ObserveFits(env: Env, s: State, tool: string, o: Observation, asks: nat, invocations: nat)
    requires Fits(s, asks, invocations) && Calm(s)
    ensures var r := Observe(env, s, tool, o);
      Fits(r.0, asks, invocations) && StopsStop(r.0.acts) && (r.1.Continue? ==> Calm(r.0))
  {
    EmitFits(env, s, ToolResult(tool), asks, invocations);
    ActFits(Emit(env, s, ToolResult(tool)), Observed(Stops(o)), asks, invocations);
    CalmStops(s);
  }

  lemma UseToolFits(env: Env, s: State, i: nat, json: string, tool: string, args: Args, asks: nat, invocations: nat)
    requires Fits(s, asks, invocations) && Calm(s)
    ensures var r := UseTool(env, s, i, json, tool, args);
      && Fits(r.0, asks, invocations + 1) && StopsStop(r.0.acts)
      && (r.1.Continue? ==> Calm(r.0))
  {
    CalmStops(s);
    var called := Emit(env, s, ToolCall(tool));
    EmitFits(env, s, ToolCall(tool), asks, invocations);
    ActFits(called, Invoked(tool), asks, invocations);
    var invoked := if tool in env.tools then called.(acts := called.acts + [Invoked(tool)]) else called;
    ObserveFits(env, invoked, tool, Seen(env, i, tool), asks, invocations + 1);
  }

  lemma CalmStops(s: State)
    requires Calm(s)
    ensures StopsStop(s.acts)
  {
  }

  /** After `i` rounds. */
  predicate RoundsOk(r: (State, Flow), i: nat) {
    Fits(r.0, i, i) && StopsStop(r.0.acts) && (r.1.Continue? ==> Calm(r.0))
  }

  lemma RoundFits(env: Env, s: State, i: nat)
    requires RoundsOk((s, Continue), i)
    ensures RoundsOk(Round(env, s, i), i + 1)
  {
    AskFits(env, s, i, i, i);
    var t := Ask(env, s, i);
    CalmStops(t);
    if env.model(i).Says? {
      var reading := env.read(S.Concat(env.model(i).chunks));
      if reading.Call? && env.parse(reading.json).Use? {
        var call := env.parse(reading.json);
        UseToolFits(env, t, i, reading.json, call.tool, call.args, i + 1, i);
      }
    }
  }

  lemma StartFits(env: Env)
    ensures RoundsOk(Rounds(env, 0), 0)
  {
  }

  lemma {:induction false} RoundsFit(env: Env, i: nat)
    ensures RoundsOk(Rounds(env, i), i)
  {
    if i == 0 {
      StartFits(env);
    } else {
      var before := Rounds(env, i - 1);
      RoundsFit(env, i - 1);
      if before.1.Continue? {
        RoundFits(env, before.0, i - 1);
      } else {
        StayFits(before, i - 1);
      }
    }
  }

  lemma StayFits(r: (State, Flow), i: nat)
    requires RoundsOk(r, i)
    ensures RoundsOk(r, i + 1)
  {
  }

  /** The text the loop ends with. */
  function Answered(env: Env, s: State): string {
    Or(env.normalize(FallBack(s)), APOLOGY)
  }

  lemma FinishFits(env: Env, s: State, asks: nat, invocations: nat)
    requires Fits(s, asks, invocations)
    ensures var r := Finish(env, s);
      && Fits(r.0, asks, invocations) && r.0.acts == s.acts
      && (r.1.Raised? <==> env.traceFails(OfAnswer(Answered(env, s))))
      && (r.1.Output? ==> r.1.text == Answered(env, s) != "")
  {
    EmitFits(env, s, Done(env.normalize(FallBack(s))), asks, invocations);
  }

  lemma ForceFits(env: Env, s: State)
    requires Fits(s, env.cap, env.cap) && Calm(s)
    ensures Fits(Force(env, s), env.cap + 1, env.cap) && StopsStop(Force(env, s).acts)
  {
    ActFits(s, Asked, env.cap, env.cap);
  }

  /** Answer `k` makes the loop raise: decoding its call fails on more than syntax, the call or its
      arguments are no object, what its tool returns has a status that cannot be looked up, or the
      trace log fails on the call or on what it returns. */
  predicate Breaks(env: Env, k: nat) {
    var reading := env.read(S.Concat(env.model(k).chunks));
    && env.model(k).Says? && reading.Call?
    && match env.parse(reading.json)
       case Invalid => false
       case Stuck => true
       case NoObject => true
       case Use(tool, args) =>
         || !Usable(args)
         || env.traceFails(OfCall(reading.json))
         || env.traceFails(OfResult(tool, Seen(env, k, tool).text))
         || (tool in env.tools && env.tool(k).shape.Object? && env.tool(k).shape.status.Unhashable?)
  }

  lemma RoundRaises(env: Env, s: State, i: nat)
    ensures Round(env, s, i).1.Raise? <==> Breaks(env, i)
  {
  }

  /** Some round before `n` is reached and breaks. */
  predicate BrokenBefore(env: Env, n: nat) {
    exists k | 0 <= k < n :: Rounds(env, k).1.Continue? && Breaks(env, k)
  }

  lemma BrokenStep(env: Env, n: nat)
    ensures BrokenBefore(env, n + 1) <==> BrokenBefore(env, n) || (Rounds(env, n).1.Continue? && Breaks(env, n))
  {
    if BrokenBefore(env, n + 1) && !BrokenBefore(env, n) {
      var k :| 0 <= k < n + 1 && Rounds(env, k).1.Continue? && Breaks(env, k);
      assert k == n;
    }
  }

  lemma {:induction false} RoundsRaiseIff(env: Env, n: nat, flow: Flow)
    requires flow == Rounds(env, n).1
    ensures flow.Raise? <==> BrokenBefore(env, n)
  {
    if n > 0 {
      RoundsRaiseIff(env, n - 1, Rounds(env, n - 1).1);
      NextRound(env, n - 1);
      RoundRaises(env, Rounds(env, n - 1).0, n - 1);
      BrokenStep(env, n - 1);
    }
  }

  /** The state in which the loop is left, with its last answer if the cap was reached. */
  function Last(env: Env): State {
    var r := Rounds(env, env.cap);
    if r.1.Continue? then Force(env, r.0) else r.0
  }

  /** For arbitrary model and tools: at most cap + 1 model calls and cap tool invocations, nothing
      after an observation that stops the loop, events numbered 1, 2, 3, … without a gap; and an
      output that is not empty, unless and only unless a round that is reached makes the loop
      raise, or the trace log fails on the output. */
  lemma LoopIsBounded(env: Env)
    ensures var r := Course(env);
      && Asks(r.0.acts) <= env.cap + 1 && Invocations(r.0.acts) <= env.cap
      && StopsStop(r.0.acts)
      && Numbered(r.0.events)
      && (r.1.Raised? <==> BrokenBefore(env, env.cap) || env.traceFails(OfAnswer(Answered(env, Last(env)))))
      && (r.1.Output? ==> r.1.text == Answered(env, Last(env)) != "")
  {
    RoundsFit(env, env.cap);
    var r := Rounds(env, env.cap);
    RoundsRaiseIff(env, env.cap, r.1);
    if r.1.Continue? {
      ForceFits(env, r.0);
      FinishFits(env, Force(env, r.0), env.cap + 1, env.cap);
    } else if r.1.Break? {
      FinishFits(env, r.0, env.cap, env.cap);
    }
  }

  /** So with every call decoded, every call and its arguments objects, every status one that can be
      looked up and nothing the trace log fails on, there is an output. */
  lemma ObjectsGiveOutput(env: Env)
    requires forall k: nat | k < env.cap :: !Breaks(env, k)
    requires forall text: string :: !env.traceFails(OfAnswer(text))
    ensures Course(env).1.Output? && Course(env).1.text != ""
  {
    LoopIsBounded(env);
  }

  const LIST_CALL := "{\"name\":\"crm_query_tool\",\"args\":[1]}"

  lemma ListCallHasNoTag()
    ensures R.FindAnyCase(LIST_CALL, S.THINK, 0) == -1 && !Contains(LIST_CALL, R.TOOL_CALL_END) && Strip(LIST_CALL) == LIST_CALL
  {
    var s := LIST_CALL;
    assert forall i | 0 <= i < |s| :: R.Fold(s[i]) != '<' && s[i] != '<';
    FindBehind(s, "", R.TOOL_CALL_END, 0);
    FindBehind(R.FoldAll(s), "", S.THINK, 0);
    assert s + "" == s && R.FoldAll(s) + "" == R.FoldAll(s) && "" + s + "" == s;
    StripOuter("", s, "");
  }

  /** A first answer whose call has a list for its arguments leaves no output, and no tool is used. */
  lemma ListArgumentsRaise(env: Env)
    requires Genuine(env) && env.cap > 0 && env.model(0) == Says([S.TOOL_CALL + LIST_CALL + R.TOOL_CALL_END])
    requires env.parse(LIST_CALL) == Use("crm_query_tool", Unkeyed)
    ensures Course(env).1 == Raised && Course(env).0.acts == [Asked] && Course(env).0.steps == []
  {
    var text := S.TOOL_CALL + LIST_CALL + R.TOOL_CALL_END;
    assert R.Blocks([]) + ("" + R.Called(LIST_CALL, "")) == text == S.Concat([text]);
    ListCallHasNoTag();
    R.ReadsCall([], "", LIST_CALL, "");
    AskActs(env, Rounds(env, 0).0, 0);
    assert Rounds(env, 1) == (Ask(env, Rounds(env, 0).0, 0), Raise);
    EndedEarly(env, 1);
  }

  /** Answer `k` calls a tool there is, and what comes back lets the loop go on. */
  predicate CallsKnownTool(env: Env, k: nat, tool: string) {
    var reading := env.read(S.Concat(env.model(k).chunks));
    && env.model(k).Says?
    && reading.Call? && env.parse(reading.json).Use? && env.parse(reading.json).tool == tool && tool in env.tools
    && !Stops(env.tool(k)) && !Breaks(env, k)
  }

  lemma ActAppend(acts: seq<Act>, a: Act)
    ensures Asks(acts + [a]) == Asks(acts) + if a.Asked? then 1 else 0
    ensures Invocations(acts + [a]) == Invocations(acts) + if a.Invoked? then 1 else 0
  {
    assert (acts + [a])[..|acts|] == acts;
  }

  lemma {:induction false} StreamActs(env: Env, s: State, a: S.State, chunks: seq<string>)
    ensures Stream(env, s, a, chunks).0.acts == s.acts && Stream(env, s, a, chunks).0.steps == s.steps
  {
    if chunks != [] { StreamActs(env, s, a, chunks[..|chunks| - 1]); }
  }

  lemma AskActs(env: Env, s: State, k: nat)
    ensures Ask(env, s, k).acts == s.acts + [Asked] && Ask(env, s, k).steps == s.steps
  {
    StreamActs(env, s.(acts := s.acts + [Asked]), S.INITIAL, env.model(k).chunks);
  }

  lemma UseToolActs(env: Env, s: State, i: nat, json: string, tool: string, args: Args)
    requires tool in env.tools && !Stops(env.tool(i))
    requires UseTool(env, s, i, json, tool, args).1 != Raise
    ensures var r := UseTool(env, s, i, json, tool, args);
      r.1.Continue? && Asks(r.0.acts) == Asks(s.acts) && Invocations(r.0.acts) == Invocations(s.acts) + 1
  {
    ActAppend(s.acts, Invoked(tool));
    ActAppend(s.acts + [Invoked(tool)], Observed(false));
    assert UseTool(env, s, i, json, tool, args).0.acts == s.acts + [Invoked(tool)] + [Observed(false)];
  }

  lemma ToolRound(env: Env, s: State, i: nat, tool: string)
    requires CallsKnownTool(env, i, tool)
    ensures var r := Round(env, s, i);
      r.1.Continue? && Asks(r.0.acts) == Asks(s.acts) + 1 && Invocations(r.0.acts) == Invocations(s.acts) + 1
  {
    var t := Ask(env, s, i);
    AskActs(env, s, i);
    ActAppend(s.acts, Asked);
    RoundRaises(env, s, i);
    var json := env.read(S.Concat(env.model(i).chunks)).json;
    assert Round(env, s, i) == UseTool(env, t, i, json, tool, env.parse(json).args);
    UseToolActs(env, t, i, json, tool, env.parse(json).args);
  }

  /** After `i` rounds, each a tool call. */
  predicate AllCalls(r: (State, Flow), i: nat) {
    r.1.Continue? && Asks(r.0.acts) == i && Invocations(r.0.acts) == i
  }

  lemma {:induction false} RoundsOfCalls(env: Env, i: nat, tool: string, r: (State, Flow))
    requires i <= env.cap && forall k: nat | k < env.cap :: CallsKnownTool(env, k, tool)
    requires r == Rounds(env, i)
    ensures AllCalls(r, i)
  {
    if i > 0 {
      var before := Rounds(env, i - 1);
      RoundsOfCalls(env, i - 1, tool, before);
      ToolRound(env, before.0, i - 1, tool);
      assert r == Round(env, before.0, i - 1);
    }
  }

  lemma ForceActs(env: Env, s: State)
    ensures Force(env, s).acts == s.acts + [Asked]
  {
  }

  /** The bounds are reached: a model that keeps calling a tool gets all its rounds and is asked
      once more. */
  lemma BoundsAreReached(env: Env, tool: string)
    requires forall k: nat | k < env.cap :: CallsKnownTool(env, k, tool)
    ensures var acts := Course(env).0.acts; Asks(acts) == env.cap + 1 && Invocations(acts) == env.cap
  {
    var r := Rounds(env, env.cap);
    RoundsOfCalls(env, env.cap, tool, r);
    ForceActs(env, r.0);
    ActAppend(r.0.acts, Asked);
  }

  /** The listener is shown, for each answer of the model, exactly what the classifier shows of it. */
  function DeltaText(events: seq<Event>): string {
    if events == [] then ""
    else DeltaText(events[..|events| - 1]) + match events[|events| - 1].kind case Delta(text) => text case _ => ""
  }

  lemma DeltaAppend(events: seq<Event>, e: Event)
    ensures DeltaText(events + [e]) == DeltaText(events) + match e.kind case Delta(text) => text case _ => ""
  {
    assert (events + [e])[..|events|] == events;
  }

  lemma EmitTextShows(env: Env, s: State, text: string)
    requires env.listened
    ensures DeltaText(EmitText(env, s, text).events) == DeltaText(s.events) + text
  {
    DeltaAppend(s.events, Event(Delta(text), s.number + 1));
    assert text == "" ==> DeltaText(s.events) + text == DeltaText(s.events);
  }

  lemma {:induction false} FeedAllLast(a: S.State, chunks: seq<string>)
    requires chunks != []
    ensures var before := S.FeedAll(a, chunks[..|chunks| - 1]); var f := S.Fed(before.0, chunks[|chunks| - 1]);
      S.FeedAll(a, chunks) == (f.0, before.1 + f.1)
    decreases chunks
  {
    var n := |chunks| - 1;
    var f := S.Fed(a, chunks[0]);
    if n == 0 {
      assert S.FeedAll(f.0, chunks[1..]) == (f.0, "");
      assert f.1 + "" == f.1 == "" + f.1;
    } else {
      FeedAllLast(f.0, chunks[1..]);
      assert chunks[1..][..n - 1] == chunks[..n][1..];
      var x, y := S.FeedAll(f.0, chunks[1..][..n - 1]).1, S.Fed(S.FeedAll(a, chunks[..n]).0, chunks[n]).1;
      assert f.1 + (x + y) == (f.1 + x) + y;
    }
  }

  /** What the classifier makes of the chunks, from the first to the last. */
  function Heard(env: Env, a: S.State, chunks: seq<string>): (S.State, string) {
    if chunks == [] then (a, "")
    else
      var before := Heard(env, a, chunks[..|chunks| - 1]);
      var f := env.feed(before.0, chunks[|chunks| - 1]);
      (f.0, before.1 + f.1)
  }

  lemma {:induction false} HeardIsFed(env: Env, a: S.State, chunks: seq<string>)
    requires Genuine(env)
    ensures Heard(env, a, chunks) == S.FeedAll(a, chunks)
  {
    if chunks != [] {
      HeardIsFed(env, a, chunks[..|chunks| - 1]);
      FeedAllLast(a, chunks);
    }
  }

  lemma {:induction false} StreamShows(env: Env, s: State, a: S.State, chunks: seq<string>)
    requires env.listened
    ensures var r := Stream(env, s, a, chunks); var h := Heard(env, a, chunks);
      r.1 == h.0 && DeltaText(r.0.events) == DeltaText(s.events) + h.1
  {
    if chunks == [] {
      assert DeltaText(s.events) + "" == DeltaText(s.events);
    } else {
      var before := Stream(env, s, a, chunks[..|chunks| - 1]);
      StreamShows(env, s, a, chunks[..|chunks| - 1]);
      var f := env.feed(before.1, chunks[|chunks| - 1]);
      EmitTextShows(env, before.0, f.1);
      var d, x := DeltaText(s.events), Heard(env, a, chunks[..|chunks| - 1]).1;
      assert (d + x) + f.1 == d + (x + f.1);
    }
  }

  lemma AskShows(env: Env, s: State, k: nat)
    requires env.listened && env.model(k).Says?
    ensures var h := Heard(env, S.INITIAL, env.model(k).chunks);
      DeltaText(Ask(env, s, k).events) == DeltaText(s.events) + (h.1 + env.flush(h.0).1)
  {
    var asked := s.(acts := s.acts + [Asked]);
    var chunks := env.model(k).chunks;
    StreamShows(env, asked, S.INITIAL, chunks);
    var r := Stream(env, asked, S.INITIAL, chunks);
    var y := env.flush(r.1).1;
    assert Ask(env, s, k) == EmitText(env, r.0, y);
    EmitTextShows(env, r.0, y);
    Regroup(DeltaText(s.events), Heard(env, S.INITIAL, chunks).1, y);
  }

  lemma Regroup(a: string, b: string, c: string)
    ensures (a + b) + c == a + (b + c)
  {
  }

  /** The deltas of one model answer, put together, are what the classifier shows of it. */
  lemma DeltasAreShown(env: Env, s: State, k: nat)
    requires Genuine(env) && env.listened && env.model(k).Says?
    ensures DeltaText(Ask(env, s, k).events) == DeltaText(s.events) + S.Shown(env.model(k).chunks)
  {
    AskShows(env, s, k);
    HeardIsFed(env, S.INITIAL, env.model(k).chunks);
  }

  /** Of an answer that is cut off, what the classifier made of it so far; and without a listener
      nothing is told. */
  lemma DeltasOfCutOff(env: Env, s: State, k: nat)
    requires Genuine(env) && env.model(k).Fails?
    ensures env.listened ==>
      DeltaText(Ask(env, s, k).events) == DeltaText(s.events) + S.FeedAll(S.INITIAL, env.model(k).chunks).1
    ensures !env.listened ==> Ask(env, s, k).events == s.events
  {
    if env.listened {
      StreamShows(env, s.(acts := s.acts + [Asked]), S.INITIAL, env.model(k).chunks);
      HeardIsFed(env, S.INITIAL, env.model(k).chunks);
    }
  }
}
