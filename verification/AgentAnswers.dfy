/** What the agent loop returns, told from the answers of the model and the tools alone: the final
    answer, the text of a proposal, the forced answer, or what the last tool said. */
module AgentAnswers {
  import opened Wrappers
  import opened Text
  import opened AgentLoop
  import S = AnswerStream
  import R = ReplyParsing

  /** How the loop reads the model's `k`-th answer, if it is not cut off. */
  function Reading(env: Env, k: nat): Option<R.Reading> {
    match env.model(k)
    case Says(chunks) => Some(env.read(S.Concat(chunks)))
    case Fails(_) => None
  }

  /** What a call of that answer gives: the tool's result, or that there is no such tool. */
  function Given(env: Env, k: nat, tool: string): Observation {
    if tool in env.tools then env.tool(k) else Observation(env.unknown(tool), Object(NoStatus, "", "", ""))
  }

  predicate IsProposal(o: Observation) {
    && o.shape.Object?
    && (o.shape.status == Named("confirmation_required") || o.shape.status == Named("contact_proposals"))
  }

  /** Answer `k` calls this tool with usable arguments, and the trace log takes the call and its
      result. */
  predicate CallsTool(env: Env, k: nat, tool: string) {
    && Reading(env, k).Some? && Reading(env, k).value.Call?
    && var json := Reading(env, k).value.json;
       && env.parse(json).Use? && env.parse(json).tool == tool
       && (env.parse(json).args.NoArgs? || (env.parse(json).args.Keyed? && !env.parse(json).args.stuck))
       && !env.traceFails(OfCall(json)) && !env.traceFails(OfResult(tool, Given(env, k, tool).text))
  }

  /** The tool answer `k` calls, if its result is kept as a step. */
  function Called(env: Env, k: nat): Option<string> {
    if Reading(env, k).Some? && Reading(env, k).value.Call? && env.parse(Reading(env, k).value.json).Use?
       && CallsTool(env, k, env.parse(Reading(env, k).value.json).tool)
    then Some(env.parse(Reading(env, k).value.json).tool)
    else None
  }

  /** After answer `k` the loop goes on: an empty reply, the first two times, a call that does not
      parse, or one whose result is neither a proposal nor unreadable. */
  predicate GoesOn(env: Env, k: nat) {
    match Reading(env, k)
    case None => false
    case Some(Empty) => k < 2
    case Some(Final(_)) => false
    case Some(Call(json)) =>
      || env.parse(json).Invalid?
      || (Called(env, k).Some? && var o := Given(env, k, Called(env, k).value);
          !IsProposal(o) && !(o.shape.Object? && o.shape.status.Unhashable?))
  }

  /** The results gathered from the first `n` answers. */
  function Gathered(env: Env, n: nat): seq<Step> {
    if n == 0 then []
    else
      Gathered(env, n - 1) +
      match Called(env, n - 1) case Some(tool) => [Step(tool, Given(env, n - 1, tool))] case None => []
  }

  predicate Reaches(env: Env, n: nat) {
    n <= env.cap && forall k: nat | k < n :: GoesOn(env, k)
  }

  /** The loop ends with this text: its normal form is returned, an apology if that is empty, unless
      the trace log fails on it; a listener hears it last, but not the apology. */
  predicate EndsWith(env: Env, text: string, steps: seq<Step>) {
    var out := if env.normalize(text) != "" then env.normalize(text) else APOLOGY;
    var heard := Course(env).0.events;
    && Course(env).1 == (if env.traceFails(OfAnswer(out)) then Raised else Output(out, steps))
    && (env.listened && env.normalize(text) != "" ==> heard != [] && heard[|heard| - 1].kind == Done(out))
  }

  lemma {:induction false} StreamKeeps(env: Env, s: State, a: S.State, chunks: seq<string>)
    ensures var t := Stream(env, s, a, chunks).0; t.steps == s.steps && t.answer == s.answer
  {
    if chunks != [] { StreamKeeps(env, s, a, chunks[..|chunks| - 1]); }
  }

  lemma AskKeeps(env: Env, s: State, k: nat)
    ensures Ask(env, s, k).steps == s.steps && Ask(env, s, k).answer == s.answer
  {
    StreamKeeps(env, s.(acts := s.acts + [Asked]), S.INITIAL, env.model(k).chunks);
  }

  /** One round: what it gathers, and whether it goes on. */
  lemma RoundGathers(env: Env, s: State, k: nat)
    requires s.answer == ""
    ensures var r := Round(env, s, k);
      && (r.1.Continue? <==> GoesOn(env, k))
      && (GoesOn(env, k) ==> r.0.answer == "")
      && r.0.steps == s.steps + match Called(env, k) case Some(tool) => [Step(tool, Given(env, k, tool))] case None => []
  {
    AskKeeps(env, s, k);
  }

  lemma {:induction false} RoundsGather(env: Env, n: nat, r: (State, Flow))
    requires r == Rounds(env, n) && forall k: nat | k < n :: GoesOn(env, k)
    ensures r.1.Continue? && r.0.answer == "" && r.0.steps == Gathered(env, n)
  {
    if n > 0 {
      RoundsGather(env, n - 1, Rounds(env, n - 1));
      RoundGathers(env, Rounds(env, n - 1).0, n - 1);
    }
  }

  lemma LeftAt(env: Env, i: nat, r: (State, Flow))
    requires i < env.cap && Rounds(env, i).1.Continue? && r == Round(env, Rounds(env, i).0, i) && !r.1.Continue?
    ensures Rounds(env, env.cap) == r
  {
    NextRound(env, i);
    EndedEarly(env, i + 1);
  }

  lemma EndsAt(env: Env, i: nat, s: State, flow: Flow)
    requires i < env.cap && Reaches(env, i) && (s, flow) == Round(env, Rounds(env, i).0, i) && flow.Break?
    ensures Course(env) == Finish(env, s)
  {
    RoundsGather(env, i, Rounds(env, i));
    LeftAt(env, i, (s, flow));
  }

  lemma FinishIs(env: Env, s: State)
    requires Course(env) == Finish(env, s)
    ensures EndsWith(env, FallBack(s), s.steps)
  {
  }

  /** The answer is what is returned: the first answer that ends the loop is final and not empty. */
  lemma FinalIsReturned(env: Env, i: nat, answer: string)
    requires i < env.cap && Reaches(env, i) && Reading(env, i) == Some(R.Final(answer)) && answer != ""
    ensures EndsWith(env, answer, Gathered(env, i))
  {
    var before := Rounds(env, i).0;
    RoundsGather(env, i, Rounds(env, i));
    AskKeeps(env, before, i);
    var s := Ask(env, before, i).(answer := answer);
    EndsAt(env, i, s, Break);
    FinishIs(env, s);
  }

  /** So for a reply as prompted, in whatever chunks it arrives, its body without outer whitespace. */
  lemma PromptedBodyIsReturned(env: Env, i: nat, chunks: seq<string>, r: R.Reply)
    requires Genuine(env) && i < env.cap && Reaches(env, i)
    requires R.GoodReply(r) && env.model(i) == Says(chunks) && S.Concat(chunks) == R.Raw(r) && Strip(r.body) != ""
    ensures EndsWith(env, Strip(r.body), Gathered(env, i))
  {
    R.ReadsBody(r);
    FinalIsReturned(env, i, Strip(r.body));
  }

  /** A proposal ends the loop with what it says to the user, else with its message, else with a
      request to confirm; it is the last result. */
  lemma ProposalIsReturned(env: Env, i: nat, tool: string)
    requires i < env.cap && Reaches(env, i) && CallsTool(env, i, tool) && IsProposal(Given(env, i, tool))
    ensures var o := Given(env, i, tool);
      EndsWith(env,
               if o.shape.toUser != "" then o.shape.toUser
               else if o.shape.message != "" then o.shape.message
               else "Akce vyžaduje potvrzení uživatele.",
               Gathered(env, i) + [Step(tool, o)])
  {
    var before := Rounds(env, i).0;
    RoundsGather(env, i, Rounds(env, i));
    RoundGathers(env, before, i);
    ProposalEnds(env, before, i, tool);
    var s := Round(env, before, i).0;
    EndsAt(env, i, s, Break);
    FinishIs(env, s);
  }

  lemma ProposalEnds(env: Env, s: State, i: nat, tool: string)
    requires CallsTool(env, i, tool) && IsProposal(Given(env, i, tool))
    ensures var r := Round(env, s, i); var o := Given(env, i, tool);
      && r.1.Break?
      && r.0.answer == (if o.shape.toUser != "" then o.shape.toUser
                        else if o.shape.message != "" then o.shape.message
                        else "Akce vyžaduje potvrzení uživatele.")
      && r.0.answer != ""
  {
  }

  /** All rounds used up by calls: the forced answer is what is returned. */
  lemma ForcedIsReturned(env: Env, answer: string)
    requires Reaches(env, env.cap) && Reading(env, env.cap) == Some(R.Final(answer)) && answer != ""
    ensures EndsWith(env, answer, Gathered(env, env.cap))
  {
    var r := Rounds(env, env.cap);
    RoundsGather(env, env.cap, r);
    assert Course(env) == Finish(env, Force(env, r.0));
    FinishIs(env, Force(env, r.0));
  }

  /** The model is done without an answer: it is cut off, it says nothing for the third time, or its
      answer is empty; or it is out of rounds and the forced answer is none. */
  predicate WithoutAnswer(env: Env, i: nat) {
    if i < env.cap then
      match Reading(env, i)
      case None => true
      case Some(Empty) => i >= 2
      case Some(Final(answer)) => answer == ""
      case Some(Call(_)) => false
    else
      match Reading(env, i)
      case Some(Final(answer)) => answer == ""
      case _ => true
  }

  /** What the last tool said stands in for the answer: what it says to the user, else its summary,
      without outer whitespace; else the first 500 characters of the result itself. */
  function LastSaid(steps: seq<Step>): string {
    if steps == [] then ""
    else
      var o := steps[|steps| - 1].observation;
      var said := if o.shape.NotObject? then "" else if o.shape.toUser != "" then o.shape.toUser else o.shape.summary;
      if Strip(said) != "" then Strip(said) else if |o.text| > 500 then o.text[..500] else o.text
  }

  lemma LastSaidStands(s: State)
    requires s.answer == ""
    ensures FallBack(s) == LastSaid(s.steps)
  {
    assert Strip("") == "";
  }

  lemma LastSaidIsReturned(env: Env, i: nat)
    requires Reaches(env, i) && WithoutAnswer(env, i)
    ensures EndsWith(env, LastSaid(Gathered(env, i)), Gathered(env, i))
  {
    var r := Rounds(env, i);
    RoundsGather(env, i, r);
    if i < env.cap {
      RoundGathers(env, r.0, i);
      AskKeeps(env, r.0, i);
      var s := Round(env, r.0, i);
      EndsAt(env, i, s.0, s.1);
      LastSaidStands(s.0);
      FinishIs(env, s.0);
    } else {
      LastSaidStands(Force(env, r.0));
      FinishIs(env, Force(env, r.0));
    }
  }

  /** Answer `k` cannot be taken: its call fails to decode on more than its syntax, it or its
      arguments are no object, its result has a status that cannot be looked up, or the trace log
      fails on the call or the result. */
  predicate Fatal(env: Env, k: nat) {
    Reading(env, k).Some? && Reading(env, k).value.Call? && !GoesOn(env, k)
    && (Called(env, k).Some? ==> !IsProposal(Given(env, k, Called(env, k).value)))
  }

  lemma FatalRaises(env: Env, i: nat)
    requires i < env.cap && Reaches(env, i) && Fatal(env, i)
    ensures Course(env).1 == Raised
  {
    RoundsGather(env, i, Rounds(env, i));
    FatalRound(env, Rounds(env, i).0, i);
    LeftAt(env, i, Round(env, Rounds(env, i).0, i));
  }

  lemma FatalRound(env: Env, s: State, i: nat)
    requires Fatal(env, i)
    ensures Round(env, s, i).1.Raise?
  {
  }

  /** The round in which the loop ends, as the answers tell it. */
  lemma {:induction false} EndingRound(env: Env, n: nat) returns (i: nat)
    requires Reaches(env, n)
    ensures Reaches(env, i) && (i < env.cap ==> !GoesOn(env, i))
    decreases env.cap - n
  {
    i := n;
    if n < env.cap && GoesOn(env, n) { i := EndingRound(env, n + 1); }
  }

  /** Every run ends in one of these ways, and the answers tell which: with a final answer, with a
      proposal, without an answer, or with an answer that cannot be taken. */
  lemma EveryEnding(env: Env) returns (i: nat)
    ensures Reaches(env, i)
    ensures match Reading(env, i)
      case Some(Final(answer)) => EndsWith(env, if answer != "" then answer else LastSaid(Gathered(env, i)), Gathered(env, i))
      case Some(Call(_)) =>
        if i == env.cap then EndsWith(env, LastSaid(Gathered(env, i)), Gathered(env, i))
        else if Fatal(env, i) then Course(env).1 == Raised
        else Called(env, i).Some? && IsProposal(Given(env, i, Called(env, i).value))
      case _ => EndsWith(env, LastSaid(Gathered(env, i)), Gathered(env, i))
  {
    i := EndingRound(env, 0);
    if WithoutAnswer(env, i) {
      LastSaidIsReturned(env, i);
    } else if Reading(env, i).value.Call? {
      if Fatal(env, i) { FatalRaises(env, i); }
    } else if i < env.cap {
      FinalIsReturned(env, i, Reading(env, i).value.answer);
    } else {
      ForcedIsReturned(env, Reading(env, i).value.answer);
    }
  }

  // ---------------------------------------------------------------- what a listener hears of tools

  /** The tools whose results were told, in order. */
  function Heard(events: seq<Event>): seq<string> {
    if events == [] then []
    else Heard(events[..|events| - 1]) + match events[|events| - 1].kind case ToolResult(tool) => [tool] case _ => []
  }

  function Names(steps: seq<Step>): seq<string> {
    if steps == [] then [] else Names(steps[..|steps| - 1]) + [steps[|steps| - 1].tool]
  }

  predicate Paired(env: Env, s: State) {
    env.listened ==> Heard(s.events) == Names(s.steps)
  }

  lemma EmitHeard(env: Env, s: State, kind: Kind)
    requires env.listened
    ensures Heard(Emit(env, s, kind).events) == Heard(s.events) + match kind case ToolResult(tool) => [tool] case _ => []
  {
    var e := Event(kind, s.number + 1);
    assert (s.events + [e])[..|s.events|] == s.events;
  }

  lemma {:induction false} StreamHeard(env: Env, s: State, a: S.State, chunks: seq<string>)
    requires env.listened
    ensures Heard(Stream(env, s, a, chunks).0.events) == Heard(s.events)
  {
    if chunks != [] {
      var before := Stream(env, s, a, chunks[..|chunks| - 1]);
      StreamHeard(env, s, a, chunks[..|chunks| - 1]);
      EmitHeard(env, before.0, Delta(env.feed(before.1, chunks[|chunks| - 1]).1));
    }
  }

  lemma AskHeard(env: Env, s: State, k: nat)
    requires Paired(env, s)
    ensures Paired(env, Ask(env, s, k))
  {
    AskKeeps(env, s, k);
    if env.listened {
      var asked, chunks := s.(acts := s.acts + [Asked]), env.model(k).chunks;
      var r := Stream(env, asked, S.INITIAL, chunks);
      StreamHeard(env, asked, S.INITIAL, chunks);
      EmitHeard(env, r.0, Delta(env.flush(r.1).1));
    }
  }

  lemma NamesAppend(steps: seq<Step>, step: Step)
    ensures Names(steps + [step]) == Names(steps) + [step.tool]
  {
    assert (steps + [step])[..|steps|] == steps;
  }

  lemma ObserveHeard(env: Env, s: State, tool: string, o: Observation)
    requires Paired(env, s)
    ensures Paired(env, Observe(env, s, tool, o).0)
  {
    if env.listened {
      EmitHeard(env, s, ToolResult(tool));
      NamesAppend(s.steps, Step(tool, o));
    }
  }

  lemma ToolHeard(env: Env, s: State, i: nat, json: string, tool: string, args: Args)
    requires Paired(env, s)
    ensures Paired(env, UseTool(env, s, i, json, tool, args).0)
  {
    var called := Emit(env, s, ToolCall(tool));
    if env.listened { EmitHeard(env, s, ToolCall(tool)); }
    ObserveHeard(env, if tool in env.tools then called.(acts := called.acts + [Invoked(tool)]) else called, tool,
                 Seen(env, i, tool));
  }

  lemma RoundHeard(env: Env, s: State, i: nat)
    requires Paired(env, s)
    ensures Paired(env, Round(env, s, i).0)
  {
    AskHeard(env, s, i);
    if Reading(env, i).Some? && Reading(env, i).value.Call? && env.parse(Reading(env, i).value.json).Use? {
      var json := Reading(env, i).value.json;
      ToolHeard(env, Ask(env, s, i), i, json, env.parse(json).tool, env.parse(json).args);
    }
  }

  lemma {:induction false} RoundsHeard(env: Env, n: nat)
    ensures Paired(env, Rounds(env, n).0)
  {
    if n == 0 {
      if env.listened { EmitHeard(env, State(0, [], [], [], ""), Started); }
    } else {
      RoundsHeard(env, n - 1);
      NextRound(env, n - 1);
      RoundHeard(env, Rounds(env, n - 1).0, n - 1);
    }
  }

  /** A listener hears of exactly the results that are kept as steps, in their order. */
  lemma ResultsAreHeard(env: Env)
    requires env.listened
    ensures Heard(Course(env).0.events) == Names(Course(env).0.steps)
  {
    var r := Rounds(env, env.cap);
    RoundsHeard(env, env.cap);
    var s := if r.1.Continue? then Force(env, r.0) else r.0;
    EmitHeard(env, s, Done(env.normalize(FallBack(s))));
  }
}
