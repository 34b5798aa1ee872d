/** The bounded agent loop (app/engine/agent.py) against a model and tools that may do anything: say
    anything in any chunks, fail at any point, answer with any observation. The functions are the
    loop on values; the method is the loop itself. */
module AgentLoop {
  import opened Wrappers
  import opened Text
  import S = AnswerStream
  import R = ReplyParsing

  /** One model call: the chunks that arrive, and whether it fails after them. */
  datatype Said = Says(chunks: seq<string>) | Fails(chunks: seq<string>)

  /** The arguments of a call: none (missing, null, false, zero or empty), an object, or anything else.
      `stuck` when its `data_json` is a text whose decoding fails on more than its syntax. */
  datatype Args = NoArgs | Keyed(stuck: bool) | Unkeyed

  /** What the JSON of a tool call decodes to: nothing usable, a failure that is no matter of syntax
      (nested too deep, a number too long), a value that is no object, or a call. */
  datatype Parsed = Invalid | Stuck | NoObject | Use(tool: string, args: Args)

  predicate Usable(args: Args) {
    args.NoArgs? || (args.Keyed? && !args.stuck)
  }

  datatype Status = NoStatus | Named(name: string) | Unhashable

  /** What an observation decodes to: an object with its well-known keys ("" when missing), or not. */
  datatype Shape = NotObject | Object(status: Status, toUser: string, message: string, summary: string)

  datatype Observation = Observation(text: string, shape: Shape)

  /** What the loop writes to its trace log. */
  datatype Trace = OfCall(json: string) | OfResult(tool: string, text: string) | OfAnswer(text: string)

  /** Everything the loop does not decide: its cap, whether somebody listens, the tools there are,
      the k-th answer of the model and of the tools, what is observed of a tool that does not exist,
      the abstract JSON and text helpers, what the trace log, when it is on, fails to write, and the
      gateway's own classifier and reading of a reply. */
  datatype Env = Env(cap: nat, listened: bool, tools: set<string>, model: nat -> Said, tool: nat -> Observation,
                     unknown: string -> string, parse: string -> Parsed, normalize: string -> string,
                     traceFails: Trace -> bool,
                     feed: (S.State, string) -> (S.State, string), flush: S.State -> (S.State, string),
                     read: string -> R.Reading)

  /** The classifier and the reading are those of the gateway. */
  ghost predicate Genuine(env: Env) {
    && (forall a: S.State, chunk: string :: env.feed(a, chunk) == S.Fed(a, chunk))
    && (forall a: S.State :: env.flush(a) == S.Flushed(a))
    && (forall text: string :: env.read(text) == R.Read(text))
  }

  datatype Kind = Started | Delta(text: string) | ToolCall(tool: string) | ToolResult(tool: string) | Done(text: string)

  datatype Event = Event(kind: Kind, number: nat)

  datatype Act = Asked | Invoked(tool: string) | Observed(stops: bool)

  datatype Step = Step(tool: string, observation: Observation)

  datatype State = State(number: nat, events: seq<Event>, acts: seq<Act>, steps: seq<Step>, answer: string)

  datatype Flow = Continue | Break | Raise

  datatype Result = Raised | Output(text: string, steps: seq<Step>)

  const APOLOGY := "Omlouvám se, nepodařilo se zpracovat dotaz. Zkuste ho přeformulovat."
  const ASK_TO_CONFIRM := "Akce vyžaduje potvrzení uživatele."

  /** A JSON object with the error alone. */
  function UnknownTool(env: Env, tool: string): Observation {
    Observation(env.unknown(tool), Object(NoStatus, "", "", ""))
  }

  predicate Stops(o: Observation) {
    o.shape.Object? && (o.shape.status == Named("confirmation_required") || o.shape.status == Named("contact_proposals"))
  }

  function Or(a: string, b: string): string {
    if a != "" then a else b
  }

  // ---------------------------------------------------------------- the loop on values

  function Emit(env: Env, s: State, kind: Kind): State {
    if env.listened then s.(number := s.number + 1, events := s.events + [Event(kind, s.number + 1)]) else s
  }

  function EmitText(env: Env, s: State, text: string): State {
    if text != "" then Emit(env, s, Delta(text)) else s
  }

  /** The deltas shown while these chunks arrive. */
  function Stream(env: Env, s: State, a: S.State, chunks: seq<string>): (State, S.State) {
    if chunks == [] then (s, a)
    else
      var before := Stream(env, s, a, chunks[..|chunks| - 1]);
      var f := env.feed(before.1, chunks[|chunks| - 1]);
      (EmitText(env, before.0, f.1), f.0)
  }

  /** The model is asked; what it shows goes to the listener. */
  function Ask(env: Env, s: State, k: nat): State {
    var asked := s.(acts := s.acts + [Asked]);
    if !env.listened then asked
    else
      var r := Stream(env, asked, S.INITIAL, env.model(k).chunks);
      if env.model(k).Fails? then r.0 else EmitText(env, r.0, env.flush(r.1).1)
  }

  /** The observation is traced, told, kept as a step and looked at. */
  function Observe(env: Env, s: State, tool: string, o: Observation): (State, Flow) {
    if env.traceFails(OfResult(tool, o.text)) then (s, Raise)
    else
      var told := Emit(env, s, ToolResult(tool));
      var t := told.(steps := told.steps + [Step(tool, o)], acts := told.acts + [Observed(Stops(o))]);
      if o.shape.Object? && o.shape.status.Unhashable? then (t, Raise)
      else if Stops(o) then (t.(answer := Or(o.shape.toUser, Or(o.shape.message, ASK_TO_CONFIRM))), Break)
      else (t, Continue)
  }

  function Seen(env: Env, i: nat, tool: string): Observation {
    if tool in env.tools then env.tool(i) else UnknownTool(env, tool)
  }

  function UseTool(env: Env, s: State, i: nat, json: string, tool: string, args: Args): (State, Flow) {
    if !Usable(args) || env.traceFails(OfCall(json)) then (s, Raise)
    else
      var called := Emit(env, s, ToolCall(tool));
      var invoked := if tool in env.tools then called.(acts := called.acts + [Invoked(tool)]) else called;
      Observe(env, invoked, tool, Seen(env, i, tool))
  }

  function Round(env: Env, s: State, i: nat): (State, Flow) {
    var t := Ask(env, s, i);
    if env.model(i).Fails? then (t, Break)
    else
      match env.read(S.Concat(env.model(i).chunks))
      case Empty => (t, if i < 2 then Continue else Break)
      case Final(answer) => (t.(answer := answer), Break)
      case Call(json) =>
        match env.parse(json)
        case Invalid => (t, Continue)
        case Stuck => (t, Raise)
        case NoObject => (t, Raise)
        case Use(tool, args) => UseTool(env, t, i, json, tool, args)
  }

  /** The rounds up to `i`, unless an earlier one ended the loop. */
  function Rounds(env: Env, i: nat): (State, Flow) {
    if i == 0 then (Emit(env, State(0, [], [], [], ""), Started), Continue)
    else
      var before := Rounds(env, i - 1);
      if before.1.Continue? then Round(env, before.0, i - 1) else before
  }

  /** After the cap: one more answer, without tools and without listeners. */
  function Force(env: Env, s: State): State {
    var asked := s.(acts := s.acts + [Asked]);
    if env.model(env.cap).Fails? then asked.(answer := "")
    else
      match env.read(S.Concat(env.model(env.cap).chunks))
      case Final(answer) => asked.(answer := answer)
      case _ => asked.(answer := "")
  }

  /** Without an answer, what the last tool said. */
  function FallBack(s: State): string {
    if s.answer != "" || s.steps == [] then s.answer
    else
      var o := s.steps[|s.steps| - 1].observation;
      var text := if o.shape.Object? then Strip(Or(o.shape.toUser, o.shape.summary)) else "";
      if text != "" then text else if |o.text| <= 500 then o.text else o.text[..500]
  }

  function Finish(env: Env, s: State): (State, Result) {
    var text := env.normalize(FallBack(s));
    var t := if text == "" then s else Emit(env, s, Done(text));
    var out := Or(text, APOLOGY);
    (t, if env.traceFails(OfAnswer(out)) then Raised else Output(out, s.steps))
  }

  function Course(env: Env): (State, Result) {
    var r := Rounds(env, env.cap);
    match r.1
    case Raise => (r.0, Raised)
    case Break => Finish(env, r.0)
    case Continue => Finish(env, Force(env, r.0))
  }

  // ---------------------------------------------------------------- the loop

  class Agent {
    var number: nat
    var events: seq<Event>
    var acts: seq<Act>
    var steps: seq<Step>
    var answer: string

    ghost function Value(): State
      reads this
    {
      State(number, events, acts, steps, answer)
    }

    constructor ()
      ensures Value() == State(0, [], [], [], "")
    {
      number, events, acts, steps, answer := 0, [], [], [], "";
    }

    method Tell(env: Env, kind: Kind)
      modifies this`number, this`events
      ensures Value() == Emit(env, old(Value()), kind)
    {
      if env.listened {
        number := number + 1;
        events := events + [Event(kind, number)];
      }
    }

    /** The model call and the streaming of its answer; None when it fails. */
    method AskModel(env: Env, k: nat) returns (raw: Option<string>)
      requires Genuine(env)
      modifies this
      ensures Value() == Ask(env, old(Value()), k)
      ensures raw == if env.model(k).Fails? then None else Some(S.Concat(env.model(k).chunks))
    {
      var said := env.model(k);
      acts := acts + [Asked];
      if env.listened {
        var stream := new S.AnswerStreamState();
        ghost var asked := Value();
        assert said.chunks[..|said.chunks|] == said.chunks;
        for j := 0 to |said.chunks|
          invariant fresh(stream) && (Value(), stream.Value()) == Stream(env, asked, S.INITIAL, said.chunks[..j])
        {
          assert said.chunks[..j + 1][..j] == said.chunks[..j];
          var delta := stream.Feed(said.chunks[j]);
          if delta != "" { Tell(env, Delta(delta)); }
        }
        if said.Fails? { return None; }
        var tail := stream.Flush();
        SuppressedFlush(env, asked, said.chunks);
        if tail != "" && stream.state != S.Suppressed { Tell(env, Delta(tail)); }
      }
      raw := if said.Fails? then None else Some(S.Concat(said.chunks));
    }

    method CallTool(env: Env, i: nat, json: string, tool: string, args: Args) returns (flow: Flow)
      modifies this
      ensures (Value(), flow) == UseTool(env, old(Value()), i, json, tool, args)
    {
      if args.Unkeyed? { return Raise; }
      if args.Keyed? && args.stuck { return Raise; }
      if env.traceFails(OfCall(json)) { return Raise; }
      Tell(env, ToolCall(tool));
      var o := UnknownTool(env, tool);
      if tool in env.tools {
        acts := acts + [Invoked(tool)];
        o := env.tool(i);
      }
      if env.traceFails(OfResult(tool, o.text)) { return Raise; }
      Tell(env, ToolResult(tool));
      steps := steps + [Step(tool, o)];
      acts := acts + [Observed(Stops(o))];
      if o.shape.Object? && o.shape.status.Unhashable? { return Raise; }
      if Stops(o) {
        answer := Or(o.shape.toUser, Or(o.shape.message, ASK_TO_CONFIRM));
        return Break;
      }
      flow := Continue;
    }

    /** One iteration of the loop. */
    method Iterate(env: Env, i: nat) returns (flow: Flow)
      requires Genuine(env)
      modifies this
      ensures (Value(), flow) == Round(env, old(Value()), i)
      ensures env.model(i).Says? && R.Read(S.Concat(env.model(i).chunks)).Final? ==>
        flow == Break && answer == R.Read(S.Concat(env.model(i).chunks)).answer
    {
      var raw := AskModel(env, i);
      if raw.None? { return Break; }
      match R.Read(raw.value) {
        case Empty => return if i < 2 then Continue else Break;
        case Final(text) =>
          answer := text;
          return Break;
        case Call(json) =>
          match env.parse(json) {
            case Invalid => return Continue;
            case Stuck => return Raise;
            case NoObject => return Raise;
            case Use(tool, args) => flow := CallTool(env, i, json, tool, args);
          }
      }
    }

    /** The rounds until the cap, or until one ends the loop. */
    method Loop(env: Env) returns (flow: Flow)
      requires Genuine(env) && (Value(), Continue) == Rounds(env, 0)
      modifies this
      ensures (Value(), flow) == Rounds(env, env.cap)
    {
      flow := Continue;
      var i := 0;
      while i < env.cap && flow.Continue?
        invariant 0 <= i <= env.cap && (Value(), flow) == Rounds(env, i)
        decreases env.cap - i
      {
        flow := Iterate(env, i);
        i := i + 1;
      }
      EndedEarly(env, i);
    }

    /** `run_agent`, from its first event on. */
    method Run(env: Env) returns (result: Result)
      requires Genuine(env) && Value() == State(0, [], [], [], "")
      modifies this
      ensures (Value(), result) == Course(env)
    {
      Tell(env, Started);
      var flow := Loop(env);
      if flow.Raise? { return Raised; }
      if flow.Continue? { AnswerFromGatheredData(env); }
      var text := LastResort();
      text := env.normalize(text);
      if text != "" { Tell(env, Done(text)); } else { text := APOLOGY; }
      result := if env.traceFails(OfAnswer(text)) then Raised else Output(text, steps);
    }

    /** Without an answer, the text is taken from the last tool result. */
    method LastResort() returns (text: string)
      ensures text == FallBack(Value())
    {
      text := answer;
      if text == "" && steps != [] {
        var o := steps[|steps| - 1].observation;
        if o.shape.Object? { text := Strip(Or(o.shape.toUser, o.shape.summary)); }
        if text == "" { text := if |o.text| <= 500 then o.text else o.text[..500]; }
      }
    }

    /** `_answer_from_gathered_data`. */
    method AnswerFromGatheredData(env: Env)
      requires Genuine(env)
      modifies this
      ensures Value() == Force(env, old(Value()))
    {
      acts := acts + [Asked];
      answer := "";
      if env.model(env.cap).Says? {
        match R.Read(S.Concat(env.model(env.cap).chunks)) {
          case Final(text) => answer := text;
          case _ =>
        }
      }
    }
  }

  lemma {:induction false} NothingHeldBack(env: Env, s: State, chunks: seq<string>)
    requires Genuine(env)
    ensures var a := Stream(env, s, S.INITIAL, chunks).1; a.mode != S.Streaming ==> a.tail == ""
  {
    if chunks != [] { NothingHeldBack(env, s, chunks[..|chunks| - 1]); }
  }

  /** A stream found to be a tool call only at its end has nothing to flush. */
  lemma SuppressedFlush(env: Env, s: State, chunks: seq<string>)
    requires Genuine(env)
    ensures var f := S.Flushed(Stream(env, s, S.INITIAL, chunks).1); f.0.mode == S.Suppressed ==> f.1 == ""
  {
    NothingHeldBack(env, s, chunks);
    assert S.Trim("") == "";
  }

  lemma {:induction false} EndedEarly(env: Env, i: nat)
    requires i <= env.cap && (i == env.cap || !Rounds(env, i).1.Continue?)
    ensures Rounds(env, env.cap) == Rounds(env, i)
    decreases env.cap - i
  {
    if i < env.cap { EndedEarly(env, i + 1); }
  }

  lemma NextRound(env: Env, n: nat)
    ensures Rounds(env, n).1.Continue? ==> Rounds(env, n + 1) == Round(env, Rounds(env, n).0, n)
    ensures !Rounds(env, n).1.Continue? ==> Rounds(env, n + 1) == Rounds(env, n)
  {
  }
}
