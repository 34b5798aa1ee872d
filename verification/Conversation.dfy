/** Whole chats: turns one after another, each confirming, editing or asking the agent
    (app/engine/pipeline.py), and the message log between them (app/services/chat_service.py). The
    model, the CRM, the client and the moment a turn is cut off are arbitrary. */
module Conversation {
  import opened Wrappers
  import opened Envelopes
  import opened AgentResults
  import opened PendingPatch
  import opened ToolSets
  import CrmProvider

  datatype Message = User | Assistant(result: Option<AgentResult>)

  datatype World = World(crm: Crm, chat: seq<Message>)

  const START := World(Crm([], []), [])

  /** One user input, or the CRM's notice that a record was created. `client` is an envelope the
      client sends along; `answer` the CRM's answer if the pipeline itself calls a tool;
      `finished` tells whether the agent returned, `stored` whether the turn reached its commit. */
  datatype Turn =
    | Input(confirm: bool, client: Option<Envelope>, edit: Edit, now: Stamp, tools: ToolSet, answer: Answer,
            actions: seq<Action>, finished: bool, stored: bool)
    | RecordCreated

  /** `load_latest_pending_action`: from the newest assistant message only. */
  function Latest(chat: seq<Message>): Option<Envelope> {
    if chat == [] then None
    else
      match chat[|chat| - 1]
      case User => Latest(chat[..|chat| - 1])
      case Assistant(None) => None
      case Assistant(Some(r)) => Extracted(r)
  }

  function PendingOf(w: World, t: Turn): Option<Envelope>
    requires t.Input?
  {
    if t.client.Some? then t.client else Latest(w.chat)
  }

  datatype Decision = RunConfirmed(pending: Envelope) | Edited(pending: Envelope, patched: Envelope) | AskAgent

  function Decide(w: World, t: Turn): Decision
    requires t.Input?
  {
    match PendingOf(w, t)
    case None => AskAgent
    case Some(p) =>
      if t.confirm then (if p.call.token.Some? then RunConfirmed(p) else AskAgent)
      else match Patch(p, t.edit, t.now) case Some(q) => Edited(p, q) case None => AskAgent
  }

  function OfTool(o: Obs): AgentResult {
    Normalized(AgentResult("", None, [o]))
  }

  /** What the turn does on the wire, and the agent result it stores. */
  function Outcome(w: World, t: Turn): (Crm, AgentResult)
    requires t.Input?
  {
    match Decide(w, t)
    case RunConfirmed(p) =>
      var r := ExecutePending(w.crm, t.tools, p, t.answer, t.stored);
      (r.0, OfTool(r.1))
    case Edited(p, q) =>
      if NamesTool(p.call) then
        var r := RepreviewPending(w.crm, t.tools, p, q.data, t.answer, t.stored);
        (r.0, OfTool(r.1))
      else (w.crm, AgentResult("confirmation_required", Some(q), []))
    case AskAgent =>
      var r := Steps(w.crm, t.tools, t.actions, t.stored);
      (r.0, if t.finished then Normalized(AgentResult("", None, r.1)) else AgentResult("agent_error", None, []))
  }

  /** A turn that does not reach its commit leaves no message. */
  function Next(w: World, t: Turn): World {
    match t
    case RecordCreated => w.(chat := w.chat + [Assistant(Some(AgentResult("crm_sync_record_created", None, [])))])
    case Input(_, _, _, _, _, _, _, _, stored) =>
      var r := Outcome(w, t);
      World(r.0, if stored then w.chat + [User, Assistant(Some(r.1))] else w.chat)
  }

  function Run(turns: seq<Turn>): World {
    if turns == [] then START else Next(Run(turns[..|turns| - 1]), turns[|turns| - 1])
  }

  // ---------------------------------------------------------------- the code of one turn

  class Session {
    var crm: Crm
    var chat: seq<Message>

    ghost function Value(): World
      reads this
    {
      World(crm, chat)
    }

    constructor ()
      ensures Value() == START
    {
      crm, chat := Crm([], []), [];
    }

    method LoadLatest() returns (pending: Option<Envelope>)
      ensures pending == Latest(chat)
    {
      var i := |chat|;
      assert chat[..i] == chat;
      while i > 0
        invariant 0 <= i <= |chat| && Latest(chat) == Latest(chat[..i])
      {
        assert chat[..i][..i - 1] == chat[..i - 1];
        i := i - 1;
        match chat[i] {
          case User =>
          case Assistant(None) => return None;
          case Assistant(Some(r)) =>
            pending := ExtractPending(r);
            return;
        }
      }
      pending := None;
    }

    /** The decision between confirmation, edit and agent, and what it leads to. */
    method Decided(t: Turn, pending: Option<Envelope>) returns (agentResult: AgentResult)
      requires t.Input? && pending == PendingOf(Value(), t)
      modifies this`crm
      ensures (crm, agentResult) == Outcome(old(Value()), t)
    {
      if t.confirm && pending.Some? && pending.value.call.token.Some? {
        var r := ExecutePending(crm, t.tools, pending.value, t.answer, t.stored);
        crm := r.0;
        agentResult := NormalizeForUi(AgentResult("", None, [r.1]));
        return;
      }
      var patched := None;
      if pending.Some? && !t.confirm { patched := TryPatch(pending.value, t.edit, t.now); }
      if patched.Some? {
        agentResult := AgentResult("confirmation_required", patched, []);
        if NamesTool(pending.value.call) {
          var r := RepreviewPending(crm, t.tools, pending.value, patched.value.data, t.answer, t.stored);
          crm := r.0;
          agentResult := NormalizeForUi(AgentResult("", None, [r.1]));
        }
      } else {
        var r := Steps(crm, t.tools, t.actions, t.stored);
        crm := r.0;
        agentResult := AgentResult("agent_error", None, []);
        if t.finished { agentResult := NormalizeForUi(AgentResult("", None, r.1)); }
      }
    }

    /** `process_input_core` up to its commit. */
    method ProcessInput(t: Turn)
      requires t.Input?
      modifies this
      ensures Value() == Next(old(Value()), t)
    {
      var latest := LoadLatest();
      var pending := if t.client.Some? then t.client else latest;
      var agentResult := Decided(t, pending);
      if t.stored { chat := chat + [User, Assistant(Some(agentResult))]; }
    }

    /** The CRM reports a created record: a message of its own, without a proposal. */
    method NoteRecordCreated()
      modifies this
      ensures Value() == Next(old(Value()), RecordCreated)
    {
      chat := chat + [Assistant(Some(AgentResult("crm_sync_record_created", None, [])))];
    }
  }

  // ---------------------------------------------------------------- no write without a token

  /** Whatever the model says: it previews writes, executes reads, and never holds a token. */
  predicate ByAgent(r: Record) {
    r.origin.Agent? && r.token.None? && (r.mode.Execute? <==> r.readOnly)
  }

  predicate Authorised(r: Record) {
    match r.origin
    case Agent => ByAgent(r)
    case Confirm => r.mode.Execute? && r.token.Some?
    case Repreview => r.mode.Preview? && r.token.None?
  }

  /** Authorised, and sent no more often than the provider's retry loop allows. */
  predicate Lawful(r: Record) {
    Authorised(r) && r.sends <= CrmProvider.Attempts(r.readOnly)
  }

  /** `later` is `crm` after more calls, all of that origin and lawful. */
  ghost predicate Extends(crm: Crm, later: Crm, origin: Origin) {
    && crm.issued <= later.issued && crm.wire <= later.wire
    && forall i | |crm.wire| <= i < |later.wire| :: later.wire[i].origin == origin && Lawful(later.wire[i])
  }

  lemma ExtendsTwice(a: Crm, b: Crm, c: Crm, origin: Origin)
    requires Extends(a, b, origin) && Extends(b, c, origin)
    ensures Extends(a, c, origin)
  {
    forall i | |a.wire| <= i < |c.wire| ensures c.wire[i].origin == origin && Lawful(c.wire[i]) {
      if i < |b.wire| { assert c.wire[i] == b.wire[i]; }
    }
  }

  lemma CallExtends(crm: Crm, spec: Spec, args: Args, mode: Mode, token: Option<nat>, a: Answer, origin: Origin,
                    stored: bool)
    requires Authorised(Recorded(spec, args, mode, token, a, origin, stored))
    ensures Extends(crm, Call(crm, spec, args, mode, token, a, origin, stored).0, origin)
  {
    CrmProvider.SendsBounded(spec.readOnly, a.course);
  }

  lemma UseExtends(crm: Crm, spec: Spec, u: Use, stored: bool)
    ensures Extends(crm, InvokeCrm(crm, spec, u, stored).0, Agent)
  {
    if u.args.Some? { CallExtends(crm, spec, u.args.value, ModeOf(spec), None, u.answer, Agent, stored); }
  }

  lemma {:induction false} NestedExtend(crm: Crm, t: ToolSet, uses: seq<Use>, stored: bool)
    ensures Extends(crm, Nested(crm, t, uses, stored), Agent)
  {
    if uses != [] {
      var u := uses[|uses| - 1];
      NestedExtend(crm, t, uses[..|uses| - 1], stored);
      var c := Nested(crm, t, uses[..|uses| - 1], stored);
      if u.name in t.crm {
        UseExtends(c, t.crm[u.name], u, stored);
        ExtendsTwice(crm, c, Nested(crm, t, uses, stored), Agent);
      }
    }
  }

  lemma InvokeExtends(crm: Crm, t: ToolSet, a: Action, stored: bool)
    ensures Extends(crm, Invoke(crm, t, a, stored).0, Agent)
  {
    if a.use.name in t.crm { UseExtends(crm, t.crm[a.use.name], a.use, stored); }
    NestedExtend(crm, t, a.nested, stored);
  }

  lemma {:induction false} StepsExtend(crm: Crm, t: ToolSet, actions: seq<Action>, stored: bool)
    ensures Extends(crm, Steps(crm, t, actions, stored).0, Agent)
  {
    if actions != [] {
      var a := actions[|actions| - 1];
      StepsExtend(crm, t, actions[..|actions| - 1], stored);
      var c := Steps(crm, t, actions[..|actions| - 1], stored).0;
      InvokeExtends(c, t, a, stored);
      ExtendsTwice(crm, c, Invoke(c, t, a, stored).0, Agent);
    }
  }

  function OriginOf(d: Decision): Origin {
    match d case RunConfirmed(_) => Confirm case Edited(_, _) => Repreview case AskAgent => Agent
  }

  lemma OutcomeExtends(w: World, t: Turn)
    requires t.Input?
    ensures Extends(w.crm, Outcome(w, t).0, OriginOf(Decide(w, t)))
  {
    match Decide(w, t)
    case AskAgent => StepsExtend(w.crm, t.tools, t.actions, t.stored);
    case RunConfirmed(p) => ExecuteExtends(w.crm, t.tools, p, t.answer, t.stored);
    case Edited(p, q) => RepreviewExtends(w.crm, t.tools, p, q.data, t.answer, t.stored);
  }

  lemma ExecuteExtends(crm: Crm, t: ToolSet, p: Envelope, a: Answer, stored: bool)
    requires p.call.token.Some?
    ensures Extends(crm, ExecutePending(crm, t, p, a, stored).0, Confirm)
  {
    if PendingSpec(t, p).Some? {
      CallExtends(crm, PendingSpec(t, p).value, Held(p), Execute, p.call.token, a, Confirm, stored);
    }
  }

  lemma RepreviewExtends(crm: Crm, t: ToolSet, p: Envelope, data: Data, a: Answer, stored: bool)
    ensures Extends(crm, RepreviewPending(crm, t, p, data, a, stored).0, Repreview)
  {
    if PendingSpec(t, p).Some? {
      CallExtends(crm, PendingSpec(t, p).value, Held(p).(data := Some(data)), Preview, None, a, Repreview, stored);
    }
  }

  /** In every chat, for every behaviour of model, CRM and client: each call made for the model is
      a read, or the preview of a write, and carries no token; a write is executed only from the
      confirm branch and only with a token; a write goes out at most once, a read twice. */
  lemma {:induction false} NoWriteWithoutToken(turns: seq<Turn>)
    ensures forall r | r in Run(turns).crm.wire ::
      && Lawful(r)
      && (!r.readOnly && r.mode.Execute? ==> r.origin.Confirm? && r.token.Some?)
  {
    if turns != [] {
      var w, t := Run(turns[..|turns| - 1]), turns[|turns| - 1];
      NoWriteWithoutToken(turns[..|turns| - 1]);
      if t.Input? {
        OutcomeExtends(w, t);
        var wire := Run(turns).crm.wire;
        forall i | 0 <= i < |wire| ensures Lawful(wire[i]) {
          if i < |w.crm.wire| { assert wire[i] == w.crm.wire[i] && wire[i] in w.crm.wire; }
        }
      }
    }
  }
}
