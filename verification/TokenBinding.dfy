/** The token the CRM issued for a previewed call: it stays with exactly the arguments it was issued
    for through observation, normalisation, storage, reload and edits, and runs them at most once
    per turn that reaches its commit. */
module TokenBinding {
  import opened Wrappers
  import opened Text
  import opened Envelopes
  import opened AgentResults
  import opened PendingPatch
  import opened ToolSets
  import opened Conversation
  import CrmProvider

  // ---------------------------------------------------------------- binding

  predicate Bound(issued: seq<Args>, e: Envelope) {
    e.call.token.Some? ==>
      e.call.token.value < |issued| && e.call.args == Some(issued[e.call.token.value])
  }

  /** Tokens travel in the confirmation part of an answer and nowhere else. */
  predicate Plain(o: Option<Envelope>) {
    o.Some? ==> o.value.call.token.None?
  }

  predicate PlainAnswer(a: Answer) {
    a.body.Reply? ==> Plain(a.body.structured.pending)
  }

  predicate PlainUse(u: Use) {
    PlainAnswer(u.answer) && (u.redirect.Some? ==> Plain(u.redirect.value.pending))
  }

  predicate PlainTurn(t: Turn) {
    t.Input? ==>
      && PlainAnswer(t.answer)
      && forall a | a in t.actions :: PlainUse(a.use) && Plain(a.own.pending)
  }

  /** An observation made between two states of the CRM: its token, if any, is new and bound. */
  predicate Minted(before: Crm, after: Crm, o: Option<Envelope>) {
    o.Some? ==> Bound(after.issued, o.value) && (o.value.call.token.Some? ==> o.value.call.token.value >= |before.issued|)
  }

  lemma BoundLater(issued: seq<Args>, later: seq<Args>, e: Envelope)
    requires issued <= later && Bound(issued, e)
    ensures Bound(later, e)
  {
  }

  lemma MintedLater(a: Crm, b: Crm, c: Crm, d: Crm, o: Option<Envelope>)
    requires |a.issued| <= |b.issued| && c.issued <= d.issued && Minted(b, c, o)
    ensures Minted(a, d, o)
  {
  }

  lemma KeptBound(issued: seq<Args>, e: Envelope)
    ensures Bound(issued, e) ==> Bound(issued, Kept(e))
    ensures Kept(e).call.token == e.call.token || Kept(e).call.token.None?
  {
    KeptCall(e);
  }

  /** A preview or a call that demands a confirmation puts the new token next to its arguments. */
  lemma CallMints(crm: Crm, spec: Spec, args: Args, mode: Mode, token: Option<nat>, a: Answer, origin: Origin,
                  stored: bool)
    requires PlainAnswer(a)
    ensures var r := Call(crm, spec, args, mode, token, a, origin, stored);
      Minted(crm, r.0, ToObservation(spec, args, r.1).pending)
  {
    var body := Delivered(spec.readOnly, a);
    if body.Reply? && body.demand.Some? {
      var c := Call(crm, spec, args, mode, token, a, origin, stored).1.confirmation.value;
      var p := PendingFor(spec, args, body.structured, body.version, c);
      assert p.call.token.Some? ==> p.call.token == c.token && p.call.args == Some(Confirmed(c, args));
    }
  }

  lemma InvokeMints(crm: Crm, t: ToolSet, a: Action, stored: bool)
    requires PlainUse(a.use) && Plain(a.own.pending)
    ensures var r := Invoke(crm, t, a, stored); Minted(crm, r.0, r.1.pending)
  {
    if a.use.name in t.crm && a.use.args.Some? {
      var spec := t.crm[a.use.name];
      CallMints(crm, spec, a.use.args.value, ModeOf(spec), None, a.use.answer, Agent, stored);
    }
  }

  ghost predicate AllMinted(before: Crm, after: Crm, steps: seq<Obs>) {
    forall i | 0 <= i < |steps| :: Minted(before, after, steps[i].pending)
  }

  lemma {:induction false} StepsMint(crm: Crm, t: ToolSet, actions: seq<Action>, stored: bool)
    requires forall a | a in actions :: PlainUse(a.use) && Plain(a.own.pending)
    ensures var r := Steps(crm, t, actions, stored); AllMinted(crm, r.0, r.1)
  {
    if actions != [] {
      var rest, a := actions[..|actions| - 1], actions[|actions| - 1];
      StepsMint(crm, t, rest, stored);
      StepsExtend(crm, t, rest, stored);
      var before := Steps(crm, t, rest, stored);
      var r := Invoke(before.0, t, a, stored);
      InvokeExtends(before.0, t, a, stored);
      InvokeMints(before.0, t, a, stored);
      MintedLater(crm, before.0, r.0, r.0, r.1.pending);
      forall i | 0 <= i < |before.1| ensures Minted(crm, r.0, before.1[i].pending) {
        MintedLater(crm, crm, before.0, r.0, before.1[i].pending);
      }
    }
  }

  /** Whatever the chat log gives back of these steps is minted with them. */
  lemma ResultMinted(before: Crm, after: Crm, status: string, steps: seq<Obs>)
    requires AllMinted(before, after, steps)
    ensures Minted(before, after, Extracted(Normalized(AgentResult(status, None, steps))))
  {
    var r := AgentResult(status, None, steps);
    var x := Extracted(Normalized(r));
    if x.Some? {
      ExtractedComesFrom(r, x.value);
      KeptBound(after.issued, EMPTY);
      forall i | 0 <= i < |steps| && steps[i].pending.Some?
        ensures Minted(before, after, Some(Kept(steps[i].pending.value)))
      {
        assert Minted(before, after, steps[i].pending);
        KeptBound(after.issued, steps[i].pending.value);
      }
    }
  }

  lemma ExecuteMints(crm: Crm, t: ToolSet, p: Envelope, a: Answer, stored: bool)
    requires PlainAnswer(a)
    ensures var r := ExecutePending(crm, t, p, a, stored); Minted(crm, r.0, r.1.pending)
  {
    if PendingSpec(t, p).Some? {
      CallMints(crm, PendingSpec(t, p).value, Held(p), Execute, p.call.token, a, Confirm, stored);
    }
  }

  lemma RepreviewMints(crm: Crm, t: ToolSet, p: Envelope, data: Data, a: Answer, stored: bool)
    requires PlainAnswer(a)
    ensures var r := RepreviewPending(crm, t, p, data, a, stored); Minted(crm, r.0, r.1.pending)
  {
    if PendingSpec(t, p).Some? {
      CallMints(crm, PendingSpec(t, p).value, Held(p).(data := Some(data)), Preview, None, a, Repreview, stored);
    }
  }

  lemma OfToolMinted(before: Crm, after: Crm, o: Obs)
    requires Minted(before, after, o.pending)
    ensures Minted(before, after, Extracted(OfTool(o)))
  {
    ResultMinted(before, after, "", [o]);
  }

  lemma UnstoredPlain(crm: Crm, status: string, q: Envelope)
    requires q.call == NO_CALL
    ensures Minted(crm, crm, Extracted(AgentResult(status, Some(q), [])))
  {
    KeptBound(crm.issued, q);
  }

  lemma AgentMints(w: World, t: Turn)
    requires t.Input? && PlainTurn(t) && Decide(w, t).AskAgent?
    ensures var r := Outcome(w, t); Minted(w.crm, r.0, Extracted(r.1))
  {
    var s := Steps(w.crm, t.tools, t.actions, t.stored);
    StepsMint(w.crm, t.tools, t.actions, t.stored);
    ResultMinted(w.crm, s.0, "", s.1);
  }

  /** What a turn stores carries a token only if the CRM issued it in that very turn, and then
      together with its arguments. */
  lemma OutcomeMinted(w: World, t: Turn)
    requires t.Input? && PlainTurn(t)
    ensures var r := Outcome(w, t); Minted(w.crm, r.0, Extracted(r.1))
  {
    match Decide(w, t)
    case AskAgent => AgentMints(w, t);
    case RunConfirmed(p) =>
      var s := ExecutePending(w.crm, t.tools, p, t.answer, t.stored);
      ExecuteMints(w.crm, t.tools, p, t.answer, t.stored);
      OfToolMinted(w.crm, s.0, s.1);
    case Edited(p, q) =>
      EditHasNoToken(p, t.edit, t.now);
      var s := RepreviewPending(w.crm, t.tools, p, q.data, t.answer, t.stored);
      RepreviewMints(w.crm, t.tools, p, q.data, t.answer, t.stored);
      OfToolMinted(w.crm, s.0, s.1);
      UnstoredPlain(w.crm, "confirmation_required", q);
  }

  /** Whatever the log can give back is bound. */
  ghost predicate ChatIsBound(chat: seq<Message>, issued: seq<Args>) {
    forall k | 0 <= k <= |chat| :: Latest(chat[..k]).Some? ==> Bound(issued, Latest(chat[..k]).value)
  }

  /** Every envelope the chat can give back is bound, and every execution ran what its token was
      issued for. */
  ghost predicate BoundWorld(w: World) {
    && ChatIsBound(w.chat, w.crm.issued)
    && (forall r | r in w.crm.wire && r.token.Some? ::
          r.token.value < |w.crm.issued| && r.args == w.crm.issued[r.token.value])
  }

  /** The client sends no envelope, or one the CRM would recognise. */
  predicate FairClient(w: World, t: Turn) {
    t.Input? && t.client.Some? ==> Bound(w.crm.issued, t.client.value)
  }

  lemma LatestStored(chat: seq<Message>, r: AgentResult)
    ensures Latest(chat + [User, Assistant(Some(r))]) == Extracted(r)
    ensures Latest(chat + [User, Assistant(Some(r))][..1]) == Latest(chat)
    ensures Latest(chat + [Assistant(Some(r))]) == Extracted(r)
  {
    var more := chat + [User, Assistant(Some(r))];
    assert more[..|more| - 1] == chat + [User] == chat + [User, Assistant(Some(r))][..1];
    assert (chat + [User])[..|chat|] == chat;
    assert (chat + [Assistant(Some(r))])[..|chat|] == chat;
  }

  lemma ChatBoundLater(chat: seq<Message>, issued: seq<Args>, later: seq<Args>)
    requires ChatIsBound(chat, issued) && issued <= later
    ensures ChatIsBound(chat, later)
  {
    forall k | 0 <= k <= |chat| && Latest(chat[..k]).Some? ensures Bound(later, Latest(chat[..k]).value) {
      BoundLater(issued, later, Latest(chat[..k]).value);
    }
  }

  /** One more message, of the user or with a result that is bound. */
  lemma ChatBoundMore(chat: seq<Message>, m: Message, issued: seq<Args>)
    requires ChatIsBound(chat, issued)
    requires m.Assistant? && m.result.Some? && Extracted(m.result.value).Some? ==> Bound(issued, Extracted(m.result.value).value)
    ensures ChatIsBound(chat + [m], issued)
  {
    var more := chat + [m];
    forall k | 0 <= k <= |more| && Latest(more[..k]).Some? ensures Bound(issued, Latest(more[..k]).value) {
      if k <= |chat| {
        assert more[..k] == chat[..k];
      } else {
        assert more[..k] == more && more[..|chat|] == chat == chat[..|chat|];
      }
    }
  }

  lemma ChatBound(w: World, t: Turn)
    requires BoundWorld(w) && PlainTurn(t)
    ensures ChatIsBound(Next(w, t).chat, Next(w, t).crm.issued)
  {
    var v := Next(w, t);
    if t.Input? {
      OutcomeExtends(w, t);
      OutcomeMinted(w, t);
      ChatBoundLater(w.chat, w.crm.issued, v.crm.issued);
      if t.stored {
        var answer := Assistant(Some(Outcome(w, t).1));
        ChatBoundMore(w.chat, User, v.crm.issued);
        ChatBoundMore(w.chat + [User], answer, v.crm.issued);
        assert w.chat + [User] + [answer] == w.chat + [User, answer];
      }
    } else {
      ChatBoundMore(w.chat, Assistant(Some(AgentResult("crm_sync_record_created", None, []))), w.crm.issued);
    }
  }

  lemma PendingBound(w: World, t: Turn)
    requires t.Input? && BoundWorld(w) && FairClient(w, t)
    ensures PendingOf(w, t).Some? ==> Bound(w.crm.issued, PendingOf(w, t).value)
  {
    assert w.chat[..|w.chat|] == w.chat;
  }

  lemma WireBound(w: World, t: Turn)
    requires BoundWorld(w) && PlainTurn(t) && FairClient(w, t)
    ensures var v := Next(w, t);
      forall r | r in v.crm.wire && r.token.Some? :: r.token.value < |v.crm.issued| && r.args == v.crm.issued[r.token.value]
  {
    var v := Next(w, t);
    if t.Input? {
      OutcomeExtends(w, t);
      PendingBound(w, t);
      forall i | 0 <= i < |v.crm.wire| && v.crm.wire[i].token.Some?
        ensures v.crm.wire[i].token.value < |v.crm.issued| && v.crm.wire[i].args == v.crm.issued[v.crm.wire[i].token.value]
      {
        if i < |w.crm.wire| {
          assert v.crm.wire[i] == w.crm.wire[i] && w.crm.wire[i] in w.crm.wire;
        } else {
          assert Decide(w, t).RunConfirmed?;
          NewExecution(w, t, i);
        }
      }
    }
  }

  lemma ExecutionIs(crm: Crm, t: ToolSet, p: Envelope, a: Answer, stored: bool, i: nat)
    requires |crm.wire| <= i < |ExecutePending(crm, t, p, a, stored).0.wire|
    ensures var wire := ExecutePending(crm, t, p, a, stored).0.wire;
      && i == |crm.wire| && wire == crm.wire + [wire[i]]
      && wire[i].token == p.call.token && wire[i].args == Held(p) && wire[i].stored == stored
  {
    var spec := PendingSpec(t, p).value;
    var c := Call(crm, spec, Held(p), Execute, p.call.token, a, Confirm, stored).0;
    assert c.wire == crm.wire + [Recorded(spec, Held(p), Execute, p.call.token, a, Confirm, stored)];
  }

  /** The one call a confirm turn makes: the pending arguments with the pending token. */
  lemma NewExecution(w: World, t: Turn, i: nat)
    requires t.Input? && Decide(w, t).RunConfirmed? && |w.crm.wire| <= i < |Outcome(w, t).0.wire|
    ensures i == |w.crm.wire|
    ensures var p := Decide(w, t).pending; var wire := Outcome(w, t).0.wire;
      && p == PendingOf(w, t).value && wire == w.crm.wire + [wire[i]]
      && wire[i].token == p.call.token && wire[i].args == Held(p) && wire[i].stored == t.stored
  {
    ExecutionIs(w.crm, t.tools, Decide(w, t).pending, t.answer, t.stored, i);
  }

  ghost predicate FairRun(turns: seq<Turn>) {
    forall k | 0 <= k < |turns| :: PlainTurn(turns[k]) && FairClient(Run(turns[..k]), turns[k])
  }

  lemma FairPrefix(turns: seq<Turn>)
    requires FairRun(turns) && turns != []
    ensures var n := |turns| - 1;
      FairRun(turns[..n]) && PlainTurn(turns[n]) && FairClient(Run(turns[..n]), turns[n])
  {
    var n := |turns| - 1;
    forall k | 0 <= k < n ensures PlainTurn(turns[..n][k]) && FairClient(Run(turns[..n][..k]), turns[..n][k]) {
      assert turns[..n][..k] == turns[..k];
    }
  }

  /** In every chat whose client supplies no envelope the CRM did not bind: every envelope that the
      log could ever give back carries, with a token, exactly the arguments the CRM issued it for,
      and every execution with a token ran exactly those. */
  lemma {:induction false} TokensStayBound(turns: seq<Turn>)
    requires FairRun(turns)
    ensures BoundWorld(Run(turns))
  {
    if turns != [] {
      var n := |turns| - 1;
      FairPrefix(turns);
      TokensStayBound(turns[..n]);
      ChatBound(Run(turns[..n]), turns[n]);
      WireBound(Run(turns[..n]), turns[n]);
    }
  }

  // ---------------------------------------------------------------- at most once

  /** Executions with token `k` in turns that were stored, or aborted. */
  function Executions(wire: seq<Record>, k: nat, stored: bool): nat {
    if wire == [] then 0
    else
      var r := wire[|wire| - 1];
      Executions(wire[..|wire| - 1], k, stored) + if r.token == Some(k) && r.stored == stored then 1 else 0
  }

  /** Transport calls that asked the CRM to write with token `k`. */
  function Writes(wire: seq<Record>, k: nat): nat {
    if wire == [] then 0
    else
      var r := wire[|wire| - 1];
      Writes(wire[..|wire| - 1], k) + if r.token == Some(k) && !r.readOnly then r.sends else 0
  }

  lemma {:induction false} NoExecutions(wire: seq<Record>, more: seq<Record>, k: nat, stored: bool)
    requires wire <= more
    requires forall i | |wire| <= i < |more| :: more[i].token != Some(k) || more[i].stored != stored
    ensures Executions(more, k, stored) == Executions(wire, k, stored)
  {
    if |wire| < |more| {
      NoExecutions(wire, more[..|more| - 1], k, stored);
    } else {
      assert more == wire;
    }
  }

  lemma {:induction false} NeverIssued(wire: seq<Record>, k: nat, stored: bool)
    requires forall r | r in wire :: r.token != Some(k)
    ensures Executions(wire, k, stored) == 0
  {
    if wire != [] { NeverIssued(wire[..|wire| - 1], k, stored); }
  }

  /** Each token ran in at most one stored turn, and in none while it is still pending. */
  ghost predicate RunOnce(w: World) {
    forall k: nat :: Executions(w.crm.wire, k, true) <= if PendingToken(w) == Some(k) then 0 else 1
  }

  function PendingToken(w: World): Option<nat> {
    match Latest(w.chat) case Some(e) => e.call.token case None => None
  }

  /** The turn executes token `k` at most once more, and only if it is the pending one. */
  lemma TurnExecutes(w: World, t: Turn, k: nat)
    requires t.Input? && t.client.None?
    ensures var wire := Outcome(w, t).0.wire;
      && Executions(wire, k, true) <= Executions(w.crm.wire, k, true) + (if PendingToken(w) == Some(k) && t.stored then 1 else 0)
  {
    OutcomeExtends(w, t);
    var wire := Outcome(w, t).0.wire;
    if |wire| > |w.crm.wire| && wire[|w.crm.wire|].token == Some(k) && t.stored {
      assert Decide(w, t).RunConfirmed?;
      NewExecution(w, t, |w.crm.wire|);
      assert wire[..|wire| - 1] == w.crm.wire;
    } else {
      forall i | |w.crm.wire| <= i < |wire| ensures wire[i].token != Some(k) || wire[i].stored != true {
        if Decide(w, t).RunConfirmed? { NewExecution(w, t, i); }
      }
      NoExecutions(w.crm.wire, wire, k, true);
    }
  }

  /** A token issued in this turn has never run. */
  lemma NewTokenUnused(w: World, t: Turn, k: nat)
    requires BoundWorld(w) && t.Input? && t.client.None? && k >= |w.crm.issued|
    ensures Executions(Outcome(w, t).0.wire, k, true) == 0
  {
    TurnExecutes(w, t, k);
    NeverIssued(w.crm.wire, k, true);
    if PendingToken(w) == Some(k) { PendingIsIssued(w, k); }
  }

  lemma OnceStep(w: World, t: Turn, k: nat)
    requires BoundWorld(w) && RunOnce(w) && PlainTurn(t) && (t.Input? ==> t.client.None?)
    ensures var v := Next(w, t); Executions(v.crm.wire, k, true) <= if PendingToken(v) == Some(k) then 0 else 1
  {
    var v := Next(w, t);
    assert Executions(w.crm.wire, k, true) <= if PendingToken(w) == Some(k) then 0 else 1;
    if t.Input? {
      TurnExecutes(w, t, k);
      if t.stored {
        LatestStored(w.chat, Outcome(w, t).1);
        OutcomeMinted(w, t);
        if PendingToken(v) == Some(k) { NewTokenUnused(w, t, k); }
      }
    } else {
      LatestStored(w.chat, AgentResult("crm_sync_record_created", None, []));
    }
  }

  lemma PendingIsIssued(w: World, k: nat)
    requires BoundWorld(w) && PendingToken(w) == Some(k)
    ensures k < |w.crm.issued|
  {
    assert w.chat[..|w.chat|] == w.chat;
  }

  /** Turns of plain content in which the client sends no envelope of its own. */
  predicate PlainRun(turns: seq<Turn>) {
    forall t | t in turns :: PlainTurn(t) && (t.Input? ==> t.client.None?)
  }

  lemma PlainIsFair(turns: seq<Turn>)
    requires PlainRun(turns)
    ensures FairRun(turns)
  {
    forall k | 0 <= k < |turns| ensures PlainTurn(turns[k]) && FairClient(Run(turns[..k]), turns[k]) {
      assert turns[k] in turns;
    }
  }

  lemma {:induction false} RunOnceRun(turns: seq<Turn>)
    requires PlainRun(turns)
    ensures BoundWorld(Run(turns)) && RunOnce(Run(turns))
  {
    PlainIsFair(turns);
    TokensStayBound(turns);
    if turns != [] {
      var n := |turns| - 1;
      RunOnceRun(turns[..n]);
      assert turns[n] in turns;
      forall k: nat ensures Executions(Run(turns).crm.wire, k, true) <= if PendingToken(Run(turns)) == Some(k) then 0 else 1 {
        OnceStep(Run(turns[..n]), turns[n], k);
      }
    }
  }

  // ---------------------------------------------------------------- on the wire

  lemma {:induction false} WritesAreExecutions(wire: seq<Record>, k: nat)
    requires forall r | r in wire :: Lawful(r)
    ensures Writes(wire, k) <= Executions(wire, k, true) + Executions(wire, k, false)
  {
    if wire != [] {
      assert Lawful(wire[|wire| - 1]);
      WritesAreExecutions(wire[..|wire| - 1], k);
    }
  }

  /** At most once: in every chat without client envelopes, a token reaches the CRM as a write at
      most once, plus once for every aborted turn that had already run it. */
  lemma WritesAtMostOnce(turns: seq<Turn>, k: nat)
    requires PlainRun(turns)
    ensures Writes(Run(turns).crm.wire, k) <= 1 + Executions(Run(turns).crm.wire, k, false)
  {
    RunOnceRun(turns);
    NoWriteWithoutToken(turns);
    WritesAreExecutions(Run(turns).crm.wire, k);
    assert Executions(Run(turns).crm.wire, k, true) <= if PendingToken(Run(turns)) == Some(k) then 0 else 1;
  }

  /** So when no turn is aborted, at most once. */
  lemma NoAbortNoRepeat(turns: seq<Turn>, k: nat)
    requires PlainRun(turns) && forall t | t in turns && t.Input? :: t.stored
    ensures Writes(Run(turns).crm.wire, k) <= 1
  {
    WritesAtMostOnce(turns, k);
    AllStored(turns, k);
  }

  lemma {:induction false} AllStored(turns: seq<Turn>, k: nat)
    requires forall t | t in turns && t.Input? :: t.stored
    ensures Executions(Run(turns).crm.wire, k, false) == 0
  {
    if turns != [] {
      var n := |turns| - 1;
      var w, t := Run(turns[..n]), turns[n];
      AllStored(turns[..n], k);
      assert t in turns;
      if t.Input? { StoredTurn(w, t, k); }
    }
  }

  lemma StoredTurn(w: World, t: Turn, k: nat)
    requires t.Input? && t.stored
    ensures Executions(Outcome(w, t).0.wire, k, false) == Executions(w.crm.wire, k, false)
  {
    OutcomeExtends(w, t);
    var wire := Outcome(w, t).0.wire;
    forall i | |w.crm.wire| <= i < |wire| ensures wire[i].token != Some(k) || wire[i].stored != false {
      if Decide(w, t).RunConfirmed? { NewExecution(w, t, i); }
    }
    NoExecutions(w.crm.wire, wire, k, false);
  }

  /** The condition is needed, in every chat with an executable proposal: a confirmation aborted
      after its call, and the same confirmation once more, send the write as often as its call
      goes out, twice; `SentIff` says when it does. */
  lemma AbortRepeats(w: World, t: Turn, again: Turn, k: nat)
    requires t.Input? && t.confirm && !t.stored && t.client.None? && PendingToken(w) == Some(k)
    requires PendingSpec(t.tools, Latest(w.chat).value).Some? && !PendingSpec(t.tools, Latest(w.chat).value).value.readOnly
    requires again == t.(stored := true)
    ensures Writes(Next(Next(w, t), again).crm.wire, k) == Writes(w.crm.wire, k) + 2 * CrmProvider.Sends(false, t.answer.course)
  {
    var v := Next(w, t);
    AbortedWrites(w, t, k);
    assert v.chat == w.chat;
    AbortedWrites(v, again, k);
  }

  lemma AbortedWrites(w: World, t: Turn, k: nat)
    requires t.Input? && t.confirm && t.client.None? && PendingToken(w) == Some(k)
    requires PendingSpec(t.tools, Latest(w.chat).value).Some? && !PendingSpec(t.tools, Latest(w.chat).value).value.readOnly
    ensures Writes(Next(w, t).crm.wire, k) == Writes(w.crm.wire, k) + CrmProvider.Sends(false, t.answer.course)
  {
    var p := Latest(w.chat).value;
    var spec := PendingSpec(t.tools, p).value;
    assert Decide(w, t) == RunConfirmed(p);
    var r := Recorded(spec, Held(p), Execute, p.call.token, t.answer, Confirm, t.stored);
    var wire := ExecutePending(w.crm, t.tools, p, t.answer, t.stored).0.wire;
    assert wire == w.crm.wire + [r];
    assert wire[..|wire| - 1] == w.crm.wire;
  }

  // ---------------------------------------------------------------- from preview to execution

  /** A proposal stored by an agent turn is what the next turn finds pending. */
  lemma ProposalIsPending(w: World, t: Turn, o: Obs)
    requires t.Input? && t.stored && t.finished && Decide(w, t).AskAgent?
    requires var steps := Steps(w.crm, t.tools, t.actions, t.stored).1; steps != [] && steps[|steps| - 1] == o
    requires Proposes(o) && o.pending.Some? && NamesTool(o.pending.value.call)
    ensures var p := Latest(Next(w, t).chat); p.Some? && p.value.call == o.pending.value.call
  {
    var steps := Steps(w.crm, t.tools, t.actions, t.stored).1;
    assert steps == steps[..|steps| - 1] + [o];
    ProposalSurvives("", steps[..|steps| - 1], o);
    LatestStored(w.chat, Outcome(w, t).1);
  }

  /** The turn finds this proposal pending: the client's, else the one the chat gives back. */
  predicate Finds(w: World, t: Turn, p: Envelope) {
    t.Input? && if t.client.Some? then t.client == Some(p) else Latest(w.chat) == Some(p)
  }

  /** The arguments a new preview of an edited proposal carries: the edited data, and the rest as it
      was pending. */
  function WithEdit(args: Option<Args>, data: Data): Args {
    match args
    case Some(a) => Args(Some(data), a.moduleName, a.action, a.others)
    case None => Args(Some(data), "", "", map[])
  }

  lemma FindsPending(w: World, t: Turn, p: Envelope)
    requires Finds(w, t, p)
    ensures PendingOf(w, t) == Some(p)
  {
  }

  lemma CallRecords(crm: Crm, spec: Spec, args: Args, mode: Mode, token: Option<nat>, a: Answer, origin: Origin,
                    stored: bool)
    ensures Call(crm, spec, args, mode, token, a, origin, stored).0.wire == crm.wire
      + [Record(spec.name, spec.readOnly, mode, args, token, CrmProvider.Sends(spec.readOnly, a.course), origin, stored)]
  {
  }

  lemma ExecuteRecords(crm: Crm, t: ToolSet, p: Envelope, spec: Spec, a: Answer, stored: bool)
    requires PendingSpec(t, p) == Some(spec)
    ensures ExecutePending(crm, t, p, a, stored).0.wire == crm.wire
      + [Record(spec.name, spec.readOnly, Execute, if p.call.args.Some? then p.call.args.value else NO_ARGS, p.call.token,
                CrmProvider.Sends(spec.readOnly, a.course), Confirm, stored)]
  {
    CallRecords(crm, spec, if p.call.args.Some? then p.call.args.value else NO_ARGS, Execute, p.call.token, a, Confirm, stored);
  }

  lemma RepreviewRecords(crm: Crm, t: ToolSet, p: Envelope, data: Data, spec: Spec, a: Answer, stored: bool)
    requires PendingSpec(t, p) == Some(spec)
    ensures var r := RepreviewPending(crm, t, p, data, a, stored); var args := WithEdit(p.call.args, data);
      && r.0 == Call(crm, spec, args, Preview, None, a, Repreview, stored).0
      && r.1 == ToObservation(spec, args, Call(crm, spec, args, Preview, None, a, Repreview, stored).1)
      && r.0.wire == crm.wire
           + [Record(spec.name, spec.readOnly, Preview, args, None, CrmProvider.Sends(spec.readOnly, a.course), Repreview,
                     stored)]
  {
    CallRecords(crm, spec, WithEdit(p.call.args, data), Preview, None, a, Repreview, stored);
  }

  lemma OfToolIs(o: Obs)
    ensures OfTool(o) == Normalized(AgentResult("", None, [] + [o]))
  {
    assert [] + [o] == [o];
  }

  lemma EditDecides(w: World, t: Turn, p: Envelope, q: Envelope)
    requires Finds(w, t, p) && !t.confirm && Patch(p, t.edit, t.now) == Some(q) && NamesTool(p.call)
    ensures var r := RepreviewPending(w.crm, t.tools, p, q.data, t.answer, t.stored);
      Outcome(w, t) == (r.0, OfTool(r.1)) && Next(w, t).crm == r.0
  {
    FindsPending(w, t, p);
    assert Decide(w, t) == Edited(p, q);
  }

  lemma ConfirmDecides(w: World, t: Turn, p: Envelope)
    requires Finds(w, t, p) && t.confirm && p.call.token.Some?
    ensures Next(w, t).crm == ExecutePending(w.crm, t.tools, p, t.answer, t.stored).0
  {
    FindsPending(w, t, p);
    assert Decide(w, t) == RunConfirmed(p);
  }

  /** A confirmation, on the wire: it makes exactly one call, an execution under the token of the
      proposal with exactly the arguments the proposal holds, whatever the model would say. */
  lemma ConfirmRuns(w: World, c: Turn, p: Envelope, name: string, spec: Spec)
    requires Finds(w, c, p) && c.confirm && p.call.token.Some?
    requires p.call.tool == Some(name) && StandsFor(c.tools, name, spec)
    ensures Next(w, c).crm.wire == w.crm.wire
      + [Record(spec.name, spec.readOnly, Execute, if p.call.args.Some? then p.call.args.value else NO_ARGS, p.call.token,
                CrmProvider.Sends(spec.readOnly, c.answer.course), Confirm, c.stored)]
  {
    PendingSpecIff(c.tools, p, name, spec);
    ConfirmDecides(w, c, p);
    ExecuteRecords(w.crm, c.tools, p, spec, c.answer, c.stored);
  }

  /** An edit, on the wire: it makes exactly one call, a preview without a token that carries the
      edited data. */
  lemma EditPreviews(w: World, t: Turn, p: Envelope, q: Envelope, name: string, spec: Spec)
    requires Finds(w, t, p) && !t.confirm && Patch(p, t.edit, t.now) == Some(q)
    requires p.call.tool == Some(name) && name != "" && StandsFor(t.tools, name, spec)
    ensures Next(w, t).crm.wire == w.crm.wire
      + [Record(spec.name, spec.readOnly, Preview, WithEdit(p.call.args, q.data), None,
                CrmProvider.Sends(spec.readOnly, t.answer.course), Repreview, t.stored)]
  {
    PendingSpecIff(t.tools, p, name, spec);
    EditDecides(w, t, p, q);
    RepreviewRecords(w.crm, t.tools, p, q.data, spec, t.answer, t.stored);
  }

  /** An edit of a proposal without a tool call: nothing on the wire, and the edited proposal is what
      the next turn finds pending. */
  lemma EditWithoutTool(w: World, t: Turn, p: Envelope, q: Envelope)
    requires Finds(w, t, p) && !t.confirm && Patch(p, t.edit, t.now) == Some(q)
    requires p.call.tool.None? || p.call.tool.value == ""
    ensures Next(w, t).crm == w.crm
    ensures t.stored ==> Latest(Next(w, t).chat) == Some(q)
  {
    FindsPending(w, t, p);
    assert Decide(w, t) == Edited(p, q);
    EditHasNoToken(p, t.edit, t.now);
    LatestStored(w.chat, Outcome(w, t).1);
  }

  /** A tool that is gone from the set and the manifest: neither a confirmation nor an edit sends
      anything, and nothing stays pending. */
  lemma ToolIsGone(w: World, t: Turn, p: Envelope, name: string)
    requires Finds(w, t, p) && p.call.tool == Some(name) && forall spec :: !StandsFor(t.tools, name, spec)
    requires if t.confirm then p.call.token.Some? else Patch(p, t.edit, t.now).Some? && name != ""
    ensures Next(w, t).crm == w.crm
    ensures t.stored ==> Latest(Next(w, t).chat).None?
  {
    FindsPending(w, t, p);
    assert PendingSpec(t.tools, p).None? by {
      if PendingSpec(t.tools, p).Some? { PendingSpecIff(t.tools, p, name, PendingSpec(t.tools, p).value); }
    }
    var o := Obs("error", None, name in RESULT_TOOLS);
    if t.confirm {
      ConfirmDecides(w, t, p);
    } else {
      EditDecides(w, t, p, Patch(p, t.edit, t.now).value);
    }
    assert Outcome(w, t) == (w.crm, OfTool(o));
    ErrorLeavesNothing(o);
    LatestStored(w.chat, OfTool(o));
  }

  lemma ErrorLeavesNothing(o: Obs)
    requires o.status == "error"
    ensures Extracted(OfTool(o)).None?
  {
    assert Trimmed(o.status) && Lower(o.status) == o.status;
    TrimmedStays(o.status);
    NothingSettles("", [o]);
  }

  /** Which turns the agent gets, and what they leave: those without a proposal, those that confirm
      one without a token, and those whose text is no edit of it. A turn in which the agent fails
      leaves nothing pending. */
  lemma AgentTurn(w: World, t: Turn)
    requires t.Input?
    requires match (if t.client.Some? then t.client else Latest(w.chat))
      case None => true
      case Some(p) => if t.confirm then p.call.token.None? else Patch(p, t.edit, t.now).None?
    ensures var r := Steps(w.crm, t.tools, t.actions, t.stored);
      && Next(w, t).crm == r.0
      && (t.stored && t.finished ==> Latest(Next(w, t).chat) == Extracted(Normalized(AgentResult("", None, r.1))))
      && (t.stored && !t.finished ==> Latest(Next(w, t).chat) == None)
  {
    assert Decide(w, t) == AskAgent;
    LatestStored(w.chat, Outcome(w, t).1);
  }

  /** The notice of a created record leaves nothing pending and sends nothing. */
  lemma NoticeClears(w: World)
    ensures Latest(Next(w, RecordCreated).chat).None? && Next(w, RecordCreated).crm == w.crm
  {
    LatestStored(w.chat, AgentResult("crm_sync_record_created", None, []));
  }

  lemma {:induction false} UsersAddNothing(chat: seq<Message>, later: seq<Message>)
    requires forall m | m in later :: m.User?
    ensures Latest(chat + later) == Latest(chat)
  {
    if later == [] {
      assert chat + later == chat;
    } else {
      var n := |later| - 1;
      assert (chat + later)[..|chat + later| - 1] == chat + later[..n] && later[n] in later;
      UsersAddNothing(chat, later[..n]);
    }
  }

  /** Only the newest assistant message counts, whatever the user says after it. */
  lemma OnlyTheNewestCounts(chat: seq<Message>, r: Option<AgentResult>, later: seq<Message>)
    requires forall m | m in later :: m.User?
    ensures Latest(chat + [Assistant(r)] + later) == match r case Some(x) => Extracted(x) case None => None
  {
    UsersAddNothing(chat + [Assistant(r)], later);
    assert (chat + [Assistant(r)])[..|chat|] == chat;
  }

  /** The CRM's answer arrived and asks, with a token, for a confirmation. */
  predicate Demands(readOnly: bool, a: Answer, d: Demand) {
    && CrmProvider.Tells(readOnly, a.course).Ok?
    && a.body.Reply? && a.body.demand == Some(d) && d.withToken
  }

  /** What the token is issued for: what the CRM names, else what was previewed. */
  function IssuedFor(d: Demand, sent: Args): Args {
    match d.args case Some(a) => a case None => sent
  }

  /** What the user is shown of arguments: their data, or without any their other fields. */
  function Shown(args: Args): Data {
    match args.data case Some(d) => d case None => Data(Fields(Foreign("", None), None, 0, 0, "", map[]), args.others)
  }

  /** The tool call of a proposal: the tool at the version the CRM answered for, the arguments and
      the token issued for them. */
  function Keys(spec: Spec, version: string, args: Args, token: nat, expires: Option<string>): CallKeys {
    CallKeys(Some(spec.name), Some(if version != "" then version else spec.version), Some(args), Some(token), expires)
  }

  /** The observation of such an answer. */
  lemma DemandShows(crm: Crm, spec: Spec, sent: Args, mode: Mode, a: Answer, origin: Origin, stored: bool, d: Demand)
    requires spec.name != "" && Demands(spec.readOnly, a, d)
    ensures var r := Call(crm, spec, sent, mode, None, a, origin, stored); var o := ToObservation(spec, sent, r.1);
      && r.0.issued == crm.issued + [IssuedFor(d, sent)]
      && o.status == "confirmation_required" && o.pending.Some?
      && o.pending.value.call == Keys(spec, a.body.version, IssuedFor(d, sent), |crm.issued|, d.expires)
      && o.pending.value.data == Shown(IssuedFor(d, sent)) && o.pending.value.requiresConfirmation
  {
  }

  lemma ConfirmationProposes(o: Obs)
    requires o.status == "confirmation_required"
    ensures Proposes(o) && Stops(o)
  {
    assert Trimmed(o.status) && Lower(o.status) == o.status;
    TrimmedStays(o.status);
  }

  /** A preview that demands a confirmation, as the last step of a stored turn, is what the next
      turn finds pending. */
  lemma PreviewIsPending(w: World, t: Turn, crm: Crm, earlier: seq<Obs>, o: Obs)
    requires t.Input? && t.stored && o.status == "confirmation_required" && o.pending.Some? && NamesTool(o.pending.value.call)
    requires Outcome(w, t) == (crm, Normalized(AgentResult("", None, earlier + [o])))
    ensures var v := Next(w, t);
      && v.crm == crm && Latest(v.chat).Some?
      && Latest(v.chat).value.call == o.pending.value.call
      && Latest(v.chat).value.data == o.pending.value.data
  {
    KeptKeeps(o.pending.value);
    ConfirmationProposes(o);
    ProposalSurvives("", earlier, o);
    LatestStored(w.chat, Outcome(w, t).1);
  }

  lemma CallLeaves(w: World, t: Turn, crm: Crm, earlier: seq<Obs>, spec: Spec, sent: Args, mode: Mode, a: Answer,
                   origin: Origin, d: Demand)
    requires t.Input? && t.stored && spec.name != "" && Demands(spec.readOnly, a, d)
    requires var r := Call(crm, spec, sent, mode, None, a, origin, true);
      Outcome(w, t) == (r.0, Normalized(AgentResult("", None, earlier + [ToObservation(spec, sent, r.1)])))
    ensures var v := Next(w, t);
      && v.crm.issued == crm.issued + [IssuedFor(d, sent)]
      && Latest(v.chat).Some? && Latest(v.chat).value.data == Shown(IssuedFor(d, sent))
      && Latest(v.chat).value.call == Keys(spec, a.body.version, IssuedFor(d, sent), |crm.issued|, d.expires)
  {
    var r := Call(crm, spec, sent, mode, None, a, origin, true);
    DemandShows(crm, spec, sent, mode, a, origin, true, d);
    PreviewIsPending(w, t, r.0, earlier, ToObservation(spec, sent, r.1));
  }

  lemma EditOutcome(w: World, t: Turn, p: Envelope, q: Envelope, name: string, spec: Spec)
    requires Finds(w, t, p) && !t.confirm && Patch(p, t.edit, t.now) == Some(q)
    requires p.call.tool == Some(name) && name != "" && StandsFor(t.tools, name, spec)
    ensures var args := WithEdit(p.call.args, q.data);
      var r := Call(w.crm, spec, args, Preview, None, t.answer, Repreview, t.stored);
      Outcome(w, t) == (r.0, Normalized(AgentResult("", None, [] + [ToObservation(spec, args, r.1)])))
  {
    PendingSpecIff(t.tools, p, name, spec);
    EditDecides(w, t, p, q);
    RepreviewRecords(w.crm, t.tools, p, q.data, spec, t.answer, t.stored);
    OfToolIs(RepreviewPending(w.crm, t.tools, p, q.data, t.answer, t.stored).1);
  }

  /** What an edit leaves whose new preview demands a confirmation. */
  lemma EditLeaves(w: World, t: Turn, p: Envelope, q: Envelope, name: string, spec: Spec, d: Demand)
    requires Finds(w, t, p) && !t.confirm && t.stored && Patch(p, t.edit, t.now) == Some(q)
    requires p.call.tool == Some(name) && name != "" && StandsFor(t.tools, name, spec) && spec.name != ""
    requires Demands(spec.readOnly, t.answer, d)
    ensures var v := Next(w, t); var args := IssuedFor(d, WithEdit(p.call.args, q.data));
      && v.crm.issued == w.crm.issued + [args]
      && Latest(v.chat).Some? && Latest(v.chat).value.data == Shown(args)
      && Latest(v.chat).value.call == Keys(spec, t.answer.body.version, args, |w.crm.issued|, d.expires)
  {
    EditOutcome(w, t, p, q, name, spec);
    CallLeaves(w, t, w.crm, [], spec, WithEdit(p.call.args, q.data), Preview, t.answer, Repreview, d);
  }

  /** Edit, then confirm: the confirmation executes the edited proposal, its data as edited unless
      the CRM named other arguments, under the token issued for exactly that, and what was pending
      in between shows the data that is executed. */
  lemma EditThenConfirm(w: World, t: Turn, c: Turn, p: Envelope, q: Envelope, name: string, spec: Spec, d: Demand, run: Spec)
    requires Finds(w, t, p) && !t.confirm && t.stored && Patch(p, t.edit, t.now) == Some(q)
    requires p.call.tool == Some(name) && name != "" && StandsFor(t.tools, name, spec) && spec.name != ""
    requires Demands(spec.readOnly, t.answer, d)
    requires c.Input? && c.confirm && c.client.None? && StandsFor(c.tools, spec.name, run)
    ensures var v := Next(w, t); var args := IssuedFor(d, WithEdit(p.call.args, q.data));
      && v.crm.issued == w.crm.issued + [args]
      && Latest(v.chat).Some? && Latest(v.chat).value.data == Shown(args)
      && Next(v, c).crm.wire == v.crm.wire
           + [Record(run.name, run.readOnly, Execute, args, Some(|w.crm.issued|),
                     CrmProvider.Sends(run.readOnly, c.answer.course), Confirm, c.stored)]
      && (d.args.None? ==> args.data == Some(q.data))
  {
    EditLeaves(w, t, p, q, name, spec, d);
    ConfirmRuns(Next(w, t), c, Latest(Next(w, t).chat).value, spec.name, run);
  }

  /** Proposal, then confirm: when the last step of an agent turn proposes a call with a token, the
      confirming turn makes exactly that call. */
  lemma ConfirmRunsTheProposal(w: World, t: Turn, c: Turn, o: Obs, name: string, run: Spec)
    requires t.Input? && t.stored && t.finished && Decide(w, t).AskAgent?
    requires var steps := Steps(w.crm, t.tools, t.actions, t.stored).1; steps != [] && steps[|steps| - 1] == o
    requires Proposes(o) && o.pending.Some? && o.pending.value.call.tool == Some(name) && name != ""
    requires o.pending.value.call.token.Some? && o.pending.value.call.args.Some?
    requires c.Input? && c.confirm && c.client.None? && StandsFor(c.tools, name, run)
    ensures var v := Next(w, t); var call := o.pending.value.call;
      Next(v, c).crm.wire == v.crm.wire
        + [Record(run.name, run.readOnly, Execute, call.args.value, call.token,
                  CrmProvider.Sends(run.readOnly, c.answer.course), Confirm, c.stored)]
  {
    ProposalIsPending(w, t, o);
    ConfirmRuns(Next(w, t), c, Latest(Next(w, t).chat).value, name, run);
  }

  /** The last tool call of an agent turn is this use of a CRM tool, with valid arguments and no
      interceptor, and nothing before it stopped the agent. */
  predicate EndsWith(w: World, t: Turn, u: Use, spec: Spec, args: Args) {
    && t.Input? && t.finished && Decide(w, t).AskAgent? && t.actions != []
    && t.actions[|t.actions| - 1].use == u && u.name in t.tools.crm && t.tools.crm[u.name] == spec
    && u.args == Some(args) && u.redirect.None?
    && forall o | o in Steps(w.crm, t.tools, t.actions[..|t.actions| - 1], t.stored).1 :: !Stops(o)
  }

  lemma LastStep(w: World, t: Turn, u: Use, spec: Spec, args: Args) returns (crm: Crm, earlier: seq<Obs>)
    requires EndsWith(w, t, u, spec, args)
    ensures |crm.issued| >= |w.crm.issued|
    ensures var r := Call(crm, spec, args, ModeOf(spec), None, u.answer, Agent, t.stored);
      Outcome(w, t) == (r.0, Normalized(AgentResult("", None, earlier + [ToObservation(spec, args, r.1)])))
  {
    var rest := t.actions[..|t.actions| - 1];
    StepsExtend(w.crm, t.tools, rest, t.stored);
    var before := Steps(w.crm, t.tools, rest, t.stored);
    crm, earlier := before.0, before.1;
    assert earlier != [] ==> earlier[|earlier| - 1] in earlier;
    StepsOnce(w.crm, t.tools, rest, t.actions[|t.actions| - 1], t.stored);
    assert t.actions == rest + [t.actions[|t.actions| - 1]];
  }

  lemma StepsOnce(crm: Crm, t: ToolSet, rest: seq<Action>, a: Action, stored: bool)
    requires var before := Steps(crm, t, rest, stored).1; before == [] || !Stops(before[|before| - 1])
    requires a.use.name in t.crm && a.use.args.Some? && a.use.redirect.None?
    ensures var before := Steps(crm, t, rest, stored); var spec := t.crm[a.use.name];
      var r := Call(before.0, spec, a.use.args.value, ModeOf(spec), None, a.use.answer, Agent, stored);
      Steps(crm, t, rest + [a], stored) == (r.0, before.1 + [ToObservation(spec, a.use.args.value, r.1)])
  {
    assert (rest + [a])[..|rest|] == rest;
  }

  /** What an agent turn leaves that ends with a call whose answer demands a confirmation. */
  lemma PreviewLeaves(w: World, t: Turn, u: Use, spec: Spec, args: Args, d: Demand)
    requires EndsWith(w, t, u, spec, args) && t.stored && spec.name != "" && Demands(spec.readOnly, u.answer, d)
    ensures var v := Next(w, t); var n := |v.crm.issued| - 1;
      && v.crm.wire != [] && v.crm.wire[|v.crm.wire| - 1] ==
           Record(spec.name, spec.readOnly, if spec.readOnly then Execute else Preview, args, None,
                  CrmProvider.Sends(spec.readOnly, u.answer.course), Agent, true)
      && n >= |w.crm.issued| && v.crm.issued[n] == IssuedFor(d, args)
      && Latest(v.chat).Some? && Latest(v.chat).value.data == Shown(IssuedFor(d, args))
      && Latest(v.chat).value.call == Keys(spec, u.answer.body.version, IssuedFor(d, args), n, d.expires)
  {
    var crm, earlier := LastStep(w, t, u, spec, args);
    CallRecords(crm, spec, args, ModeOf(spec), None, u.answer, Agent, true);
    CallLeaves(w, t, crm, earlier, spec, args, ModeOf(spec), u.answer, Agent, d);
  }

  /** Preview, then confirm: when the agent's last tool call of a turn is a CRM tool whose answer
      demands a confirmation, that call is on the wire without a token, and the confirmation
      executes what it previewed, unless the CRM named other arguments, under the token issued for
      exactly that, and what was pending in between shows the data that is executed. */
  lemma ConfirmRunsThePreview(w: World, t: Turn, c: Turn, u: Use, spec: Spec, args: Args, d: Demand, run: Spec)
    requires EndsWith(w, t, u, spec, args) && t.stored && spec.name != "" && Demands(spec.readOnly, u.answer, d)
    requires c.Input? && c.confirm && c.client.None? && StandsFor(c.tools, spec.name, run)
    ensures var v := Next(w, t); var n := |v.crm.issued| - 1;
      && v.crm.wire != [] && v.crm.wire[|v.crm.wire| - 1] ==
           Record(spec.name, spec.readOnly, if spec.readOnly then Execute else Preview, args, None,
                  CrmProvider.Sends(spec.readOnly, u.answer.course), Agent, true)
      && n >= |w.crm.issued| && v.crm.issued[n] == IssuedFor(d, args)
      && Latest(v.chat).Some? && Latest(v.chat).value.data == Shown(IssuedFor(d, args))
      && Next(v, c).crm.wire == v.crm.wire
           + [Record(run.name, run.readOnly, Execute, IssuedFor(d, args), Some(n),
                     CrmProvider.Sends(run.readOnly, c.answer.course), Confirm, c.stored)]
  {
    PreviewLeaves(w, t, u, spec, args, d);
    ConfirmRuns(Next(w, t), c, Latest(Next(w, t).chat).value, spec.name, run);
  }
}
