/** What the chat log keeps of a turn and reads back (app/presentation/agent_result.py): the
    pending action is taken from the tool steps, newest first. */
module AgentResults {
  import opened Wrappers
  import opened Text
  import opened Envelopes

  /** An agent result without its texts and cards. */
  datatype AgentResult = AgentResult(status: string, pending: Option<Envelope>, steps: seq<Obs>)

  /** The status as both readers compare it. */
  function Key(status: string): string {
    Lower(Strip(status))
  }

  predicate Proposes(o: Obs) {
    Key(o.status) == "confirmation_required" || Key(o.status) == "resolution_required"
  }

  predicate CrmFailed(o: Obs) {
    Key(o.status) == "crm_http_error" || Key(o.status) == "crm_action_error"
  }

  /** A step that settles the turn: a proposal or a failed CRM action. */
  predicate Settles(o: Obs) {
    Proposes(o) || CrmFailed(o)
  }

  /** A proposal that carries an envelope. */
  predicate Offers(o: Obs) {
    Proposes(o) && o.pending.Some?
  }

  predicate Shows(o: Obs) {
    o.shows
  }

  /** The newest such step among the first `n`. */
  function Newest(steps: seq<Obs>, n: nat, wanted: Obs -> bool): (r: Option<Obs>)
    requires n <= |steps|
    ensures r.Some? ==> wanted(r.value)
    ensures r.Some? ==>
      exists i :: 0 <= i < n && steps[i] == r.value && forall j | i < j < n :: !wanted(steps[j])
    ensures r.None? ==> forall i | 0 <= i < n :: !wanted(steps[i])
  {
    if n == 0 then None
    else if wanted(steps[n - 1]) then Some(steps[n - 1])
    else Newest(steps, n - 1, wanted)
  }

  function Settled(r: AgentResult, o: Obs): AgentResult {
    if Proposes(o) then r.(status := Key(o.status), pending := Some(Kept(if o.pending.Some? then o.pending.value else EMPTY)))
    else r.(status := Key(o.status))
  }

  function Shown(r: AgentResult, o: Obs): AgentResult {
    if Strip(o.status) != "" then r.(status := Strip(o.status)) else r
  }

  /** A settling step decides; without one, the newest result that is the answer gives the status. */
  function Normalized(r: AgentResult): AgentResult {
    match Newest(r.steps, |r.steps|, Settles)
    case Some(o) => Settled(r, o)
    case None => match Newest(r.steps, |r.steps|, Shows) case Some(o) => Shown(r, o) case None => r
  }

  function Extracted(r: AgentResult): Option<Envelope> {
    if r.pending.Some? then Some(Kept(r.pending.value))
    else match Newest(r.steps, |r.steps|, Offers) case Some(o) => Some(Kept(o.pending.value)) case None => None
  }

  /** The readers' loop over the steps, from the newest back. */
  method NewestStep(steps: seq<Obs>, wanted: Obs -> bool) returns (found: Option<Obs>)
    ensures found == Newest(steps, |steps|, wanted)
  {
    var i := |steps|;
    while i > 0
      invariant 0 <= i <= |steps|
      invariant Newest(steps, |steps|, wanted) == Newest(steps, i, wanted)
    {
      i := i - 1;
      if wanted(steps[i]) { return Some(steps[i]); }
    }
    found := None;
  }

  /** `normalize_agent_result_for_ui`, as far as status and pending action go. */
  method NormalizeForUi(agentResult: AgentResult) returns (normalized: AgentResult)
    ensures normalized == Normalized(agentResult)
  {
    normalized := agentResult;
    var settling := NewestStep(agentResult.steps, Settles);
    if settling.Some? {
      var obs := settling.value;
      normalized := normalized.(status := Key(obs.status));
      if Proposes(obs) {
        var raw := if obs.pending.Some? then obs.pending.value else EMPTY;
        normalized := normalized.(pending := Some(Kept(raw)));
      }
      return;
    }
    var showing := NewestStep(agentResult.steps, Shows);
    if showing.Some? {
      var status := Strip(showing.value.status);
      if status != "" { normalized := normalized.(status := status); }
    }
  }

  /** `extract_pending_action_from_agent_result`. */
  method ExtractPending(agentResult: AgentResult) returns (pending: Option<Envelope>)
    ensures pending == Extracted(agentResult)
  {
    if agentResult.pending.Some? { return Some(Kept(agentResult.pending.value)); }
    var offer := NewestStep(agentResult.steps, Offers);
    if offer.None? { return None; }
    pending := Some(Kept(offer.value.pending.value));
  }

  /** Everything the chat log can give back comes, kept, from the pending action of the result
      itself or of one of its steps, or is the empty envelope. */
  lemma ExtractedComesFrom(r: AgentResult, e: Envelope)
    requires Extracted(Normalized(r)) == Some(e)
    ensures e == Kept(EMPTY) || (r.pending.Some? && e == Kept(r.pending.value))
      || exists i :: 0 <= i < |r.steps| && r.steps[i].pending.Some? && e == Kept(r.steps[i].pending.value)
  {
    var o := Newest(r.steps, |r.steps|, Settles);
    if o.Some? && Proposes(o.value) {
      KeptIdempotent(if o.value.pending.Some? then o.value.pending.value else EMPTY);
    }
  }

  /** A turn whose last step is a proposal: what is read back later is exactly what was proposed. */
  lemma ProposalSurvives(status: string, steps: seq<Obs>, o: Obs)
    requires Proposes(o) && o.pending.Some?
    ensures Extracted(Normalized(AgentResult(status, None, steps + [o]))) == Some(Kept(o.pending.value))
    ensures NamesTool(o.pending.value.call) ==> Kept(o.pending.value).call == o.pending.value.call
  {
    KeptIdempotent(o.pending.value);
  }

  lemma NewestIs(steps: seq<Obs>, i: nat, wanted: Obs -> bool)
    requires i < |steps| && wanted(steps[i]) && forall j | i < j < |steps| :: !wanted(steps[j])
    ensures Newest(steps, |steps|, wanted) == Some(steps[i])
  {
    assert Newest(steps, |steps|, wanted).Some?;
  }

  lemma OffersSettle(o: Obs)
    ensures Offers(o) ==> Proposes(o) && Settles(o)
    ensures Proposes(o) ==> !CrmFailed(o)
  {
  }

  /** What is made of the newest step that proposes or fails. A proposal is read back as it stands
      there; after a failed CRM action a proposal before it still is, if there is one. */
  lemma NewestSettles(status: string, steps: seq<Obs>, i: nat)
    requires i < |steps| && Settles(steps[i]) && forall j | i < j < |steps| :: !Settles(steps[j])
    ensures var r := Normalized(AgentResult(status, None, steps)); var o := steps[i];
      && r.status == Key(o.status) && r.steps == steps
      && (Proposes(o) ==> Extracted(r) == Some(Kept(if o.pending.Some? then o.pending.value else EMPTY)))
      && (!Proposes(o) ==> (Extracted(r).None? <==> forall m | 0 <= m < i :: !Offers(steps[m])))
  {
    NewestIs(steps, i, Settles);
    assert Normalized(AgentResult(status, None, steps)) == Settled(AgentResult(status, None, steps), steps[i]);
    if Proposes(steps[i]) {
      KeptIdempotent(if steps[i].pending.Some? then steps[i].pending.value else EMPTY);
    } else {
      forall m | 0 <= m < |steps| && Offers(steps[m]) ensures m < i { OffersSettle(steps[m]); }
    }
  }

  /** Without such a step nothing is pending, and the newest step that is the answer gives the
      status, if it has one. */
  lemma NothingSettles(status: string, steps: seq<Obs>)
    requires forall j | 0 <= j < |steps| :: !Settles(steps[j])
    ensures var r := Normalized(AgentResult(status, None, steps));
      && Extracted(r).None?
      && (forall i | 0 <= i < |steps| && steps[i].shows && forall j | i < j < |steps| :: !steps[j].shows ::
            r.status == if Strip(steps[i].status) != "" then Strip(steps[i].status) else status)
      && ((forall i | 0 <= i < |steps| :: !steps[i].shows) ==> r.status == status)
  {
    forall j | 0 <= j < |steps| && Offers(steps[j]) ensures Settles(steps[j]) { }
    forall j | 0 <= j < |steps| ensures Shows(steps[j]) == steps[j].shows { }
  }
}
