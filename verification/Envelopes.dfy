/** The pending action carried between turns (app/domain/contracts.py) and the observation a CRM
    tool call becomes (app/tools/observation.py). A key that may be missing is an Option; a text
    that is missing or empty is "". */
module Envelopes {
  import opened Wrappers
  import opened Text

  datatype Stamp = Stamp(day: int, hour: nat, minute: nat, second: nat)

  /** A date as the gateway writes it, or any other text and the moment it reads as, if any. */
  datatype DateField = Written(stamp: Stamp) | Foreign(text: string, parsed: Option<Stamp>)

  datatype Fields = Fields(dateStart: DateField, dateEnd: Option<string>, hours: int, minutes: int, description: string,
                           others: map<string, string>)

  datatype Data = Data(fields: Fields, others: map<string, string>)

  const NO_FIELDS := Fields(Foreign("", None), None, 0, 0, "", map[])

  /** The arguments of a tool call. */
  datatype Args = Args(data: Option<Data>, moduleName: string, action: string, others: map<string, string>)

  const NO_ARGS := Args(None, "", "", map[])

  /** Tokens are numbered in the order the CRM issues them; a missing or empty one is None. */
  datatype CallKeys = CallKeys(tool: Option<string>, version: Option<string>, args: Option<Args>, token: Option<nat>,
                               expires: Option<string>)

  const NO_CALL := CallKeys(None, None, None, None, None)

  /** A line of the adjustments: what an edit of the pending action added, with its value, or any
      other text. */
  datatype Note = MovedTo(stamp: Stamp) | LastsNow(hours: int, minutes: int) | DescribedAs(start: string) | Text(text: string)

  datatype Envelope = Envelope(moduleName: string, requested: string, effective: string, action: string, data: Data,
                               adjustments: seq<Note>, ambiguities: seq<string>, requiresConfirmation: bool,
                               call: CallKeys)

  const EMPTY := Envelope("", "", "", "", Data(NO_FIELDS, map[]), [], [], true, NO_CALL)

  function Or(a: string, b: string): string {
    if a != "" then a else b
  }

  predicate NamesTool(k: CallKeys) {
    k.tool.Some? && k.tool.value != ""
  }

  function Build(moduleName: string, action: string, data: Data, requested: string, effective: string,
                 adjustments: seq<Note>, ambiguities: seq<string>, requiresConfirmation: bool, call: CallKeys): Envelope {
    var target := Or(Strip(Or(effective, moduleName)), Strip(moduleName));
    var wanted := Or(Strip(Or(Or(requested, moduleName), target)), target);
    Envelope(target, wanted, target, Lower(Strip(action)), data, adjustments, ambiguities, requiresConfirmation,
             if NamesTool(call) then call else NO_CALL)
  }

  function Normalize(e: Envelope): Option<Envelope> {
    var moduleName := Strip(Or(Or(e.effective, e.moduleName), e.requested));
    var action := Lower(Strip(e.action));
    if moduleName == "" || action == "" then None
    else Some(Build(moduleName, action, e.data, Or(Strip(Or(e.requested, moduleName)), moduleName), moduleName,
                    e.adjustments, e.ambiguities, e.requiresConfirmation, e.call))
  }

  /** What every reader takes: the normalised envelope, or the raw one that cannot be normalised. */
  function Kept(e: Envelope): Envelope {
    match Normalize(e) case Some(n) => n case None => e
  }

  /** Nothing to strip. */
  predicate Trimmed(s: string) {
    s != "" ==> !IsSpace(s[0]) && !IsSpace(s[|s| - 1])
  }

  lemma StripTrims(s: string)
    ensures Trimmed(Strip(s))
  {
    var l := LStrip(s);
    var w := RStripSplit(l);
    assert Strip(s) != "" ==> Strip(s)[0] == l[0];
  }

  lemma TrimmedStays(s: string)
    requires Trimmed(s)
    ensures Strip(s) == s
  {
    assert "" + s + "" == s;
    StripOuter("", s, "");
  }

  lemma LowerStays(s: string)
    ensures Lower(Lower(s)) == Lower(s)
    ensures Trimmed(s) ==> Trimmed(Lower(s))
  {
  }

  /** One module throughout, nothing to strip, and a tool call only with a tool. */
  predicate Normal(e: Envelope) {
    && e.effective == e.moduleName != "" && Trimmed(e.moduleName)
    && e.requested != "" && Trimmed(e.requested)
    && e.action != "" && Trimmed(e.action) && Lower(e.action) == e.action
    && (NamesTool(e.call) || e.call == NO_CALL)
  }

  lemma NormalizeIsNormal(e: Envelope)
    ensures Normalize(e).Some? ==> Normal(Normalize(e).value)
  {
    var moduleName := Strip(Or(Or(e.effective, e.moduleName), e.requested));
    var wanted := Strip(Or(e.requested, moduleName));
    StripTrims(Or(Or(e.effective, e.moduleName), e.requested));
    StripTrims(Or(e.requested, moduleName));
    StripTrims(e.action);
    TrimmedStays(moduleName);
    TrimmedStays(Or(wanted, moduleName));
    LowerStays(Strip(e.action));
    TrimmedStays(Lower(Strip(e.action)));
  }

  lemma NormalStays(e: Envelope)
    requires Normal(e)
    ensures Normalize(e) == Some(e)
  {
    TrimmedStays(e.moduleName);
    TrimmedStays(e.requested);
    TrimmedStays(e.action);
  }

  /** Normalising a normalised envelope changes nothing, so it may be read, stored and read again. */
  lemma NormalizeIdempotent(e: Envelope)
    ensures Normalize(e).Some? ==> Normalize(Normalize(e).value) == Normalize(e)
  {
    NormalizeIsNormal(e);
    if Normalize(e).Some? { NormalStays(Normalize(e).value); }
  }

  /** When an envelope can be normalised, and what is kept: its data, notes, doubts and consent as
      they are; its module is the first that is given, trimmed; the requested one stands in only
      where it is given. */
  lemma NormalizeKeeps(e: Envelope)
    ensures var given := if e.effective != "" then e.effective else if e.moduleName != "" then e.moduleName else e.requested;
      match Normalize(e)
      case None => Strip(given) == "" || Strip(e.action) == ""
      case Some(n) =>
        && Strip(given) != "" && Strip(e.action) != ""
        && n.moduleName == n.effective == Strip(given) && n.action == Lower(Strip(e.action))
        && n.requested == (if Strip(e.requested) != "" then Strip(e.requested) else Strip(given))
        && n.data == e.data && n.adjustments == e.adjustments && n.ambiguities == e.ambiguities
        && n.requiresConfirmation == e.requiresConfirmation
        && n.call == if e.call.tool.Some? && e.call.tool.value != "" then e.call else NO_CALL
  {
    var moduleName := Strip(Or(Or(e.effective, e.moduleName), e.requested));
    StripTrims(Or(Or(e.effective, e.moduleName), e.requested));
    TrimmedStays(moduleName);
    StripTrims(Or(e.requested, moduleName));
    TrimmedStays(Or(Strip(Or(e.requested, moduleName)), moduleName));
    StripTrims(e.action);
    LowerStays(Strip(e.action));
    TrimmedStays(Lower(Strip(e.action)));
    assert Strip("") == "";
  }

  lemma KeptIdempotent(e: Envelope)
    ensures Kept(Kept(e)) == Kept(e)
  {
    NormalizeIdempotent(e);
  }

  /** The tool call passes through whole, or not at all when it names no tool. */
  lemma KeptCall(e: Envelope)
    ensures NamesTool(e.call) ==> Kept(e).call == e.call
    ensures Kept(e).call == e.call || Kept(e).call == NO_CALL
  {
  }

  lemma KeptKeeps(e: Envelope)
    ensures Kept(e).data == e.data && Kept(e).adjustments == e.adjustments
    ensures Kept(e).requiresConfirmation == e.requiresConfirmation
  {
    NormalizeKeeps(e);
  }

  // ---------------------------------------------------------------- observations

  datatype Spec = Spec(name: string, version: string, readOnly: bool, capability: string)

  /** The structured content of a CRM answer, as far as it matters here. */
  datatype Structured = Structured(status: Option<string>, moduleName: string, action: string, adjustments: seq<Note>,
                                   ambiguities: seq<string>, pending: Option<Envelope>, cards: bool)

  datatype Confirmation = Confirmation(token: Option<nat>, args: Option<Args>, expires: Option<string>)

  /** What `ToolCallResult` holds: an error, or an answer that may demand a confirmation. */
  datatype Result =
    | Failed(code: string)
    | Answered(structured: Structured, version: string, confirmation: Option<Confirmation>)

  /** Native tools whose result is the answer. */
  const RESULT_TOOLS := {"crm_query_tool", "my_meetings_tool", "crm_record_detail_tool", "propose_form_fields_tool",
                         "research_record_tool", "product_lookup_tool", "daily_briefing_tool"}

  /** The observation the agent, the pipeline and the chat log see; `shows` when it is the answer: it
      holds something, and cards or a tool of `RESULT_TOOLS`. */
  datatype Obs = Obs(status: string, pending: Option<Envelope>, shows: bool)

  function ErrorStatus(code: string): string {
    if code == "invalid_arguments" then "tool_validation_error"
    else if code == "unavailable" then "crm_unavailable"
    else if code == "access_denied" then "access_denied"
    else if code == "not_found" then "not_found"
    else "error"
  }

  function DataOf(args: Args): Data {
    match args.data case Some(d) => d case None => Data(NO_FIELDS, args.others)
  }

  /** The arguments a confirmation is about. */
  function Confirmed(c: Confirmation, args: Args): Args {
    match c.args case Some(a) => a case None => args
  }

  function PendingFor(spec: Spec, args: Args, s: Structured, version: string, c: Confirmation): Envelope {
    var a := Confirmed(c, args);
    Build(Or(s.moduleName, a.moduleName), Or(Or(s.action, a.action), "execute"), DataOf(a), "", "", s.adjustments,
          s.ambiguities, true, CallKeys(Some(spec.name), Some(Or(version, spec.version)), Some(a), c.token, c.expires))
  }

  function ToObservation(spec: Spec, args: Args, r: Result): Obs {
    match r
    case Failed(code) => Obs(ErrorStatus(code), None, spec.name in RESULT_TOOLS)
    case Answered(s, version, Some(c)) =>
      Obs("confirmation_required", Some(PendingFor(spec, args, s, version, c)), spec.name in RESULT_TOOLS)
    case Answered(s, _, None) =>
      Obs(match s.status case Some(t) => t case None => "ok", s.pending, spec.name in RESULT_TOOLS || s.cards)
  }
}
