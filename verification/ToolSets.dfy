/** The tools of one turn (app/tools/toolset.py) and what their use leaves on the wire. The CRM
    decides every answer; it numbers the tokens it issues and binds each to the arguments it names. */
module ToolSets {
  import opened Wrappers
  import opened Envelopes
  import CrmProvider

  // ---------------------------------------------------------------- the wire

  datatype Mode = Preview | Execute

  /** Who asked: the model, a confirmation, or the preview after an edit. */
  datatype Origin = Agent | Confirm | Repreview

  /** One provider call: `sends` transport calls, in a turn that was stored or aborted. */
  datatype Record = Record(tool: string, readOnly: bool, mode: Mode, args: Args, token: Option<nat>, sends: nat,
                           origin: Origin, stored: bool)

  /** Token `i` was issued for the arguments `issued[i]`. */
  datatype Crm = Crm(issued: seq<Args>, wire: seq<Record>)

  datatype Demand = Demand(withToken: bool, args: Option<Args>, expires: Option<string>)

  /** How a provider call goes, and what the CRM's response holds, before tokens are numbered, if
      one arrives that can be decoded. */
  datatype Answer = Answer(course: CrmProvider.Course, body: Response)
  datatype Response = Error(code: string) | Reply(structured: Structured, version: string, demand: Option<Demand>)

  /** What the caller gets: the response, or the provider's own error. A call that was cut off
      gives nothing to a turn that goes on; it is an error here. */
  function Delivered(readOnly: bool, a: Answer): Response {
    match CrmProvider.Tells(readOnly, a.course)
    case Ok => a.body
    case NotFound => Error("not_found")
    case AccessDenied => Error("access_denied")
    case Internal => Error("internal")
    case Unavailable => Error("unavailable")
    case Unsure => Error("unavailable")
    case Interrupted => Error("cancelled")
    case Suspended => Error("cancelled")
  }

  /** What a call leaves on the wire. */
  function Recorded(spec: Spec, args: Args, mode: Mode, token: Option<nat>, a: Answer, origin: Origin, stored: bool)
    : Record
  {
    Record(spec.name, spec.readOnly, mode, args, token, CrmProvider.Sends(spec.readOnly, a.course), origin, stored)
  }

  function Call(crm: Crm, spec: Spec, args: Args, mode: Mode, token: Option<nat>, a: Answer, origin: Origin,
                stored: bool)
    : (Crm, Result)
  {
    var wire := crm.wire + [Recorded(spec, args, mode, token, a, origin, stored)];
    match Delivered(spec.readOnly, a)
    case Error(code) => (Crm(crm.issued, wire), Failed(code))
    case Reply(s, version, None) => (Crm(crm.issued, wire), Answered(s, version, None))
    case Reply(s, version, Some(d)) =>
      if d.withToken then
        var c := Confirmation(Some(|crm.issued|), d.args, d.expires);
        (Crm(crm.issued + [Confirmed(c, args)], wire), Answered(s, version, Some(c)))
      else (Crm(crm.issued, wire), Answered(s, version, Some(Confirmation(None, d.args, d.expires))))
  }

  // ---------------------------------------------------------------- building the set

  datatype ToolSet = ToolSet(crm: map<string, Spec>, natives: set<string>, manifest: seq<Spec>)

  /** `taken` are the names of the native tools and the names reserved for them. */
  predicate Offered(s: Spec, taken: set<string>, enabled: set<string>) {
    s.name !in taken && s.capability in enabled
  }

  /** The CRM tools offered to the model: later tools of the manifest win over earlier ones. */
  function CrmTools(manifest: seq<Spec>, taken: set<string>, enabled: set<string>): map<string, Spec> {
    if manifest == [] then map[]
    else
      var m, last := CrmTools(manifest[..|manifest| - 1], taken, enabled), manifest[|manifest| - 1];
      if Offered(last, taken, enabled) then m[last.name := last] else m
  }

  /** `ToolSet.build` once the manifest is there. */
  method BuildSet(manifest: seq<Spec>, natives: set<string>, reserved: set<string>, enabled: set<string>)
    returns (t: ToolSet, dropped: seq<string>)
    ensures t == ToolSet(CrmTools(manifest, natives + reserved, enabled), natives, manifest)
    ensures forall name :: name in dropped <==> name in natives + reserved && exists i :: 0 <= i < |manifest| && manifest[i].name == name
  {
    var crm: map<string, Spec> := map[];
    dropped := [];
    assert manifest[..|manifest|] == manifest;
    for i := 0 to |manifest|
      invariant crm == CrmTools(manifest[..i], natives + reserved, enabled)
      invariant forall name :: name in dropped <==> name in natives + reserved && exists j :: 0 <= j < i && manifest[j].name == name
    {
      var spec := manifest[i];
      assert manifest[..i + 1][..i] == manifest[..i];
      if spec.name in natives || spec.name in reserved {
        dropped := dropped + [spec.name];
        continue;
      }
      if spec.capability in enabled { crm := crm[spec.name := spec]; }
    }
    t := ToolSet(crm, natives, manifest);
  }

  /** No CRM tool takes the place of one of the gateway's own, whatever the manifest says, and each
      is published under its own name and belongs to an enabled capability. */
  lemma {:induction false} NativesAreSafe(manifest: seq<Spec>, taken: set<string>, enabled: set<string>, name: string)
    ensures var m := CrmTools(manifest, taken, enabled);
      name in m ==> name !in taken && m[name] in manifest && m[name].name == name && m[name].capability in enabled
  {
    if manifest != [] { NativesAreSafe(manifest[..|manifest| - 1], taken, enabled, name); }
  }

  predicate EnabledLast(manifest: seq<Spec>, enabled: set<string>, name: string, spec: Spec, i: nat) {
    && i < |manifest| && manifest[i] == spec && spec.name == name && spec.capability in enabled
    && forall j | i < j < |manifest| :: manifest[j].name != name || manifest[j].capability !in enabled
  }

  /** What is offered under a name that is not taken: the last tool of the manifest that has it and
      whose capability is enabled. */
  lemma {:induction false} OfferedIff(manifest: seq<Spec>, taken: set<string>, enabled: set<string>, name: string, spec: Spec)
    requires name !in taken
    ensures var m := CrmTools(manifest, taken, enabled);
      name in m && m[name] == spec <==> exists i: nat :: EnabledLast(manifest, enabled, name, spec, i)
  {
    if manifest != [] {
      var rest, last := manifest[..|manifest| - 1], manifest[|manifest| - 1];
      OfferedIff(rest, taken, enabled, name, spec);
      if last.name == name && last.capability in enabled {
        if last == spec { assert EnabledLast(manifest, enabled, name, spec, |rest|); }
      } else {
        forall i: nat ensures EnabledLast(manifest, enabled, name, spec, i) == EnabledLast(rest, enabled, name, spec, i) {
          EnabledLastEarlier(rest, last, enabled, name, spec, i);
          assert rest + [last] == manifest;
        }
      }
    }
  }

  lemma EnabledLastEarlier(rest: seq<Spec>, last: Spec, enabled: set<string>, name: string, spec: Spec, i: nat)
    requires last.name != name || last.capability !in enabled
    ensures EnabledLast(rest + [last], enabled, name, spec, i) <==> EnabledLast(rest, enabled, name, spec, i)
  {
    var more := rest + [last];
    if EnabledLast(more, enabled, name, spec, i) {
      forall j | i < j < |rest| ensures rest[j].name != name || rest[j].capability !in enabled { assert more[j] == rest[j]; }
    }
  }

  function FirstNamed(manifest: seq<Spec>, name: string): Option<Spec> {
    if manifest == [] then None
    else if manifest[0].name == name then Some(manifest[0])
    else FirstNamed(manifest[1..], name)
  }

  function PendingName(p: Envelope): string {
    match p.call.tool case Some(n) => n case None => ""
  }

  function PendingSpec(t: ToolSet, p: Envelope): Option<Spec> {
    if PendingName(p) in t.crm then Some(t.crm[PendingName(p)]) else FirstNamed(t.manifest, PendingName(p))
  }

  /** The tool a name stands for: the one offered, else the first of the manifest that has it. */
  predicate StandsFor(t: ToolSet, name: string, spec: Spec) {
    if name in t.crm then spec == t.crm[name]
    else exists i :: 0 <= i < |t.manifest| && t.manifest[i] == spec && spec.name == name
                     && forall j | 0 <= j < i :: t.manifest[j].name != name
  }

  lemma {:induction false} FirstNamedIs(manifest: seq<Spec>, name: string)
    ensures match FirstNamed(manifest, name)
      case None => forall i | 0 <= i < |manifest| :: manifest[i].name != name
      case Some(s) => exists i :: 0 <= i < |manifest| && manifest[i] == s && s.name == name
                                  && forall j | 0 <= j < i :: manifest[j].name != name
  {
    if manifest != [] && manifest[0].name != name {
      FirstNamedIs(manifest[1..], name);
      match FirstNamed(manifest, name) {
        case None =>
          forall i | 0 <= i < |manifest| ensures manifest[i].name != name {
            if i > 0 { assert manifest[i] == manifest[1..][i - 1]; }
          }
        case Some(s) =>
          var k :| 0 <= k < |manifest| - 1 && manifest[1..][k] == s && forall j | 0 <= j < k :: manifest[1..][j].name != name;
          forall j | 0 <= j < k + 1 ensures manifest[j].name != name {
            if j > 0 { assert manifest[j] == manifest[1..][j - 1]; }
          }
          assert manifest[k + 1] == s;
      }
    }
  }

  /** A confirmation or an edit reaches exactly the tool the name stands for. */
  lemma PendingSpecIff(t: ToolSet, p: Envelope, name: string, spec: Spec)
    requires p.call.tool == Some(name)
    ensures PendingSpec(t, p) == Some(spec) <==> StandsFor(t, name, spec)
  {
    FirstNamedIs(t.manifest, name);
  }

  // ---------------------------------------------------------------- the agent's surface

  /** One use of a CRM tool: its arguments after validation, None when they are invalid; what an
      interceptor made of it instead, if any; and the CRM's answer. */
  datatype Use = Use(name: string, args: Option<Args>, redirect: Option<Obs>, answer: Answer)

  function ModeOf(spec: Spec): Mode {
    if spec.readOnly then Execute else Preview
  }

  function InvokeCrm(crm: Crm, spec: Spec, u: Use, stored: bool): (Crm, Obs) {
    match u.args
    case None => (crm, Obs("tool_validation_error", None, spec.name in RESULT_TOOLS))
    case Some(args) =>
      if u.redirect.Some? then (crm, u.redirect.value)
      else
        var r := Call(crm, spec, args, ModeOf(spec), None, u.answer, Agent, stored);
        (r.0, ToObservation(spec, args, r.1))
  }

  /** What a tool call of the model amounts to: its own use of a CRM tool, or the uses a native
      tool makes of the set before it returns an observation of its own. */
  datatype Action = Action(use: Use, nested: seq<Use>, own: Obs)

  function Nested(crm: Crm, t: ToolSet, uses: seq<Use>, stored: bool): Crm {
    if uses == [] then crm
    else
      var c, u := Nested(crm, t, uses[..|uses| - 1], stored), uses[|uses| - 1];
      if u.name in t.crm then InvokeCrm(c, t.crm[u.name], u, stored).0 else c
  }

  /** The agent itself answers for a tool that is not in the set, without a status. */
  function Invoke(crm: Crm, t: ToolSet, a: Action, stored: bool): (Crm, Obs) {
    if a.use.name in t.crm then InvokeCrm(crm, t.crm[a.use.name], a.use, stored)
    else if a.use.name !in t.natives then (crm, Obs("", None, a.use.name in RESULT_TOOLS))
    else (Nested(crm, t, a.nested, stored), a.own)
  }

  predicate Stops(o: Obs) {
    o.status == "confirmation_required" || o.status == "contact_proposals"
  }

  /** The agent's tool calls in order, none after one that stops the loop. */
  function Steps(crm: Crm, t: ToolSet, actions: seq<Action>, stored: bool): (Crm, seq<Obs>) {
    if actions == [] then (crm, [])
    else
      var before := Steps(crm, t, actions[..|actions| - 1], stored);
      if before.1 != [] && Stops(before.1[|before.1| - 1]) then before
      else
        var r := Invoke(before.0, t, actions[|actions| - 1], stored);
        (r.0, before.1 + [r.1])
  }

  /** No tool is used after a proposal: only the last observation can be one. */
  lemma {:induction false} NothingAfterAStop(crm: Crm, t: ToolSet, actions: seq<Action>, stored: bool)
    ensures var steps := Steps(crm, t, actions, stored).1;
      && |steps| <= |actions|
      && (forall i | 0 <= i < |steps| - 1 :: !Stops(steps[i]))
      && (|steps| < |actions| ==> steps != [] && Stops(steps[|steps| - 1]))
  {
    if actions != [] { NothingAfterAStop(crm, t, actions[..|actions| - 1], stored); }
  }

  /** A use with invalid arguments, or one an interceptor answers, does not reach the CRM, and one of
      a tool that is neither offered nor native reaches nothing. */
  lemma NotOnTheWire(crm: Crm, t: ToolSet, a: Action, stored: bool)
    ensures a.use.name in t.crm && a.use.args.None? ==>
      Invoke(crm, t, a, stored).0 == crm && Invoke(crm, t, a, stored).1.status == "tool_validation_error"
    ensures a.use.name in t.crm && a.use.args.Some? && a.use.redirect.Some? ==>
      Invoke(crm, t, a, stored) == (crm, a.use.redirect.value)
    ensures a.use.name !in t.crm && a.use.name !in t.natives ==>
      Invoke(crm, t, a, stored).0 == crm && Invoke(crm, t, a, stored).1.pending.None?
  {
  }

  // ---------------------------------------------------------------- confirmation

  /** The arguments an envelope holds. */
  function Held(p: Envelope): Args {
    match p.call.args case Some(a) => a case None => NO_ARGS
  }

  function ExecutePending(crm: Crm, t: ToolSet, p: Envelope, a: Answer, stored: bool): (Crm, Obs) {
    match PendingSpec(t, p)
    case None => (crm, Obs("error", None, PendingName(p) in RESULT_TOOLS))
    case Some(spec) =>
      var args := Held(p);
      var r := Call(crm, spec, args, Execute, p.call.token, a, Confirm, stored);
      (r.0, ToObservation(spec, args, r.1))
  }

  function RepreviewPending(crm: Crm, t: ToolSet, p: Envelope, data: Data, a: Answer, stored: bool): (Crm, Obs) {
    match PendingSpec(t, p)
    case None => (crm, Obs("error", None, PendingName(p) in RESULT_TOOLS))
    case Some(spec) =>
      var args := Held(p).(data := Some(data));
      var r := Call(crm, spec, args, Preview, None, a, Repreview, stored);
      (r.0, ToObservation(spec, args, r.1))
  }
}
