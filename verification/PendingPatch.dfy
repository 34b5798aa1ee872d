/** Edits of a pending action made without the model (app/engine/pending_patch.py). What the
    regular expressions find in the user's text is the `Edit`. */
module PendingPatch {
  import opened Wrappers
  import opened Text
  import opened Envelopes

  datatype PartOfDay = PoPoledni | Odpoledne | Rano

  /** What was recognised in the text: a time of day, a part of the day, hours and minutes of a
      duration, and what follows the word for "description". */
  datatype Edit = Edit(confirmationOnly: bool, looksLikeEdit: bool, time: Option<(nat, nat)>, part: Option<PartOfDay>,
                       hours: Option<nat>, minutes: Option<nat>, description: Option<string>)

  const DATETIME_NOTE := "Patched pending datetime"
  const DURATION_NOTE := "Patched pending duration"

  function AtMost(n: nat, limit: nat): nat {
    if n <= limit then n else limit
  }

  function ReadAs(d: DateField): Option<Stamp> {
    match d case Written(s) => Some(s) case Foreign(_, parsed) => parsed
  }

  /** The time the edit asks for, on the day the action is already planned for. */
  function NewStart(e: Edit, start: DateField, now: Stamp): Option<Stamp> {
    var anchor := match ReadAs(start) case Some(s) => s case None => now;
    if e.time.Some? then Some(Stamp(anchor.day, AtMost(e.time.value.0, 23), AtMost(e.time.value.1, 59), 0))
    else
      match e.part
      case Some(PoPoledni) => Some(Stamp(anchor.day, 13, 0, 0))
      case Some(Odpoledne) => Some(Stamp(anchor.day, 14, 0, 0))
      case Some(Rano) => Some(Stamp(anchor.day, 8, 0, 0))
      case None => None
  }

  function NewDuration(e: Edit): Option<(int, int)> {
    if e.hours.Some? then Some((AtMost(e.hours.value, 12), 0))
    else if e.minutes.Some? then Some((0, AtMost(e.minutes.value, 59)))
    else None
  }

  /** `rstrip(".")`. */
  function DropDots(s: string): (r: string)
    ensures |r| <= |s| && r == s[..|r|]
    ensures (r == "" || r[|r| - 1] != '.') && forall i | |r| <= i < |s| :: s[i] == '.'
  {
    if s == "" || s[|s| - 1] != '.' then s else DropDots(s[..|s| - 1])
  }

  function NewDescription(e: Edit): string {
    match e.description case Some(d) => DropDots(Strip(d)) case None => ""
  }

  /** The start of a description that its note keeps. */
  function Shortened(s: string): string {
    s[..AtMost(|s|, 60)]
  }

  predicate MovesStart(e: Edit, f: Fields, now: Stamp) {
    NewStart(e, f.dateStart, now).Some? && f.dateStart != Written(NewStart(e, f.dateStart, now).value)
  }

  predicate MovesDuration(e: Edit, f: Fields) {
    NewDuration(e).Some? && (f.hours, f.minutes) != NewDuration(e).value
  }

  predicate MovesDescription(e: Edit, f: Fields) {
    NewDescription(e) != "" && NewDescription(e) != Strip(f.description)
  }

  predicate Timed(moduleName: string) {
    Lower(moduleName) == "meetings" || Lower(moduleName) == "calls"
  }

  predicate Editable(action: string) {
    action == "create" || action == "update" || action == "patch" || action == "delete"
  }

  /** The note, as text, starts like one about a new start or a new duration. */
  predicate AboutTime(n: Note) {
    match n
    case MovedTo(_) => true
    case LastsNow(_, _) => true
    case DescribedAs(_) => false
    case Text(t) => StartsWith(t, DATETIME_NOTE) || StartsWith(t, DURATION_NOTE)
  }

  predicate TimeNote(notes: seq<Note>) {
    exists i :: 0 <= i < |notes| && AboutTime(notes[i])
  }

  predicate Changes(timed: bool, e: Edit, f: Fields, now: Stamp) {
    (timed && (MovesStart(e, f, now) || MovesDuration(e, f))) || MovesDescription(e, f)
  }

  function NewNotes(timed: bool, e: Edit, f: Fields, now: Stamp, notes: seq<Note>): seq<Note> {
    notes
    + (if timed && MovesStart(e, f, now) then [MovedTo(NewStart(e, f.dateStart, now).value)] else [])
    + (if timed && MovesDuration(e, f) then [LastsNow(NewDuration(e).value.0, NewDuration(e).value.1)] else [])
    + if MovesDescription(e, f) then [DescribedAs(Shortened(NewDescription(e)))] else []
  }

  function NewFields(timed: bool, e: Edit, f: Fields, now: Stamp, notes: seq<Note>): Fields {
    Fields(
      if timed && MovesStart(e, f, now) then Written(NewStart(e, f.dateStart, now).value) else f.dateStart,
      if timed && TimeNote(NewNotes(timed, e, f, now, notes)) then None else f.dateEnd,
      if timed && MovesDuration(e, f) then NewDuration(e).value.0 else f.hours,
      if timed && MovesDuration(e, f) then NewDuration(e).value.1 else f.minutes,
      if MovesDescription(e, f) then NewDescription(e) else f.description,
      f.others)
  }

  /** The envelope built anew around edited data, without its tool call. */
  function Rebuilt(p: Envelope, fields: Fields, notes: seq<Note>): Envelope {
    Build(p.moduleName, p.action, p.data.(fields := fields), Or(Strip(Or(p.requested, p.moduleName)), p.moduleName),
          p.moduleName, notes, p.ambiguities, true, NO_CALL)
  }

  lemma RebuiltIsNormal(p: Envelope, fields: Fields, notes: seq<Note>)
    requires Normal(p)
    ensures var q := Rebuilt(p, fields, notes);
      && Normal(q)
      && q == p.(data := p.data.(fields := fields), adjustments := notes, requiresConfirmation := true, call := NO_CALL)
  {
    TrimmedStays(p.moduleName);
    TrimmedStays(p.requested);
    TrimmedStays(p.action);
  }

  /** The edited envelope; None when the text is no edit of it or changes nothing. */
  function Patch(raw: Envelope, e: Edit, now: Stamp): Option<Envelope> {
    match Normalize(raw)
    case None => None
    case Some(p) => PatchNormal(p, e, now)
  }

  function PatchNormal(p: Envelope, e: Edit, now: Stamp): Option<Envelope> {
    var timed, f := Timed(p.moduleName), p.data.fields;
    if !Editable(p.action) || !p.requiresConfirmation || e.confirmationOnly || !e.looksLikeEdit then None
    else if !Changes(timed, e, f, now) then None
    else Some(Rebuilt(p, NewFields(timed, e, f, now, p.adjustments), NewNotes(timed, e, f, now, p.adjustments)))
  }

  /** The field-by-field edit with its `changed` flag. */
  method PatchFields(timed: bool, original: Fields, adjustments: seq<Note>, e: Edit, now: Stamp)
    returns (fields: Fields, notes: seq<Note>, changed: bool)
    ensures changed == Changes(timed, e, original, now)
    ensures notes == NewNotes(timed, e, original, now, adjustments)
    ensures fields == (if changed then NewFields(timed, e, original, now, adjustments) else original)
  {
    fields, notes, changed := original, adjustments, false;
    if timed {
      var start := NewStart(e, fields.dateStart, now);
      if start.Some? && Written(start.value) != fields.dateStart {
        fields := fields.(dateStart := Written(start.value));
        changed := true;
        notes := notes + [MovedTo(start.value)];
      }
      var duration := NewDuration(e);
      if duration.Some? && (fields.hours != duration.value.0 || fields.minutes != duration.value.1) {
        fields := fields.(hours := duration.value.0, minutes := duration.value.1);
        changed := true;
        notes := notes + [LastsNow(duration.value.0, duration.value.1)];
      }
    }
    var description := NewDescription(e);
    if description != "" && description != Strip(fields.description) {
      fields := fields.(description := description);
      changed := true;
      notes := notes + [DescribedAs(Shortened(description))];
    }
    if changed && timed && TimeNote(notes) {
      fields := fields.(dateEnd := None);
    }
  }

  /** `try_patch_pending_action`, up to its messages. */
  method TryPatch(pendingAction: Envelope, e: Edit, now: Stamp) returns (patched: Option<Envelope>)
    ensures patched == Patch(pendingAction, e, now)
  {
    var normalized := Normalize(pendingAction);
    if normalized.None? { return None; }
    var pending := normalized.value;
    if !Editable(pending.action) || !pending.requiresConfirmation { return None; }
    if e.confirmationOnly { return None; }
    if !e.looksLikeEdit { return None; }
    var fields, notes, changed := PatchFields(Timed(pending.moduleName), pending.data.fields, pending.adjustments, e, now);
    if !changed { return None; }
    patched := Some(Rebuilt(pending, fields, notes));
  }

  lemma TimeNoteAdded(timed: bool, e: Edit, f: Fields, now: Stamp, notes: seq<Note>)
    requires timed && (MovesStart(e, f, now) || MovesDuration(e, f))
    ensures TimeNote(NewNotes(timed, e, f, now, notes))
  {
    var all := NewNotes(timed, e, f, now, notes);
    assert AboutTime(all[|notes|]);
  }

  /** An edited envelope keeps module, action and everything the text does not name, asks for
      confirmation, and carries no tool call and so no token: only a new preview can add one. A
      moved or resized meeting or call loses its derived end. */
  lemma EditHasNoToken(raw: Envelope, e: Edit, now: Stamp)
    ensures Patch(raw, e, now).Some? ==>
      var p, q := Normalize(raw).value, Patch(raw, e, now).value;
      var f, g := p.data.fields, q.data.fields;
      && q.call == NO_CALL && q.requiresConfirmation && Kept(q) == q
      && q.moduleName == p.moduleName && q.action == p.action
      && q.data.others == p.data.others && g.others == f.others
      && (g.description == f.description || g.description == NewDescription(e))
      && (g.dateStart == f.dateStart || (Timed(p.moduleName) && NewStart(e, f.dateStart, now) == ReadAs(g.dateStart)))
      && ((g.hours, g.minutes) == (f.hours, f.minutes) || (Timed(p.moduleName) && NewDuration(e) == Some((g.hours, g.minutes))))
      && ((g.dateStart, g.hours, g.minutes) != (f.dateStart, f.hours, f.minutes) ==> g.dateEnd.None?)
      && (g.dateEnd == f.dateEnd || g.dateEnd.None?)
  {
    if Patch(raw, e, now).Some? {
      var p := Normalize(raw).value;
      NormalizeIsNormal(raw);
      var f, timed := p.data.fields, Timed(p.moduleName);
      RebuiltIsNormal(p, NewFields(timed, e, f, now, p.adjustments), NewNotes(timed, e, f, now, p.adjustments));
      NormalStays(Patch(raw, e, now).value);
      if timed && (MovesStart(e, f, now) || MovesDuration(e, f)) { TimeNoteAdded(timed, e, f, now, p.adjustments); }
    }
  }

  /** The description the user dictates: trimmed, then without final dots. */
  predicate Dictated(e: Edit, text: string) {
    match e.description
    case None => text == ""
    case Some(d) =>
      && text <= Strip(d) && (text == "" || text[|text| - 1] != '.')
      && forall i | |text| <= i < |Strip(d)| :: Strip(d)[i] == '.'
  }

  lemma FinalDots(s: string, a: nat, b: nat)
    requires a <= |s| && (a == 0 || s[a - 1] != '.') && forall i | a <= i < |s| :: s[i] == '.'
    requires b <= |s| && (b == 0 || s[b - 1] != '.') && forall i | b <= i < |s| :: s[i] == '.'
    ensures a == b
  {
  }

  lemma DictatedIs(e: Edit, text: string)
    requires Dictated(e, text)
    ensures text == NewDescription(e)
  {
    if e.description.Some? {
      FinalDots(Strip(e.description.value), |text|, |NewDescription(e)|);
    }
  }

  /** What the user's text asks for: a time, at most 23:59, or else one in the afternoon, two or eight
      for the parts of the day, on the day already planned, or today; a duration of at most twelve
      hours or else of at most 59 minutes, never both; and what is dictated. Only a meeting or a
      call has times. */
  datatype Wish = Wish(start: DateField, hours: int, minutes: int, description: string)

  function Wanted(timed: bool, e: Edit, f: Fields, now: Stamp, text: string): Wish {
    var day :=
      match f.dateStart
      case Written(s) => s.day
      case Foreign(_, Some(s)) => s.day
      case Foreign(_, None) => now.day;
    var start :=
      match (e.time, e.part)
      case (Some((h, m)), _) => Some(Stamp(day, if h > 23 then 23 else h, if m > 59 then 59 else m, 0))
      case (None, Some(PoPoledni)) => Some(Stamp(day, 13, 0, 0))
      case (None, Some(Odpoledne)) => Some(Stamp(day, 14, 0, 0))
      case (None, Some(Rano)) => Some(Stamp(day, 8, 0, 0))
      case (None, None) => None;
    var lasts :=
      match (e.hours, e.minutes)
      case (Some(h), _) => (if h > 12 then 12 else h, 0)
      case (None, Some(m)) => (0, if m > 59 then 59 else m)
      case (None, None) => (f.hours, f.minutes);
    Wish(if timed && start.Some? then Written(start.value) else f.dateStart,
         if timed then lasts.0 else f.hours, if timed then lasts.1 else f.minutes,
         if text != "" && text != Strip(f.description) then text else f.description)
  }

  lemma WishMoves(timed: bool, e: Edit, f: Fields, now: Stamp, text: string)
    requires text == NewDescription(e)
    ensures var x := Wanted(timed, e, f, now, text);
      && (timed && MovesStart(e, f, now) <==> x.start != f.dateStart)
      && (timed && MovesDuration(e, f) <==> (x.hours, x.minutes) != (f.hours, f.minutes))
      && (MovesDescription(e, f) <==> text != "" && text != Strip(f.description))
      && forall notes :: var g := NewFields(timed, e, f, now, notes);
           (g.dateStart, g.hours, g.minutes, g.description) == (x.start, x.hours, x.minutes, x.description)
  {
  }

  lemma WishIsNoted(timed: bool, e: Edit, f: Fields, now: Stamp, text: string, notes: seq<Note>)
    requires text == NewDescription(e)
    ensures var x := Wanted(timed, e, f, now, text);
      && (x.start != f.dateStart ==> x.start.Written?)
      && NewNotes(timed, e, f, now, notes) == notes
           + (if x.start != f.dateStart then [MovedTo(x.start.stamp)] else [])
           + (if (x.hours, x.minutes) != (f.hours, f.minutes) then [LastsNow(x.hours, x.minutes)] else [])
           + (if text != "" && text != Strip(f.description) then [DescribedAs(if |text| > 60 then text[..60] else text)] else [])
  {
    assert |text| <= 60 ==> text[..|text|] == text;
    WishMoves(timed, e, f, now, text);
  }

  lemma EndGoes(timed: bool, e: Edit, f: Fields, now: Stamp, notes: seq<Note>)
    ensures TimeNote(NewNotes(timed, e, f, now, notes)) <==>
      (timed && (MovesStart(e, f, now) || MovesDuration(e, f))) || TimeNote(notes)
  {
    var all := NewNotes(timed, e, f, now, notes);
    if timed && (MovesStart(e, f, now) || MovesDuration(e, f)) { TimeNoteAdded(timed, e, f, now, notes); }
    if TimeNote(notes) {
      var i :| 0 <= i < |notes| && AboutTime(notes[i]);
      assert all[i] == notes[i];
    }
    if TimeNote(all) {
      var i :| 0 <= i < |all| && AboutTime(all[i]);
      assert all[i] == if i < |notes| then notes[i] else all[i];
    }
  }

  lemma WishIsPatched(p: Envelope, e: Edit, now: Stamp, text: string)
    requires Normal(p) && text == NewDescription(e)
    ensures var timed, f := Timed(p.moduleName), p.data.fields;
      var x, r := Wanted(timed, e, f, now, text), PatchNormal(p, e, now);
      && (r.Some? <==> Editable(p.action) && p.requiresConfirmation && !e.confirmationOnly && e.looksLikeEdit
                       && (x.start != f.dateStart || (x.hours, x.minutes) != (f.hours, f.minutes)
                           || (text != "" && text != Strip(f.description))))
      && (r.Some? ==>
            && r.value == p.(data := p.data.(fields := r.value.data.fields), adjustments := r.value.adjustments,
                             requiresConfirmation := true, call := NO_CALL)
            && r.value.data.fields == NewFields(timed, e, f, now, p.adjustments)
            && r.value.adjustments == NewNotes(timed, e, f, now, p.adjustments))
  {
    var timed, f := Timed(p.moduleName), p.data.fields;
    RebuiltIsNormal(p, NewFields(timed, e, f, now, p.adjustments), NewNotes(timed, e, f, now, p.adjustments));
    WishMoves(timed, e, f, now, text);
  }

  /** Exactly the wish is carried out: an editable action gets it, if it differs from what is there,
      and nothing else; each change is noted, the start of a description only; the end goes with a change of the times, this one or one noted earlier. */
  lemma EditIs(raw: Envelope, e: Edit, now: Stamp, text: string)
    requires Normalize(raw).Some? && Dictated(e, text)
    ensures var p := Normalize(raw).value; var f := p.data.fields;
      var timed := Lower(p.moduleName) == "meetings" || Lower(p.moduleName) == "calls";
      var x := Wanted(timed, e, f, now, text);
      var moved := x.start != f.dateStart; var resized := (x.hours, x.minutes) != (f.hours, f.minutes);
      var described := text != "" && text != Strip(f.description);
      && (Patch(raw, e, now).Some? <==>
            && (p.action == "create" || p.action == "update" || p.action == "patch" || p.action == "delete")
            && p.requiresConfirmation && !e.confirmationOnly && e.looksLikeEdit
            && (moved || resized || described))
      && (Patch(raw, e, now).Some? ==>
            var q := Patch(raw, e, now).value; var g := q.data.fields;
            && g == Fields(x.start, if moved || resized || (timed && TimeNote(p.adjustments)) then None else f.dateEnd,
                           x.hours, x.minutes, x.description, f.others)
            && q == p.(data := p.data.(fields := g), adjustments := q.adjustments, requiresConfirmation := true, call := NO_CALL)
            && q.adjustments == p.adjustments
                 + (if moved then [MovedTo(g.dateStart.stamp)] else [])
                 + (if resized then [LastsNow(g.hours, g.minutes)] else [])
                 + (if described then [DescribedAs(if |text| > 60 then text[..60] else text)] else []))
  {
    DictatedIs(e, text);
    var p := Normalize(raw).value;
    NormalizeIsNormal(raw);
    WishIsPatched(p, e, now, text);
    WishMoves(Timed(p.moduleName), e, p.data.fields, now, text);
    WishIsNoted(Timed(p.moduleName), e, p.data.fields, now, text, p.adjustments);
    EndGoes(Timed(p.moduleName), e, p.data.fields, now, p.adjustments);
  }

  /** Edited fields are what the edit asks for, except for a description that is not trimmed. */
  lemma FieldsTwice(timed: bool, e: Edit, f: Fields, now: Stamp, later: Stamp, notes: seq<Note>)
    ensures var g := NewFields(timed, e, f, now, notes);
      Changes(timed, e, g, later) <==> Strip(NewDescription(e)) != NewDescription(e)
  {
    var g := NewFields(timed, e, f, now, notes);
    StripTrims(f.description);
    TrimmedStays(Strip(f.description));
    assert timed ==> !MovesStart(e, g, later) && !MovesDuration(e, g);
    assert Strip("") == "";
  }

  /** The same text once more changes nothing, exactly unless its description, without its final
      dots, ends in whitespace: such a description never counts as already there. */
  lemma EditTwice(raw: Envelope, e: Edit, now: Stamp, later: Stamp)
    ensures Patch(raw, e, now).Some? ==>
      (Patch(Patch(raw, e, now).value, e, later).None? <==> Strip(NewDescription(e)) == NewDescription(e))
  {
    if Patch(raw, e, now).Some? {
      var p := Normalize(raw).value;
      NormalizeIsNormal(raw);
      var f, timed := p.data.fields, Timed(p.moduleName);
      RebuiltIsNormal(p, NewFields(timed, e, f, now, p.adjustments), NewNotes(timed, e, f, now, p.adjustments));
      NormalStays(Patch(raw, e, now).value);
      FieldsTwice(timed, e, f, now, later, p.adjustments);
    }
  }
}
