/**
  The request and record models of the backend (backend/app/models.py), and
  the JSON values they are validated from.
*/
module Models {
  import opened Wrappers

  /** A value `json.loads` can produce (numbers kept as integers). */
  datatype Json =
    | JNull
    | JBool(b: bool)
    | JNumber(n: int)
    | JString(s: string)
    | JArray(items: seq<Json>)
    | JObject(fields: map<string, Json>)

  /** SOAPNote: four string fields. */
  datatype SoapNote = SoapNote(subjective: string, objective: string, assessment: string, plan: string)

  /** The field constraint of SOAPNote: every field at least one character long. */
  predicate ValidNote(n: SoapNote)
  {
    |n.subjective| >= 1 && |n.objective| >= 1 && |n.assessment| >= 1 && |n.plan| >= 1
  }

  /** The four keys, in declaration order. */
  const NoteKeys: seq<string> := ["subjective", "objective", "assessment", "plan"]

  /** `note.model_dump()` as a JSON object. */
  function Dump(n: SoapNote): Json
  {
    JObject(map["subjective" := JString(n.subjective), "objective" := JString(n.objective),
                "assessment" := JString(n.assessment), "plan" := JString(n.plan)])
  }

  /** What `SOAPNote(**v)` does: a non-mapping argument raises TypeError, a
      mapping that fails a field constraint raises ValidationError. */
  datatype NoteCheck = NoteOk(note: SoapNote) | ValidationError | NotAMapping

  /** One field of SOAPNote: present, a string, at least one character. */
  function CheckField(m: map<string, Json>, key: string): Option<string>
  {
    if key in m && m[key].JString? && |m[key].s| >= 1 then Some(m[key].s) else None
  }

  /** `SOAPNote(**v)`; keys other than the four fields are ignored. */
  function ValidateNote(v: Json): (r: NoteCheck)
    ensures r.NoteOk? ==> ValidNote(r.note)
    ensures r.NotAMapping? <==> !v.JObject?
  {
    match v
    case JObject(m) =>
      var s, o, a, p := CheckField(m, "subjective"), CheckField(m, "objective"),
                        CheckField(m, "assessment"), CheckField(m, "plan");
      if s.Some? && o.Some? && a.Some? && p.Some? then NoteOk(SoapNote(s.value, o.value, a.value, p.value))
      else ValidationError
    case _ => NotAMapping
  }

  /** Validation and dumping are inverse on valid notes, and an invalid note
      never passes validation once dumped. */
  lemma DumpValidate(n: SoapNote)
    ensures ValidateNote(Dump(n)) == if ValidNote(n) then NoteOk(n) else ValidationError
  {
    var m := Dump(n).fields;
    assert m["subjective"] == JString(n.subjective) && m["objective"] == JString(n.objective);
    assert m["assessment"] == JString(n.assessment) && m["plan"] == JString(n.plan);
  }

  /** Validation accepts exactly the objects whose four fields are non-empty
      strings, and returns those strings unchanged. */
  lemma ValidateNoteExact(m: map<string, Json>, n: SoapNote)
    ensures ValidateNote(JObject(m)) == NoteOk(n) <==>
      && "subjective" in m && m["subjective"] == JString(n.subjective)
      && "objective" in m && m["objective"] == JString(n.objective)
      && "assessment" in m && m["assessment"] == JString(n.assessment)
      && "plan" in m && m["plan"] == JString(n.plan)
      && ValidNote(n)
  {
  }

  /** Only the four fields matter: adding or changing any other key does not
      change the outcome. */
  lemma ValidateIgnoresOtherKeys(m: map<string, Json>, k: string, x: Json)
    requires k !in NoteKeys
    ensures ValidateNote(JObject(m[k := x])) == ValidateNote(JObject(m))
  {
    var m' := m[k := x];
    assert CheckField(m', "subjective") == CheckField(m, "subjective");
    assert CheckField(m', "objective") == CheckField(m, "objective");
    assert CheckField(m', "assessment") == CheckField(m, "assessment");
    assert CheckField(m', "plan") == CheckField(m, "plan");
  }

  /** The length constraint is on the raw string: a field holding one space is valid. */
  lemma WhitespaceFieldIsValid()
    ensures ValidateNote(Dump(SoapNote(" ", " ", " ", " "))) == NoteOk(SoapNote(" ", " ", " ", " "))
  {
    DumpValidate(SoapNote(" ", " ", " ", " "));
  }

  /** AuditEvent.action: a closed set of three tags. */
  datatype AuditAction = Ingested | Generated | Saved

  function ActionTag(a: AuditAction): string
  {
    match a
    case Ingested => "INGESTED"
    case Generated => "GENERATED"
    case Saved => "SAVED"
  }

  /** Validation of the `Literal["INGESTED","GENERATED","SAVED"]` field. */
  function ParseAction(s: string): Option<AuditAction>
  {
    if s == "INGESTED" then Some(Ingested)
    else if s == "GENERATED" then Some(Generated)
    else if s == "SAVED" then Some(Saved)
    else None
  }

  /** A tag is accepted exactly when it is one of the three, and parsing is the
      inverse of the tag. */
  lemma ParseActionTag(s: string, a: AuditAction)
    ensures ParseAction(s) == Some(a) <==> ActionTag(a) == s
  {
  }

  /** SaveRequest: a patient id and a note. */
  datatype SaveRequest = SaveRequest(patientId: string, note: SoapNote)

  /** Validation of a SaveRequest body: a `patient_id` string and a `note`
      that is itself a valid SOAPNote object. */
  function ValidateSaveRequest(v: Json): (r: Option<SaveRequest>)
    ensures r.Some? ==> ValidNote(r.value.note)
    ensures r.Some? ==> v.JObject? && "patient_id" in v.fields && v.fields["patient_id"] == JString(r.value.patientId)
    // the request's note is the body's `note`, validated
    ensures r.Some? ==> "note" in v.fields && ValidateNote(v.fields["note"]) == NoteOk(r.value.note)
    // accepted exactly when `patient_id` is a string and `note` an object that validates
    ensures r.Some? <==>
      && v.JObject? && "patient_id" in v.fields && v.fields["patient_id"].JString?
      && "note" in v.fields && v.fields["note"].JObject? && ValidateNote(v.fields["note"]).NoteOk?
  {
    match v
    case JObject(m) =>
      if "patient_id" in m && m["patient_id"].JString? && "note" in m && m["note"].JObject? then
        match ValidateNote(m["note"])
        case NoteOk(n) => Some(SaveRequest(m["patient_id"].s, n))
        case _ => None
      else None
    case _ => None
  }

  /** Every valid request survives validation of its own JSON form. */
  lemma SaveRequestRoundTrip(r: SaveRequest)
    requires ValidNote(r.note)
    ensures ValidateSaveRequest(JObject(map["patient_id" := JString(r.patientId), "note" := Dump(r.note)])) == Some(r)
  {
    DumpValidate(r.note);
    var m := map["patient_id" := JString(r.patientId), "note" := Dump(r.note)];
    assert m["note"] == Dump(r.note);
    assert m["patient_id"] == JString(r.patientId);
  }
}
