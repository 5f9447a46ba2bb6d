/**
  The request handlers of the backend (backend/app/main.py) over an abstract
  store: the ingest rows, the saved notes and the audit log are append-only
  sequences held by one object. Timestamps, SQL and JSON encoding of the rows
  are not modelled.
*/
module App {
  import opened Wrappers
  import opened Models
  import opened Llm

  /** A row of the ingest table. */
  datatype IngestRow = IngestRow(id: string, filePath: Option<string>, transcript: string)

  /** A row of the notes table. */
  datatype NoteRow = NoteRow(patientId: string, content: SoapNote)

  /** A value in an audit event's metadata. */
  datatype MetaValue = MString(s: string) | MBool(b: bool) | MInt(i: int)

  /** A row of the audit table. */
  datatype AuditEvent = AuditEvent(action: AuditAction, meta: map<string, MetaValue>)

  /** An uploaded file; its bytes are written out and never looked at again. */
  datatype Upload = Upload(filename: string)

  /** What `transcribe_async` does: raises, or returns a text. */
  datatype SttOutcome = SttRaised | SttText(text: string)

  /** What the generate handler answers: `{"error": "unknown_ingest"}`,
      `{"note": ...}`, or an uncaught exception (a server error). */
  datatype GenerateResponse = UnknownIngest | NoteResponse(note: SoapNote) | ServerError

  /** The transcript used when the sample file cannot be read. */
  const HardcodedTranscript: string := "Patient dog, cough for 2 days, eating well..."

  /** The note generate substitutes when validation fails. */
  const PlaceholderNote: SoapNote := SoapNote("See transcript.", "Vitals stable.", "Insufficient data.", "Follow-up.")

  /** How many audit events the listing returns. */
  const AuditListLimit: nat := 200

  // ---------------------------------------------------------------------------
  // Pure parts of the handlers
  // ---------------------------------------------------------------------------

  /** The position of the last row with id `id`, or -1 when there is none. */
  function LastIndexOf(rows: seq<IngestRow>, id: string): (k: int)
    ensures -1 <= k < |rows|
    ensures k >= 0 ==> rows[k].id == id
    ensures forall k' :: k < k' < |rows| ==> rows[k'].id != id
  {
    if rows == [] then -1
    else if rows[|rows| - 1].id == id then |rows| - 1
    else LastIndexOf(rows[..|rows| - 1], id)
  }

  /** `SELECT * FROM ingest WHERE id=?`: rows are written with INSERT OR
      REPLACE, so the row found is the last one written under that id. */
  function Lookup(rows: seq<IngestRow>, id: string): (r: Option<IngestRow>)
    ensures r.None? <==> forall k :: 0 <= k < |rows| ==> rows[k].id != id
    ensures r.Some? ==> r.value.id == id && r.value in rows
    // the row found is the last one written under that id
    ensures r.Some? ==>
      exists k :: 0 <= k < |rows| && rows[k] == r.value && (forall k' :: k < k' < |rows| ==> rows[k'].id != id)
  {
    var k := LastIndexOf(rows, id);
    if k < 0 then None else Some(rows[k])
  }

  /** Appending rows never loses a row that could be found. */
  lemma LookupGrows(rows: seq<IngestRow>, row: IngestRow, id: string)
    requires Lookup(rows, id).Some?
    ensures Lookup(rows + [row], id).Some?
  {
    var k :| 0 <= k < |rows| && rows[k].id == id;
    assert (rows + [row])[k] == rows[k];
  }

  /** Where an upload is written: `/tmp/{ingest_id}_{filename}`. */
  function FilePath(ingestId: string, file: Option<Upload>): Option<string>
  {
    match file
    case Some(f) => Some("/tmp/" + ingestId + "_" + f.filename)
    case None => None
  }

  /** The transcript ingest stores: the pasted text if truthy, else the STT
      text if it ran and gave something truthy, else the sample file's
      contents, else the hardcoded text. */
  function ChooseTranscript(pasted: Option<string>, filePath: Option<string>,
                            stt: SttOutcome, sample: Option<string>): string
  {
    var afterStt :=
      if !Truthy(pasted) && filePath.Some? && stt.SttText? then Some(stt.text) else pasted;
    if Truthy(afterStt) then afterStt.value
    else match sample
      case Some(s) => s
      case None => HardcodedTranscript
  }

  /** A non-empty pasted transcript is stored as it is, whatever else was sent. */
  lemma PastedTranscriptWins(pasted: string, filePath: Option<string>, stt: SttOutcome, sample: Option<string>)
    requires pasted != ""
    ensures ChooseTranscript(Some(pasted), filePath, stt, sample) == pasted
  {
  }

  /** Otherwise a non-empty STT text from an uploaded file is stored. */
  lemma SttTranscriptUsed(pasted: Option<string>, path: string, text: string, sample: Option<string>)
    requires !Truthy(pasted) && text != ""
    ensures ChooseTranscript(pasted, Some(path), SttText(text), sample) == text
  {
  }

  /** With no usable pasted or STT text, the sample file is used, or the
      hardcoded text when reading it fails. */
  lemma TranscriptFallsBack(pasted: Option<string>, filePath: Option<string>, stt: SttOutcome, sample: Option<string>)
    requires !Truthy(pasted)
    requires filePath.None? || stt.SttRaised? || stt.text == ""
    ensures ChooseTranscript(pasted, filePath, stt, sample) == sample.GetOr(HardcodedTranscript)
  {
  }

  /** The stored transcript is empty only when every source came up empty and
      the sample file itself is empty. */
  lemma TranscriptEmptyOnlyForEmptySample(pasted: Option<string>, filePath: Option<string>,
                                          stt: SttOutcome, sample: Option<string>)
    ensures ChooseTranscript(pasted, filePath, stt, sample) == "" <==>
      && !Truthy(pasted)
      && !(filePath.Some? && stt.SttText? && stt.text != "")
      && sample == Some("")
  {
  }

  /** The metadata of the INGESTED event (its id key is spelled `engest_id`). */
  function IngestedMeta(ingestId: string, hasFile: bool, transcript: string): map<string, MetaValue>
  {
    map["engest_id" := MString(ingestId), "has_file" := MBool(hasFile), "chars" := MInt(|transcript|)]
  }

  /** The metadata of the GENERATED event. */
  function GeneratedMeta(ingestId: string): map<string, MetaValue>
  {
    map["ingest_id" := MString(ingestId)]
  }

  /** The metadata of the SAVED event. */
  function SavedMeta(patientId: string): map<string, MetaValue>
  {
    map["patient_id" := MString(patientId)]
  }

  /** The validate-or-placeholder step of generate: `SOAPNote(**note_dict)`,
      with `except ValidationError` substituting the placeholder; the TypeError
      a non-mapping raises is not caught. */
  function Repair(noteDict: Json): (r: GenerateResponse)
    ensures r.NoteResponse? ==> ValidNote(r.note)
    ensures r.ServerError? <==> !noteDict.JObject?
    ensures !r.UnknownIngest?
  {
    match ValidateNote(noteDict)
    case NoteOk(n) => NoteResponse(n)
    case ValidationError => NoteResponse(PlaceholderNote)
    case NotAMapping => ServerError
  }

  /** A note that validates is returned with exactly its four field values;
      one that does not is replaced by exactly the placeholder. */
  lemma RepairKeepsOrReplaces(m: map<string, Json>, n: SoapNote)
    ensures Repair(JObject(m)) == NoteResponse(n) <==>
      ValidateNote(JObject(m)) == NoteOk(n) ||
      (ValidateNote(JObject(m)).ValidationError? && n == PlaceholderNote)
  {
  }

  /** Without a key, generate always serves the engine's stub note. */
  lemma GenerateWithoutKeyServesStub(apiKey: Option<string>, transcript: string,
                                     model: ModelCall -> CallOutcome, parse: string -> Option<Json>)
    requires !HasKey(apiKey)
    ensures Repair(CallLlmSpec(apiKey, transcript, model, parse).note) == NoteResponse(StubNote())
  {
    StubValidates();
  }

  /** Both fallback notes satisfy the SOAPNote constraint. */
  lemma FallbackNotesValid()
    ensures ValidNote(PlaceholderNote) && ValidNote(StubNote())
    ensures Repair(Dump(PlaceholderNote)) == NoteResponse(PlaceholderNote)
  {
    DumpValidate(PlaceholderNote);
  }

  /** How many events of the log carry action `a`. */
  function Count(log: seq<AuditEvent>, a: AuditAction): nat
  {
    if log == [] then 0 else Count(log[..|log| - 1], a) + (if log[|log| - 1].action == a then 1 else 0)
  }

  lemma CountAppend(log: seq<AuditEvent>, e: AuditEvent, a: AuditAction)
    ensures Count(log + [e], a) == Count(log, a) + (if e.action == a then 1 else 0)
  {
    assert (log + [e])[..|log|] == log;
  }

  /** The newest `n` events, newest first (`ORDER BY id DESC LIMIT n`). */
  function NewestFirst(log: seq<AuditEvent>, n: nat): (r: seq<AuditEvent>)
    ensures |r| == Min(|log|, n)
    ensures forall k :: 0 <= k < |r| ==> r[k] == log[|log| - 1 - k]
  {
    if n == 0 || log == [] then []
    else
      var rest := NewestFirst(log[..|log| - 1], n - 1);
      [log[|log| - 1]] + rest
  }

  /** A GENERATED event names an ingest id that has a row. */
  ghost predicate RefersToIngest(e: AuditEvent, rows: seq<IngestRow>)
  {
    "ingest_id" in e.meta && e.meta["ingest_id"].MString? && Lookup(rows, e.meta["ingest_id"].s).Some?
  }

  /** As many INGESTED events as ingest rows and as many SAVED events as notes;
      every GENERATED event refers to an existing ingest row; every saved note
      is valid. */
  ghost predicate Consistent(ingests: seq<IngestRow>, notes: seq<NoteRow>, audit: seq<AuditEvent>)
  {
    && Count(audit, Ingested) == |ingests|
    && Count(audit, Saved) == |notes|
    && (forall k :: 0 <= k < |audit| && audit[k].action == Generated ==> RefersToIngest(audit[k], ingests))
    && (forall k :: 0 <= k < |notes| ==> ValidNote(notes[k].content))
  }

  /** A GENERATED event for a known ingest id keeps the tables consistent. */
  lemma GeneratedKeepsConsistent(ingests: seq<IngestRow>, notes: seq<NoteRow>, audit: seq<AuditEvent>, id: string)
    requires Consistent(ingests, notes, audit) && Lookup(ingests, id).Some?
    ensures Consistent(ingests, notes, audit + [AuditEvent(Generated, GeneratedMeta(id))])
  {
    var e := AuditEvent(Generated, GeneratedMeta(id));
    CountAppend(audit, e, Ingested);
    CountAppend(audit, e, Saved);
    assert RefersToIngest(e, ingests);
  }

  // ---------------------------------------------------------------------------
  // The store and the handlers
  // ---------------------------------------------------------------------------

  class Store {
    var ingests: seq<IngestRow>
    var notes: seq<NoteRow>
    var audit: seq<AuditEvent>

    /** The tables agree with each other (see `Consistent`). */
    ghost predicate Valid()
      reads this
    {
      Consistent(ingests, notes, audit)
    }

    /** `db.init()`: three empty tables. */
    constructor ()
      ensures Valid()
      ensures ingests == [] && notes == [] && audit == []
    {
      ingests, notes, audit := [], [], [];
    }

    /** The audit listing: at most 200 events, newest first. */
    function RecentAudit(): (r: seq<AuditEvent>)
      reads this
      ensures |r| <= AuditListLimit
      ensures |r| == Min(|audit|, AuditListLimit)
      ensures forall k :: 0 <= k < |r| ==> r[k] == audit[|audit| - 1 - k]
    {
      NewestFirst(audit, AuditListLimit)
    }

    /** The ingest handler. `ingestId` is the fresh UUID, `stt` what the
        transcription would do, `sample` the sample file's contents (None when
        reading it fails); `sttRuns` are the paths transcribed. */
    method Ingest(ingestId: string, file: Option<Upload>, transcript: Option<string>,
                  stt: SttOutcome, sample: Option<string>)
      returns (id: string, sttRuns: seq<string>)
      requires Valid()
      modifies this
      ensures Valid()
      ensures id == ingestId
      ensures sttRuns == if !Truthy(transcript) && file.Some? then [FilePath(ingestId, file).value] else []
      ensures var t := ChooseTranscript(transcript, FilePath(ingestId, file), stt, sample);
        && ingests == old(ingests) + [IngestRow(ingestId, FilePath(ingestId, file), t)]
        && audit == old(audit) + [AuditEvent(Ingested, IngestedMeta(ingestId, file.Some?, t))]
      ensures notes == old(notes)
    {
      var filePath: Option<string> := None;
      if file.Some? {
        filePath := Some("/tmp/" + ingestId + "_" + file.value.filename);
      }

      // transcribe only when nothing truthy was pasted and a file was saved
      var text := transcript;
      sttRuns := [];
      if !Truthy(text) && filePath.Some? {
        sttRuns := [filePath.value];
        match stt
        case SttText(s) => text := Some(s);
        case SttRaised =>
      }

      // fall back to the sample transcript
      if !Truthy(text) {
        match sample
        case Some(s) => text := Some(s);
        case None => text := Some(HardcodedTranscript);
      }
      var t := text.value;

      ghost var oldIngests := ingests;
      ingests := ingests + [IngestRow(ingestId, filePath, t)];
      var e := AuditEvent(Ingested, IngestedMeta(ingestId, file.Some?, t));
      CountAppend(audit, e, Ingested);
      CountAppend(audit, e, Saved);
      forall k | 0 <= k < |audit| && audit[k].action == Generated
        ensures RefersToIngest(audit[k], ingests)
      {
        LookupGrows(oldIngests, IngestRow(ingestId, filePath, t), audit[k].meta["ingest_id"].s);
      }
      audit := audit + [e];
      id := ingestId;
    }

    /** The generate handler; `apiKey`, `model` and `parse` are passed on to
        call_llm, and `calls` are the generation calls it made. */
    method Generate(ingestId: string, apiKey: Option<string>,
                    model: ModelCall -> CallOutcome, parse: string -> Option<Json>)
      returns (resp: GenerateResponse, calls: seq<ModelCall>)
      requires Valid()
      modifies this
      ensures Valid()
      ensures ingests == old(ingests) && notes == old(notes)
      // an unknown id: the error, no model call, no event
      ensures Lookup(ingests, ingestId).None? ==> resp == UnknownIngest && calls == [] && audit == old(audit)
      // a known id: call_llm on its transcript, validate or repair, one GENERATED event
      ensures Lookup(ingests, ingestId).Some? ==>
        var run := CallLlmSpec(apiKey, Lookup(ingests, ingestId).value.transcript, model, parse);
        && calls == run.calls
        && resp == Repair(run.note)
        && audit == old(audit) + (if resp.ServerError? then [] else [AuditEvent(Generated, GeneratedMeta(ingestId))])
    {
      var row := Lookup(ingests, ingestId);
      if row.None? {
        return UnknownIngest, [];
      }
      var noteDict;
      noteDict, calls := CallLlm(apiKey, row.value.transcript, model, parse);
      // validate, or substitute the placeholder; a TypeError escapes
      resp := Repair(noteDict);
      if resp.ServerError? {
        return;
      }
      GeneratedKeepsConsistent(ingests, notes, audit, ingestId);
      audit := audit + [AuditEvent(Generated, GeneratedMeta(ingestId))];
    }

    /** The save handler; the request has passed SaveRequest validation. */
    method Save(req: SaveRequest) returns (status: string)
      requires Valid()
      requires ValidNote(req.note)
      modifies this
      ensures Valid()
      ensures status == "ok"
      ensures notes == old(notes) + [NoteRow(req.patientId, req.note)]
      ensures audit == old(audit) + [AuditEvent(Saved, SavedMeta(req.patientId))]
      ensures ingests == old(ingests)
    {
      notes := notes + [NoteRow(req.patientId, req.note)];
      var e := AuditEvent(Saved, SavedMeta(req.patientId));
      CountAppend(audit, e, Ingested);
      CountAppend(audit, e, Saved);
      audit := audit + [e];
      status := "ok";
    }
  }
}
