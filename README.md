# VetRec demo: SOAP-note pipeline and note diff, in Dafny

This project models the core of the VetRec demo. A veterinary visit transcript is ingested, either pasted, transcribed from an upload, or taken from a sample. A language model turns the transcript into a SOAP note with four fields: subjective, objective, assessment and plan. The note is validated, saved and audited. The frontend shows a clinician's edits as a highlighted before/after diff.

Modules:

- `Wrappers` (wrappers.dfy): `Option`.
- `Diff` (diff.dfy): `escapeHtml` and `highlightChange`.
  - `HighlightChange` runs the source's two scanning loops.
  - It is proved equal to the function `Highlight`, which is built from the recursive `CommonPrefix` and `CommonSuffix`.
  - Escaping is the source's three chained global replacements (`ReplaceAll`).
  - It is proved equal to a per-character reference (`EscapeEach`) and inverted by `Unescape`.
- `Models` (models.dfy): the pydantic models.
  - `SOAPNote` has four strings; each must be at least one character long.
  - `SaveRequest`, and `AuditEvent.action` as a three-valued tag.
  - The JSON values they are validated from.
- `Llm` (llm.py):
  - the stub note, `_extract_text`, `_blocked_or_empty` and `_compose_prompt`;
  - the two generation configurations;
  - `call_llm`. The `CallLlm` method follows the source's try/retry structure and is proved equal to the function `CallLlmSpec`.
  - The model SDK's `generate_content` is a function parameter from a call (prompt and configuration) to "raised" or "returned a response".
  - `json.loads` is a parameter `parse` from text to an optional JSON value.
- `App` (main.py): a `Store` class.
  - It holds the three tables (ingest rows, saved notes, audit log) as sequences.
  - It has the handlers `Ingest`, `Generate` and `Save`, and the audit listing `RecentAudit`.
  - Its invariant `Valid` holds that:
    - there are as many INGESTED events as ingest rows;
    - there are as many SAVED events as saved notes;
    - every GENERATED event names an ingest id that has a row;
    - every saved note is valid.
  - The UUID, the STT result, the sample file's contents, the API key and the model are parameters of the handlers.
- `DiffPanel` (DiffPanel.tsx): the four items, the changed items, and what the panel shows.

Behaviour of the code that the model keeps:

- `json.loads` is inside the first `try` of `call_llm`. So a first answer that is not JSON leads to the retry instead of escaping.
- If `call_llm` returns a JSON value that is not an object, `SOAPNote(**note_dict)` raises `TypeError`. That is not the `ValidationError` the handler catches. So generate fails (`ServerError`) and writes no GENERATED event.
- A sample transcript file that reads as the empty string is stored as an empty transcript. The hardcoded text is used only when reading the file raises.
- The INGESTED event's id key is spelled `engest_id`, as in the code.
- Two different fallback notes exist:
  - `_stub_note` in llm.py;
  - the placeholder in main.py that replaces a note failing validation.

## Model

| member | source | states |
|---|---|---|
| Diff.EscapeHtmlIsEscapeEach | frontend/src/utils/diff.ts:3-5 | The three chained global replacements (`&` first, then `<`, then `>`) equal escaping each character on its own, so no entity is escaped twice |
| Diff.EscapeHtmlConcat | frontend/src/utils/diff.ts:3-5 | Escaping distributes over concatenation |
| Diff.EscapeHtmlNoAngles | frontend/src/utils/diff.ts:3-5 | Escaped text contains no `<` and no `>` |
| Diff.EscapeHtmlIdentity | frontend/src/utils/diff.ts:3-5 | Text without `&`, `<` and `>` is left unchanged |
| Diff.UnescapeEscape | frontend/src/utils/diff.ts:3-5 | Decoding the three entities after escaping gives back the original text |
| Diff.CommonPrefix | frontend/src/utils/diff.ts:15-17 | The result is the longest common prefix: within both lengths, equal prefixes, and the next characters differ or one string ends |
| Diff.CommonSuffix | frontend/src/utils/diff.ts:19-21 | The result is the longest common suffix that leaves the first `i` characters alone: within bounds, equal last characters, and the next pair differs or the bound is reached |
| Diff.CommonSuffixEqual | frontend/src/utils/diff.ts:19-21 | The suffixes the common-suffix length selects are equal strings |
| Diff.SplitExact | frontend/src/utils/diff.ts:23-29 | Each input is exactly prefix + middle + suffix; the two prefixes are equal and so are the two suffixes |
| Diff.SplitMaximal | frontend/src/utils/diff.ts:15-21 | When both middles are non-empty, they differ in their first and in their last characters |
| Diff.SplitMiddleNonEmpty | frontend/src/utils/diff.ts:12-29 | Different inputs leave at least one non-empty middle |
| Diff.HighlightRendersBefore | frontend/src/utils/diff.ts:23-31 | The before-HTML is escaped prefix, `diff-del` span around the escaped middle, escaped suffix. The three pieces together are the escaped `before`, contain no `<`, and decode back to `before` |
| Diff.HighlightRendersAfter | frontend/src/utils/diff.ts:25-32 | The same for the after-HTML with the `diff-add` span and `after` |
| Diff.PrefixLoopExit | frontend/src/utils/diff.ts:16-17 | The prefix loop stops exactly at the common prefix length |
| Diff.SuffixLoopExit | frontend/src/utils/diff.ts:20-21 | The suffix loop stops exactly at the common suffix length |
| Diff.HighlightChange | frontend/src/utils/diff.ts:7-34 | The result equals `Highlight`. It is marked changed exactly when the inputs differ. Equal inputs give the escaped text on both sides |
| Models.ValidateNote | backend/app/models.py:4-8 | An accepted note has all four fields non-empty; a non-mapping, and only a non-mapping, is refused as such (TypeError) |
| Models.DumpValidate | backend/app/models.py:4-8 | Validating the dump of a note gives the note back when it is valid, and a validation error otherwise |
| Models.ValidateNoteExact | backend/app/models.py:4-8 | An object validates to a note exactly when its four keys hold that note's strings and every field is non-empty |
| Models.ValidateIgnoresOtherKeys | backend/app/models.py:4-8 | Keys other than the four fields do not change the outcome |
| Models.WhitespaceFieldIsValid | backend/app/models.py:5 | The length constraint applies to the raw string, so a field holding one space is valid |
| Models.ParseActionTag | backend/app/models.py:18 | A tag parses to an action exactly when it is that action's literal, so parsing inverts the tag |
| Models.ValidateSaveRequest | backend/app/models.py:13-15 | A body is accepted exactly when it is an object whose `patient_id` is a string and whose `note` is an object that validates. The request then carries that `patient_id` unchanged and the validated `note` |
| Models.SaveRequestRoundTrip | backend/app/models.py:13-15 | Every request with a valid note is accepted from its own JSON form |
| Llm.StubNote | backend/app/llm.py:7-13 | The stub's four fields are non-empty |
| Llm.StubValidates | backend/app/llm.py:7-13 | The stub dictionary passes SOAPNote validation unchanged |
| Llm.JoinTextsConcat | backend/app/llm.py:28 | Joining part texts distributes over concatenation of the part lists |
| Llm.JoinTextsSkipsEmpty | backend/app/llm.py:28 | Parts without text, or with empty text, contribute nothing |
| Llm.ExtractText | backend/app/llm.py:15-29 | A truthy direct text wins over the candidates. A raising `.text` raises. The result is None exactly when there is no candidate, or the first has no content or no parts. Otherwise it is the first candidate's part texts joined |
| Llm.ExtractIgnoresLaterCandidates | backend/app/llm.py:24-28 | Candidates after the first do not affect the extraction |
| Llm.ExtractMayBeEmpty | backend/app/llm.py:27-28 | Parts that carry no text give the empty string, not None |
| Llm.BlockedOrEmpty | backend/app/llm.py:31-39 | The check raises exactly when there is a candidate and `.text` raises. It reports blocked exactly when there is no candidate, the extraction gives None, or the first finish reason is present and not STOP (1) |
| Llm.NotBlockedHasText | backend/app/llm.py:31-39 | A response judged not blocked has a first candidate that finished with STOP or gave no reason, and an extractable text |
| Llm.DirectTextWithoutCandidatesIsBlocked | backend/app/llm.py:20-39 | A direct text with no candidates is judged blocked, yet `_extract_text` returns it |
| Llm.ComposePrompt | backend/app/llm.py:57-60 | One user message whose excerpt is a prefix of the transcript of at most 8000 characters: the whole transcript when shorter, exactly 8000 characters otherwise |
| Llm.ComposePromptIgnoresTail | backend/app/llm.py:59 | Characters past the first 8000 do not change the prompt |
| Llm.Attempt | backend/app/llm.py:92-102 | Parsed exactly when the call returned and its extracted text is non-empty and parses, and then with that parse |
| Llm.CallLlmSpec | backend/app/llm.py:75-120 | No key: the stub and no calls. Otherwise at most two calls, both with the composed prompt, the first with 700 tokens / 0.15 and the second with 900 tokens / 0.0. A second call happens exactly when the first attempt failed. The result is the last call's parse when it parsed, and the stub when the retry failed too |
| Llm.FirstSuccessNoRetry | backend/app/llm.py:92-99 | A well-formed first answer is returned after exactly one call |
| Llm.MalformedFirstJsonRetries | backend/app/llm.py:97-114 | A truthy first text that is not JSON leads to the retry, whose outcome (its parse or the stub) is the result |
| Llm.FailedFirstThenRetryParsed | backend/app/llm.py:91-114 | A first attempt failing for any reason, then a retry that parses, gives the retry's parse after exactly the two calls |
| Llm.RaisedFirstCallRetries | backend/app/llm.py:92-106 | A first call that raises is followed by the retry call |
| Llm.NoTextFirstAnswerRetries | backend/app/llm.py:97-106 | A first answer with no extractable text is followed by the retry call |
| Llm.BothFailGiveStub | backend/app/llm.py:104-120 | Two failed attempts, whatever the reasons, give exactly the stub |
| Llm.CallLlmResultOrigin | backend/app/llm.py:75-120 | No error escapes: a result other than the stub is the parse of a non-empty text some call returned |
| Llm.CallLlm | backend/app/llm.py:75-120 | The note and the sequence of calls made equal `CallLlmSpec` |
| App.LastIndexOf | backend/app/db.py:38-49 | The index found holds the id and no later row does; -1 when no row has it |
| App.Lookup | backend/app/main.py:68 | None exactly when no row has the id. Otherwise a stored row with that id, and no later row has that id: the last one written, as with INSERT OR REPLACE |
| App.LookupGrows | backend/app/db.py:38-43 | Writing a row never makes a findable id unfindable |
| App.PastedTranscriptWins | backend/app/main.py:36-50 | A non-empty pasted transcript is stored as it is |
| App.SttTranscriptUsed | backend/app/main.py:36-41 | With nothing truthy pasted and a file saved, a non-empty STT text is stored |
| App.TranscriptFallsBack | backend/app/main.py:43-50 | Without a usable pasted or STT text, the sample file's contents are stored, or the hardcoded text when reading it fails |
| App.TranscriptEmptyOnlyForEmptySample | backend/app/main.py:36-50 | The stored transcript is empty exactly when nothing truthy was pasted or transcribed and the sample file reads as empty |
| App.Repair | backend/app/main.py:70-76 | A returned note is valid. The error arises exactly when the LLM result is not a JSON object. Repair never reports an unknown ingest |
| App.RepairKeepsOrReplaces | backend/app/main.py:71-76 | A validating note is returned with its own field values; one failing validation is replaced by exactly the placeholder |
| App.GenerateWithoutKeyServesStub | backend/app/main.py:70-72 | Without an API key, generate serves the stub note |
| App.FallbackNotesValid | backend/app/main.py:75-76 | The placeholder and the stub are valid notes, and the placeholder survives validation |
| App.CountAppend | backend/app/db.py:32-36 | Appending an event adds one to the count of its action and nothing to the others |
| App.NewestFirst | backend/app/db.py:58-63 | At most `n` events, the newest first, each the event at that distance from the end of the log |
| App.GeneratedKeepsConsistent | backend/app/main.py:68-77 | A GENERATED event for an id with an ingest row keeps the tables consistent |
| App.Store.RecentAudit | backend/app/main.py:86-89 | At most 200 events, newest first |
| App.Store.Ingest | backend/app/main.py:25-54 | Keeps `Valid`. Transcribes exactly when nothing truthy was pasted and a file was sent. Appends one ingest row with the chosen transcript and one INGESTED event with `engest_id`, `has_file` and `chars`. Notes are unchanged |
| App.Store.Generate | backend/app/main.py:66-78 | Keeps `Valid`. For an unknown id: the error, no model call, no event. Otherwise it calls `call_llm` on the row's transcript and validates or repairs the result. It appends one GENERATED event unless the result is not an object. Ingest rows and notes are unchanged |
| App.Store.Save | backend/app/main.py:80-84 | Keeps `Valid`. Appends the note with its patient id and one SAVED event, and returns "ok" |
| DiffPanel.Items | frontend/src/components/DiffPanel.tsx:13-19 | Four items, the k-th highlighting the k-th field's before and after values |
| DiffPanel.Changed | frontend/src/components/DiffPanel.tsx:21 | The filter never lengthens the list |
| DiffPanel.ChangedMembers | frontend/src/components/DiffPanel.tsx:21 | An item is kept exactly when it is in the list and changed |
| DiffPanel.ChangedConcat | frontend/src/components/DiffPanel.tsx:21 | Filtering distributes over concatenation, so the order is kept |
| DiffPanel.ChangedItemsInOrder | frontend/src/components/DiffPanel.tsx:13-21 | The changed items are the four items' changed ones, in panel order |
| DiffPanel.KeyInjective | frontend/src/components/DiffPanel.tsx:6-11 | Distinct fields have distinct keys |
| DiffPanel.FieldShownIffChanged | frontend/src/components/DiffPanel.tsx:13-21 | A field is among the changed items exactly when its before and after values differ |
| DiffPanel.ToBlocks | frontend/src/components/DiffPanel.tsx:33-47 | One block per changed item, with its label and its two HTML strings |
| DiffPanel.NoEditsIffUnchanged | frontend/src/components/DiffPanel.tsx:23-29 | The no-edits message is shown exactly when all four values are equal |
| DiffPanel.BlocksShowHighlight | frontend/src/components/DiffPanel.tsx:31-49 | Each block shown belongs to a field whose values differ, and shows that field's label and highlighted values |

## Left out

- I/O and process-level effects are not modelled:
  - the SQLite database (its tables become sequences);
  - `uuid4`, which becomes a parameter;
  - timestamps (`created_at`, `at_iso`);
  - writing the uploaded file to `/tmp`;
  - reading the sample file (its contents, or failure, become a parameter);
  - `load_dotenv` and `os.getenv` (the key becomes a parameter);
  - `time.sleep(0.6)` before the retry;
  - `print` diagnostics.
- The model SDK is not modelled beyond one call's outcome. Left out: `genai.configure`, building `GenerativeModel` (its failure would escape `call_llm`), the model name, `system_instruction`, and the unused `_safety_settings_relaxed`.
- `debug_list_models` and the startup hook are left out: they only print.
- The FastAPI app, CORS, request parsing and the `/health` endpoint are left out. Handlers take already-parsed arguments; `Save` takes a request that passed `SaveRequest` validation.
- The prompt template: prompts.py is not part of this model. The user message is reduced to its transcript excerpt.
- stt_local.py is not part of this model. Transcription is a parameter that yields a text or raises.
- App.tsx is not part of this model.
- The rendered HTML markup of the diff panel (class names, headings, grid) is left out. Only the choice between the no-edits message and the list of blocks is kept.
- Llm.MakeConfig: temperatures are kept as integer hundredths (0.15 becomes 15), because Dafny has no floating point.
- Models.Json: JSON numbers are integers, because Dafny has no floating point.
- Diff.HighlightChange: a Dafny `char` is a Unicode scalar value, so the model counts code points, as Python does. JavaScript counts UTF-16 code units. For text outside the Basic Multilingual Plane the JavaScript code can split a shared surrogate between the prefix and the middle (two characters that share a leading surrogate); the model cannot, and does not capture that case.
- App.Store: each handler is one atomic step. In the source, the `await`s between the row write and the audit write (backend/app/main.py:34-53, 68-77) let other requests interleave. The model does not capture those interleavings.
- App.Store.Ingest: file presence is modelled as an upload being sent. An `UploadFile` object is assumed truthy.
- The `at_iso` field of `AuditEvent` and the `GenerateRequest` wrapper are left out. Generate receives the ingest id directly.
- `AuditEvent.meta` holds only the string, boolean and integer values that the handlers write.
