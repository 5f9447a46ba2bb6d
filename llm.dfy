/**
  The note-generation engine (backend/app/llm.py): the stub note, text
  extraction from a model response, the blocked-response check, prompt
  composition, and call_llm's try / retry / stub sequence. The SDK call and
  `json.loads` are parameters: `model` gives the outcome of a generation call
  and `parse` the outcome of parsing a text.
*/
module Llm {
  import opened Wrappers
  import opened Models

  // ---------------------------------------------------------------------------
  // Responses
  // ---------------------------------------------------------------------------

  /** What `getattr(resp, "text", None)` meets: no text (the attribute is
      missing or None), a string, or an accessor that raises (getattr only
      supplies its default for AttributeError). */
  datatype TextAttr = NoText | Text(value: string) | TextRaises

  /** A content part; its `text` is None when absent. */
  datatype Part = Part(text: Option<string>)

  /** A candidate's content; missing `parts` is the empty sequence. */
  datatype Content = Content(parts: seq<Part>)

  /** A candidate; `finishReason` is `int(finish_reason)` when present. */
  datatype Candidate = Candidate(content: Option<Content>, finishReason: Option<int>)

  /** A model response; missing `candidates` is the empty sequence. */
  datatype Response = Response(text: TextAttr, candidates: seq<Candidate>)

  /** What `_extract_text` does: returns a string, returns None, or raises. */
  datatype Extraction = Extracted(text: string) | NoneExtracted | ExtractRaised

  /** The finish reason taken to mean STOP. */
  const FinishStop: int := 1

  // ---------------------------------------------------------------------------
  // The stub note
  // ---------------------------------------------------------------------------

  /** The fields of `_stub_note()`. */
  function StubNote(): (n: SoapNote)
    ensures ValidNote(n)
  {
    SoapNote("Dog presented for cough, owner reports onset 2 days ago.",
             "T 102.5F, mild wheeze, active, eating.",
             "Likely mild tracheobronchitis.",
             "Doxycycline 5mg/kg BID x7d, rest, recheck 1 week.")
  }

  /** `_stub_note()`: the dictionary call_llm returns as its last resort. */
  function StubJson(): Json
  {
    Dump(StubNote())
  }

  /** The stub passes SOAPNote validation, unchanged. */
  lemma StubValidates()
    ensures ValidateNote(StubJson()) == NoteOk(StubNote())
  {
    DumpValidate(StubNote());
  }

  // ---------------------------------------------------------------------------
  // Extraction
  // ---------------------------------------------------------------------------

  /** Truthiness of an optional string. */
  predicate Truthy(t: Option<string>)
  {
    t.Some? && t.value != ""
  }

  /** `"".join(getattr(p, "text", "") for p in parts if getattr(p, "text", None))`. */
  function JoinTexts(parts: seq<Part>): string
  {
    if parts == [] then ""
    else (if Truthy(parts[0].text) then parts[0].text.value else "") + JoinTexts(parts[1..])
  }

  /** Joining distributes over concatenation of the part lists, so the result
      is the texts of the parts in their order. */
  lemma {:induction false} JoinTextsConcat(ps: seq<Part>, qs: seq<Part>)
    ensures JoinTexts(ps + qs) == JoinTexts(ps) + JoinTexts(qs)
  {
    if ps == [] {
      assert ps + qs == qs;
    } else {
      assert (ps + qs)[0] == ps[0];
      assert (ps + qs)[1..] == ps[1..] + qs;
      JoinTextsConcat(ps[1..], qs);
    }
  }

  /** Parts without text contribute nothing. */
  lemma {:induction false} JoinTextsSkipsEmpty(ps: seq<Part>)
    requires forall k :: 0 <= k < |ps| ==> !Truthy(ps[k].text)
    ensures JoinTexts(ps) == ""
  {
    if ps != [] {
      JoinTextsSkipsEmpty(ps[1..]);
    }
  }

  /** The candidate branch of `_extract_text`. */
  function FromFirstCandidate(cands: seq<Candidate>): Extraction
  {
    if cands == [] then NoneExtracted
    else
      match cands[0].content
      case Some(content) => if content.parts != [] then Extracted(JoinTexts(content.parts)) else NoneExtracted
      case None => NoneExtracted
  }

  /** `_extract_text`. */
  function ExtractText(resp: Response): (r: Extraction)
    // a truthy direct text is returned as it is, ahead of any candidate
    ensures resp.text.Text? && resp.text.value != "" ==> r == Extracted(resp.text.value)
    ensures r.ExtractRaised? <==> resp.text.TextRaises?
    // None exactly when there is no candidate, or the first has no content or no parts
    ensures r.NoneExtracted? <==>
      && !resp.text.TextRaises? && !(resp.text.Text? && resp.text.value != "")
      && (resp.candidates == [] || resp.candidates[0].content.None? || resp.candidates[0].content.value.parts == [])
    // otherwise the first candidate's texts, joined
    ensures r.Extracted? && !(resp.text.Text? && resp.text.value != "") ==>
      resp.candidates != [] && resp.candidates[0].content.Some? &&
      r.text == JoinTexts(resp.candidates[0].content.value.parts)
  {
    match resp.text
    case TextRaises => ExtractRaised
    case Text(t) => if t != "" then Extracted(t) else FromFirstCandidate(resp.candidates)
    case NoText => FromFirstCandidate(resp.candidates)
  }

  /** Only the first candidate is looked at. */
  lemma ExtractIgnoresLaterCandidates(resp: Response, more: seq<Candidate>)
    requires resp.candidates != []
    ensures ExtractText(resp.(candidates := resp.candidates + more)) == ExtractText(resp)
  {
    assert (resp.candidates + more)[0] == resp.candidates[0];
  }

  /** The extracted text may be empty: a first candidate whose parts carry no text. */
  lemma ExtractMayBeEmpty(fr: Option<int>)
    ensures ExtractText(Response(NoText, [Candidate(Some(Content([Part(None), Part(Some(""))])), fr)])) == Extracted("")
  {
    JoinTextsSkipsEmpty([Part(None), Part(Some(""))]);
  }

  // ---------------------------------------------------------------------------
  // The blocked-response check
  // ---------------------------------------------------------------------------

  /** What `_blocked_or_empty` does: returns a verdict, or raises (when the
      extraction it calls raises). */
  datatype BlockCheck = Checked(blocked: bool) | CheckRaised

  /** `_blocked_or_empty` (defined in the source but called nowhere). */
  function BlockedOrEmpty(resp: Response): (r: BlockCheck)
    ensures r.CheckRaised? <==> resp.candidates != [] && resp.text.TextRaises?
    ensures r == Checked(true) <==>
      || resp.candidates == []
      || (!resp.text.TextRaises? &&
          (ExtractText(resp).NoneExtracted? ||
           (resp.candidates[0].finishReason.Some? && resp.candidates[0].finishReason.value != FinishStop)))
  {
    if resp.candidates == [] then Checked(true)
    else
      var fr := resp.candidates[0].finishReason;
      var txt := ExtractText(resp);
      if txt.ExtractRaised? then CheckRaised
      else Checked(txt.NoneExtracted? || (fr.Some? && fr.value != FinishStop))
  }

  /** A response that is not blocked has a first candidate that finished with
      STOP (or gave no reason) and some extractable text. */
  lemma NotBlockedHasText(resp: Response)
    requires BlockedOrEmpty(resp) == Checked(false)
    ensures resp.candidates != []
    ensures resp.candidates[0].finishReason.None? || resp.candidates[0].finishReason.value == FinishStop
    ensures ExtractText(resp).Extracted?
  {
  }

  /** The check and the extraction disagree on a response with a direct text and
      no candidates: it counts as blocked, yet its text is extracted. */
  lemma DirectTextWithoutCandidatesIsBlocked(t: string)
    requires t != ""
    ensures BlockedOrEmpty(Response(Text(t), [])) == Checked(true)
    ensures ExtractText(Response(Text(t), [])) == Extracted(t)
  {
  }

  // ---------------------------------------------------------------------------
  // Prompt and generation configuration
  // ---------------------------------------------------------------------------

  /** How many transcript characters reach the prompt. */
  const MaxTranscriptChars: nat := 8000

  /** `SOAP_USER.format(transcript=excerpt)`; the template itself lives in
      prompts.py, which is not part of this model. */
  datatype UserMessage = UserMessage(excerpt: string)

  function Min(x: int, y: int): int { if x <= y then x else y }

  /** `_compose_prompt`: one user message built from the first 8000 characters. */
  function ComposePrompt(transcript: string): (r: seq<UserMessage>)
    ensures |r| == 1
    ensures |r[0].excerpt| <= MaxTranscriptChars && r[0].excerpt <= transcript
    ensures |transcript| <= MaxTranscriptChars ==> r[0].excerpt == transcript
    ensures |transcript| >= MaxTranscriptChars ==> |r[0].excerpt| == MaxTranscriptChars
  {
    [UserMessage(transcript[..Min(|transcript|, MaxTranscriptChars)])]
  }

  /** Characters past the first 8000 do not affect the prompt. */
  lemma ComposePromptIgnoresTail(t: string, u: string)
    requires |t| >= MaxTranscriptChars
    ensures ComposePrompt(t + u) == ComposePrompt(t)
  {
    assert (t + u)[..MaxTranscriptChars] == t[..MaxTranscriptChars];
  }

  /** `_gen_config(max_tokens, temp)`: the response is always JSON; the
      temperature is kept in hundredths. */
  datatype GenConfig = GenConfig(responseMimeType: string, maxOutputTokens: nat, temperatureHundredths: nat)

  function MakeConfig(maxTokens: nat, tempHundredths: nat): GenConfig
  {
    GenConfig("application/json", maxTokens, tempHundredths)
  }

  /** The first attempt: 700 tokens at temperature 0.15. */
  const FirstConfig: GenConfig := MakeConfig(700, 15)

  /** The retry: 900 tokens at temperature 0.0. */
  const RetryConfig: GenConfig := MakeConfig(900, 0)

  // ---------------------------------------------------------------------------
  // call_llm
  // ---------------------------------------------------------------------------

  /** One `model.generate_content(prompt, generation_config=config)` call. */
  datatype ModelCall = ModelCall(prompt: seq<UserMessage>, config: GenConfig)

  /** What such a call does: raises, or returns a response. */
  datatype CallOutcome = CallRaised | CallReturned(resp: Response)

  /** Why the body of one `try` block did not return. */
  datatype FailReason = CallError | ExtractError | NoUsableText | MalformedJson

  /** The outcome of one `try` block of call_llm. */
  datatype AttemptResult = Parsed(value: Json) | Failed(reason: FailReason)

  /** One `try` block: call, extract, and on truthy text return `json.loads` of
      it; any exception and a falsy text end in the `except` / fall-through. */
  function Attempt(outcome: CallOutcome, parse: string -> Option<Json>): (r: AttemptResult)
    ensures r.Parsed? ==>
      outcome.CallReturned? && ExtractText(outcome.resp).Extracted? &&
      ExtractText(outcome.resp).text != "" && parse(ExtractText(outcome.resp).text) == Some(r.value)
    // and conversely: a returned, non-empty text that parses is the result
    ensures (outcome.CallReturned? && ExtractText(outcome.resp).Extracted? &&
             ExtractText(outcome.resp).text != "" && parse(ExtractText(outcome.resp).text).Some?) ==>
      r == Parsed(parse(ExtractText(outcome.resp).text).value)
  {
    match outcome
    case CallRaised => Failed(CallError)
    case CallReturned(resp) =>
      match ExtractText(resp)
      case ExtractRaised => Failed(ExtractError)
      case NoneExtracted => Failed(NoUsableText)
      case Extracted(t) =>
        if t == "" then Failed(NoUsableText)
        else match parse(t)
          case Some(v) => Parsed(v)
          case None => Failed(MalformedJson)
  }

  /** `os.getenv("GEMINI_API_KEY")` is truthy. */
  predicate HasKey(apiKey: Option<string>)
  {
    apiKey.Some? && apiKey.value != ""
  }

  /** What call_llm returns, with the generation calls it made, in order. */
  datatype LlmRun = LlmRun(note: Json, calls: seq<ModelCall>)

  /** call_llm as a function of the key, the transcript and the outcomes of the
      calls it may make. */
  function CallLlmSpec(apiKey: Option<string>, transcript: string,
                       model: ModelCall -> CallOutcome, parse: string -> Option<Json>): (run: LlmRun)
    // no key: the stub, and no call at all
    ensures !HasKey(apiKey) ==> run == LlmRun(StubJson(), [])
    // at most two calls, both with the composed prompt
    ensures |run.calls| <= 2
    ensures forall k :: 0 <= k < |run.calls| ==> run.calls[k].prompt == ComposePrompt(transcript)
    ensures HasKey(apiKey) ==> |run.calls| >= 1 && run.calls[0].config == FirstConfig
    // a second call, with the retry configuration, exactly when the first attempt failed
    ensures |run.calls| == 2 ==> run.calls[1].config == RetryConfig
    ensures |run.calls| == 2 <==> HasKey(apiKey) && Attempt(model(run.calls[0]), parse).Failed?
    // the result is the stub or the parse of some attempt's text
    ensures run.note == StubJson() ||
      exists k :: 0 <= k < |run.calls| && Attempt(model(run.calls[k]), parse) == Parsed(run.note)
    // the last call's parse, when there is one, is the result; otherwise the stub
    ensures |run.calls| >= 1 && Attempt(model(run.calls[|run.calls| - 1]), parse).Parsed? ==>
      run.note == Attempt(model(run.calls[|run.calls| - 1]), parse).value
    ensures |run.calls| == 2 && Attempt(model(run.calls[1]), parse).Failed? ==> run.note == StubJson()
  {
    if !HasKey(apiKey) then LlmRun(StubJson(), [])
    else
      var first := ModelCall(ComposePrompt(transcript), FirstConfig);
      match Attempt(model(first), parse)
      case Parsed(v) => LlmRun(v, [first])
      case Failed(_) =>
        var retry := ModelCall(ComposePrompt(transcript), RetryConfig);
        match Attempt(model(retry), parse)
        case Parsed(v) => LlmRun(v, [first, retry])
        case Failed(_) => LlmRun(StubJson(), [first, retry])
  }

  /** A well-formed first answer is returned and no retry happens. */
  lemma FirstSuccessNoRetry(apiKey: Option<string>, transcript: string,
                            model: ModelCall -> CallOutcome, parse: string -> Option<Json>, t: string, v: Json)
    requires HasKey(apiKey)
    requires model(ModelCall(ComposePrompt(transcript), FirstConfig)).CallReturned?
    requires ExtractText(model(ModelCall(ComposePrompt(transcript), FirstConfig)).resp) == Extracted(t)
    requires t != "" && parse(t) == Some(v)
    ensures CallLlmSpec(apiKey, transcript, model, parse) == LlmRun(v, [ModelCall(ComposePrompt(transcript), FirstConfig)])
  {
  }

  /** `json.loads` sits inside the first `try`: a truthy first text that is not
      JSON leads to the retry, and what the retry gives is the result. */
  lemma MalformedFirstJsonRetries(apiKey: Option<string>, transcript: string,
                                  model: ModelCall -> CallOutcome, parse: string -> Option<Json>, t: string)
    requires HasKey(apiKey)
    requires model(ModelCall(ComposePrompt(transcript), FirstConfig)).CallReturned?
    requires ExtractText(model(ModelCall(ComposePrompt(transcript), FirstConfig)).resp) == Extracted(t)
    requires t != "" && parse(t).None?
    ensures var run := CallLlmSpec(apiKey, transcript, model, parse);
      var retry := ModelCall(ComposePrompt(transcript), RetryConfig);
      && run.calls == [ModelCall(ComposePrompt(transcript), FirstConfig), retry]
      && run.note == (match Attempt(model(retry), parse) case Parsed(v) => v case Failed(_) => StubJson())
  {
  }

  /** A first attempt that fails for any reason (the call raised, the text was
      missing, empty or not JSON) is followed by the retry, and a retry that
      parses gives the result. */
  lemma FailedFirstThenRetryParsed(apiKey: Option<string>, transcript: string,
                                   model: ModelCall -> CallOutcome, parse: string -> Option<Json>, w: Json)
    requires HasKey(apiKey)
    requires Attempt(model(ModelCall(ComposePrompt(transcript), FirstConfig)), parse).Failed?
    requires Attempt(model(ModelCall(ComposePrompt(transcript), RetryConfig)), parse) == Parsed(w)
    ensures CallLlmSpec(apiKey, transcript, model, parse) ==
      LlmRun(w, [ModelCall(ComposePrompt(transcript), FirstConfig), ModelCall(ComposePrompt(transcript), RetryConfig)])
  {
  }

  /** A first call that raises is retried. */
  lemma RaisedFirstCallRetries(apiKey: Option<string>, transcript: string,
                               model: ModelCall -> CallOutcome, parse: string -> Option<Json>)
    requires HasKey(apiKey)
    requires model(ModelCall(ComposePrompt(transcript), FirstConfig)).CallRaised?
    ensures CallLlmSpec(apiKey, transcript, model, parse).calls ==
      [ModelCall(ComposePrompt(transcript), FirstConfig), ModelCall(ComposePrompt(transcript), RetryConfig)]
  {
  }

  /** A first answer with no text to extract is retried. */
  lemma NoTextFirstAnswerRetries(apiKey: Option<string>, transcript: string,
                                 model: ModelCall -> CallOutcome, parse: string -> Option<Json>)
    requires HasKey(apiKey)
    requires model(ModelCall(ComposePrompt(transcript), FirstConfig)).CallReturned?
    requires ExtractText(model(ModelCall(ComposePrompt(transcript), FirstConfig)).resp).NoneExtracted?
    ensures CallLlmSpec(apiKey, transcript, model, parse).calls ==
      [ModelCall(ComposePrompt(transcript), FirstConfig), ModelCall(ComposePrompt(transcript), RetryConfig)]
  {
  }

  /** Two failed attempts, for whatever reasons, give exactly the stub. */
  lemma BothFailGiveStub(apiKey: Option<string>, transcript: string,
                         model: ModelCall -> CallOutcome, parse: string -> Option<Json>)
    requires Attempt(model(ModelCall(ComposePrompt(transcript), FirstConfig)), parse).Failed?
    requires Attempt(model(ModelCall(ComposePrompt(transcript), RetryConfig)), parse).Failed?
    ensures CallLlmSpec(apiKey, transcript, model, parse).note == StubJson()
  {
  }

  /** Errors never escape: a result other than the stub is the parse of a
      non-empty text some call returned. */
  lemma CallLlmResultOrigin(apiKey: Option<string>, transcript: string,
                            model: ModelCall -> CallOutcome, parse: string -> Option<Json>)
    ensures var run := CallLlmSpec(apiKey, transcript, model, parse);
      run.note == StubJson() ||
      exists k :: 0 <= k < |run.calls| && model(run.calls[k]).CallReturned? &&
        ExtractText(model(run.calls[k]).resp).Extracted? &&
        ExtractText(model(run.calls[k]).resp).text != "" &&
        parse(ExtractText(model(run.calls[k]).resp).text) == Some(run.note)
  {
    var run := CallLlmSpec(apiKey, transcript, model, parse);
    if run.note != StubJson() {
      var k :| 0 <= k < |run.calls| && Attempt(model(run.calls[k]), parse) == Parsed(run.note);
      assert model(run.calls[k]).CallReturned?;
    }
  }

  /** call_llm. */
  method CallLlm(apiKey: Option<string>, transcript: string,
                 model: ModelCall -> CallOutcome, parse: string -> Option<Json>)
    returns (note: Json, calls: seq<ModelCall>)
    ensures LlmRun(note, calls) == CallLlmSpec(apiKey, transcript, model, parse)
  {
    if !HasKey(apiKey) {
      return StubJson(), [];
    }
    calls := [];
    var cfg := FirstConfig;

    // first try
    var call := ModelCall(ComposePrompt(transcript), cfg);
    calls := calls + [call];
    var outcome := model(call);
    if outcome.CallReturned? {
      var txt := ExtractText(outcome.resp);
      if txt.Extracted? && txt.text != "" {
        var parsed := parse(txt.text);
        if parsed.Some? {
          return parsed.value, calls;
        }
        // json.loads raised: caught by the same except
      }
    }

    // retry once with the other configuration
    var cfgRetry := RetryConfig;
    call := ModelCall(ComposePrompt(transcript), cfgRetry);
    calls := calls + [call];
    outcome := model(call);
    if outcome.CallReturned? {
      var txt := ExtractText(outcome.resp);
      if txt.Extracted? && txt.text != "" {
        var parsed := parse(txt.text);
        if parsed.Some? {
          return parsed.value, calls;
        }
      }
    }
    return StubJson(), calls;
  }
}
