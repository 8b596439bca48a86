/**
 * The Gemini provider: the generate-content request, the clean-up of the
 * reply text before parsing, its two error rules, and the reply-text
 * accessor `extractResponseText`.
 */
module GeminiProvider {
  import opened Wrappers
  import opened JsValues
  import JsStrings
  import Schema

  const DefaultModel := "gemini-2.5-flash"
  const MissingKeyMessage := "Missing GEMINI_API_KEY"
  const EmptyReplyMessage := "Gemini returned an empty response"
  const NonJsonMessage := "Gemini returned non-JSON: "
  const NonJsonExcerpt := 500
  const ResponseMimeType := "application/json"

  /** The names the built-in response schema requires at the top level, in order. */
  const SchemaRequiredKeys: seq<string> := [
    "plate_number", "vin", "make", "model", "year", "color", "engine_number",
    "owner_name", "registration_date", "expiry_date", "country", "confidence", "raw_text"]

  // ---------------------------------------------------------------------
  // The clean-up chain: trim, drop  ^```[a-zA-Z]*\n?  and  \n?```$ , trim
  // ---------------------------------------------------------------------

  /** `[a-zA-Z]` */
  predicate IsAsciiLetter(c: char) {
    'a' <= c <= 'z' || 'A' <= c <= 'Z'
  }

  /** Where the greedy `[a-zA-Z]*` starting at `i` stops. */
  function LetterRunEnd(t: string, i: nat): (e: nat)
    requires i <= |t|
    decreases |t| - i
    ensures i <= e <= |t|
    ensures forall k :: i <= k < e ==> IsAsciiLetter(t[k])
    ensures e < |t| ==> !IsAsciiLetter(t[e])
  {
    if i < |t| && IsAsciiLetter(t[i]) then LetterRunEnd(t, i + 1) else i
  }

  /**
   * `replace(/^```[a-zA-Z]*\n?/, "")`: an opening fence, its language tag and
   * one line break are removed, only at the very start of the text.
   */
  function StripOpeningFence(t: string): (r: string)
    ensures !JsStrings.StartsWith(t, JsStrings.Fence) ==> r == t
    ensures |r| <= |t| && r == t[|t| - |r|..]
  {
    if JsStrings.StartsWith(t, JsStrings.Fence) then
      var e := LetterRunEnd(t, 3);
      if e < |t| && t[e] == '\n' then t[e + 1..] else t[e..]
    else t
  }

  /**
   * `replace(/\n?```$/, "")`: a closing fence at the very end is removed,
   * together with the line break before it when there is one (the leftmost
   * match takes the line break).
   */
  function StripClosingFence(t: string): (r: string)
    ensures !JsStrings.EndsWith(t, JsStrings.Fence) ==> r == t
    ensures JsStrings.EndsWith(t, "\n" + JsStrings.Fence) ==> r == t[..|t| - 4]
    ensures |r| <= |t| && r == t[..|r|]
  {
    if JsStrings.EndsWith(t, "\n" + JsStrings.Fence) then t[..|t| - 4]
    else if JsStrings.EndsWith(t, JsStrings.Fence) then t[..|t| - 3]
    else t
  }

  /** The text `extractWithGemini` parses. */
  function CleanReply(raw: string): (r: string)
    ensures JsStrings.Trimmed(r)
    ensures |r| <= |raw|
  {
    JsStrings.Trim(StripClosingFence(StripOpeningFence(JsStrings.Trim(raw))))
  }

  /**
   * A reply wrapped in a fenced block with any letter tag, one line break
   * after the opening fence and one before the closing fence, and any
   * whitespace around, cleans to its trimmed body, whatever the body is.
   */
  lemma FencedReplyCleaned(pre: string, tag: string, body: string, post: string)
    requires JsStrings.AllWs(pre) && JsStrings.AllWs(post)
    requires forall k :: 0 <= k < |tag| ==> IsAsciiLetter(tag[k])
    ensures CleanReply(pre + JsStrings.Fence + tag + "\n" + body + "\n" + JsStrings.Fence + post) == JsStrings.Trim(body)
  {
    var rest := body + "\n" + JsStrings.Fence;
    var fenced := JsStrings.Fence + tag + "\n" + rest;
    assert pre + JsStrings.Fence + tag + "\n" + body + "\n" + JsStrings.Fence + post == pre + fenced + post;
    FencedBlockTrimmed(tag, rest);
    JsStrings.TrimInverts(pre, fenced, post);
    OpeningFenceStripped(tag, rest);
    ClosingFenceStripped(body);
  }

  /** A block that opens and closes with a backtick has no whitespace to trim. */
  lemma FencedBlockTrimmed(tag: string, rest: string)
    requires JsStrings.EndsWith(rest, JsStrings.Fence)
    ensures JsStrings.Trimmed(JsStrings.Fence + tag + "\n" + rest)
  {
    var t := JsStrings.Fence + tag + "\n" + rest;
    assert t[0] == '`';
    assert t[|t| - 1] == rest[|rest| - 1] == rest[|rest| - 3..][2];
  }

  /** The opening fence, a letter tag and one line break go; the rest stays. */
  lemma OpeningFenceStripped(tag: string, rest: string)
    requires forall k :: 0 <= k < |tag| ==> IsAsciiLetter(tag[k])
    ensures StripOpeningFence(JsStrings.Fence + tag + "\n" + rest) == rest
  {
    var t := JsStrings.Fence + tag + "\n" + rest;
    assert t[..3] == JsStrings.Fence;
    assert forall k :: 3 <= k < 3 + |tag| ==> t[k] == tag[k - 3];
    assert t[3 + |tag|] == '\n';
    assert LetterRunEnd(t, 3) == 3 + |tag|;
    assert t[4 + |tag|..] == rest;
  }

  /** A line break and a closing fence at the end go; the body before them stays. */
  lemma ClosingFenceStripped(body: string)
    ensures StripClosingFence(body + "\n" + JsStrings.Fence) == body
  {
    var t := body + "\n" + JsStrings.Fence;
    assert t[|t| - 4..] == "\n" + JsStrings.Fence;
    assert t[..|t| - 4] == body;
  }

  /** A reply without any backtick is only trimmed. */
  lemma UnfencedReplyTrimmed(raw: string)
    requires '`' !in raw
    ensures CleanReply(raw) == JsStrings.Trim(raw)
  {
    var t := JsStrings.Trim(raw);
    JsStrings.TrimKeepsOut(raw, '`');
    assert !JsStrings.StartsWith(t, JsStrings.Fence) by {
      if |t| >= 3 { assert t[..3][0] == t[0]; }
    }
    assert !JsStrings.EndsWith(t, JsStrings.Fence) by {
      if |t| >= 3 { assert t[|t| - 3..][2] == t[|t| - 1]; }
    }
    JsStrings.TrimIdempotent(raw);
  }

  /** A fence that is not at the very start of the trimmed reply is left in place. */
  lemma OpeningFenceOnlyAtStart(t: string)
    requires |t| > 0 && t[0] != '`'
    ensures StripOpeningFence(t) == t
  {
    assert !JsStrings.StartsWith(t, JsStrings.Fence) by {
      if |t| >= 3 { assert t[..3][0] == t[0]; }
    }
  }

  // ---------------------------------------------------------------------
  // `extractResponseText`
  // ---------------------------------------------------------------------

  /**
   * `extractResponseText`: a `text` method of the response, then a `text`
   * string, then the same two on a nested `response`, and "" otherwise.
   * Reading a property of `null` or `undefined` throws, which is `None`.
   */
  function ExtractResponseText(response: JsValue): (r: Option<string>)
    ensures IsNullish(response) <==> r.None?
    ensures !IsNullish(response) && Get(response, "text").Func? ==> r == Some(Get(response, "text").result)
    ensures !IsNullish(response) && Get(response, "text").Str? ==> r == Some(Get(response, "text").s)
    ensures !IsNullish(response) && !Get(response, "text").Func? && !Get(response, "text").Str?
            && !IsNullish(Get(response, "response")) && Get(Get(response, "response"), "text").Func?
            ==> r == Some(Get(Get(response, "response"), "text").result)
    ensures !IsNullish(response) && !Get(response, "text").Func? && !Get(response, "text").Str?
            && !IsNullish(Get(response, "response")) && Get(Get(response, "response"), "text").Str?
            ==> r == Some(Get(Get(response, "response"), "text").s)
    ensures !IsNullish(response) && !Get(response, "text").Func? && !Get(response, "text").Str?
            && (IsNullish(Get(response, "response"))
                || (!Get(Get(response, "response"), "text").Func? && !Get(Get(response, "response"), "text").Str?))
            ==> r == Some("")
  {
    if IsNullish(response) then None
    else
      var text := Get(response, "text");
      if text.Func? then Some(text.result)
      else if text.Str? then Some(text.s)
      else
        var nested := Get(response, "response");
        var nestedText := if IsNullish(nested) then Undefined else Get(nested, "text");
        if nestedText.Func? then Some(nestedText.result)
        else if nestedText.Str? then Some(nestedText.s)
        else Some("")
  }

  /** Whatever the nested response holds, a top-level text wins. */
  lemma TopLevelTextWins(props: map<string, JsValue>, text: string, nested: JsValue)
    requires "text" in props && props["text"] == Str(text)
    ensures ExtractResponseText(Obj(props["response" := nested])) == Some(text)
  {
    assert Get(Obj(props["response" := nested]), "text") == Str(text);
  }

  // ---------------------------------------------------------------------
  // `extractWithGemini`
  // ---------------------------------------------------------------------

  /** The environment the provider reads: `GEMINI_API_KEY` and `GEMINI_MODEL`. */
  datatype GeminiEnv = GeminiEnv(apiKey: Option<string>, model: Option<string>)

  /** The `schema` argument: the exported card schema object itself, or any other value (`Undefined` when not passed). */
  datatype SchemaArg = CardSchemaObject | OtherSchema(value: JsValue)

  /** The named arguments. */
  datatype GeminiParams = GeminiParams(base64: string, mimeType: string, prompt: Option<string>, schema: SchemaArg)

  /** The response schema the request asks for: the built-in card schema, or another one the caller gave. */
  datatype ResponseSchema = BuiltInCardSchema | CallerSchema(value: JsValue)

  /** A generate-content request: one user turn of a text part and an inline image part. */
  datatype GenerateRequest = GenerateRequest(
    apiKey: string,
    model: string,
    text: string,
    inlineMimeType: string,
    inlineData: string,
    responseMimeType: string,
    responseSchema: ResponseSchema)

  /** What `extractWithGemini` reads of a response: its `text` and its `candidates`. */
  datatype GenerateResponse = GenerateResponse(text: Option<string>, candidates: JsValue)

  /**
   * The collaborators: the SDK call (resolving or rejecting), `JSON.parse`
   * (`None` when it throws), `JSON.stringify` of the candidates, and the
   * string and object cases of `Number()` used by the sanitizer.
   */
  datatype GeminiServices = GeminiServices(
    generate: GenerateRequest -> Result<GenerateResponse, Thrown>,
    parse: string -> Option<JsValue>,
    stringify: JsValue -> string,
    coerce: JsValue -> Num)

  /**
   * The request: the configured model or `gemini-2.5-flash`; the caller's
   * prompt unless it is missing or empty; the image passed on unchanged;
   * a JSON response under the caller's schema unless that is falsy, when the
   * built-in card schema is used.
   */
  function Request(apiKey: string, env: GeminiEnv, params: GeminiParams, defaultPrompt: string)
    : (req: GenerateRequest)
    ensures req.apiKey == apiKey && req.inlineMimeType == params.mimeType && req.inlineData == params.base64
    ensures req.responseMimeType == ResponseMimeType
    ensures req.model == (if Given(env.model) then env.model.value else DefaultModel)
    ensures req.text == (if Given(params.prompt) then params.prompt.value else defaultPrompt)
    ensures params.schema.CardSchemaObject? ==> req.responseSchema == BuiltInCardSchema
    ensures params.schema.OtherSchema? && !Truthy(params.schema.value) ==> req.responseSchema == BuiltInCardSchema
    ensures params.schema.OtherSchema? && Truthy(params.schema.value) ==> req.responseSchema == CallerSchema(params.schema.value)
  {
    GenerateRequest(
      apiKey, GivenOr(env.model, DefaultModel), GivenOr(params.prompt, defaultPrompt),
      params.mimeType, params.base64, ResponseMimeType,
      match params.schema
      case CardSchemaObject => BuiltInCardSchema
      case OtherSchema(v) => if Truthy(v) then CallerSchema(v) else BuiltInCardSchema)
  }

  /** The cleaned text of a response; a missing `text` reads as "". */
  function ReplyText(response: GenerateResponse): (r: string)
    ensures response.text.None? ==> r == ""
    ensures response.text.Some? ==> r == CleanReply(response.text.value)
  {
    CleanReply(match response.text case Some(s) => s case None => "")
  }

  /** The message for an empty reply: the candidates are appended when there are any. */
  function EmptyReplyError(candidates: JsValue, stringify: JsValue -> string): (m: string)
    ensures JsStrings.StartsWith(m, EmptyReplyMessage)
    ensures !Truthy(candidates) ==> m == EmptyReplyMessage
    ensures Truthy(candidates) ==> m == EmptyReplyMessage + ": " + stringify(candidates)
  {
    var details := if Truthy(candidates) then ": " + stringify(candidates) else "";
    assert (EmptyReplyMessage + details)[..|EmptyReplyMessage|] == EmptyReplyMessage;
    EmptyReplyMessage + details
  }

  /** The message for an unparsable reply: a fixed lead and at most 500 characters of the text. */
  function NonJsonError(text: string): (m: string)
    ensures JsStrings.StartsWith(m, NonJsonMessage)
    ensures |m| <= |NonJsonMessage| + NonJsonExcerpt
    ensures JsStrings.StartsWith(text, m[|NonJsonMessage|..])
    ensures |text| <= NonJsonExcerpt ==> m == NonJsonMessage + text
  {
    var m := NonJsonMessage + JsStrings.Prefix(text, NonJsonExcerpt);
    assert m[..|NonJsonMessage|] == NonJsonMessage;
    assert m[|NonJsonMessage|..] == JsStrings.Prefix(text, NonJsonExcerpt);
    m
  }

  /**
   * `extractWithGemini`: the key is checked before anything is sent; a
   * rejected request propagates; an empty cleaned text and an unparsable one
   * are errors; otherwise the parsed value, sanitized.
   */
  function ExtractWithGemini(env: GeminiEnv, params: GeminiParams, defaultPrompt: string, services: GeminiServices)
    : (r: Result<Schema.CarCardData, Thrown>)
    ensures !Given(env.apiKey) ==> r == Failure(ErrorObject(MissingKeyMessage))
    ensures Given(env.apiKey) && services.generate(Request(env.apiKey.value, env, params, defaultPrompt)).Failure?
            ==> r == Failure(services.generate(Request(env.apiKey.value, env, params, defaultPrompt)).error)
    ensures Given(env.apiKey) && services.generate(Request(env.apiKey.value, env, params, defaultPrompt)).Success?
            && ReplyText(services.generate(Request(env.apiKey.value, env, params, defaultPrompt)).value) == ""
            ==> r.Failure? && r.error.ErrorObject?
                && JsStrings.StartsWith(r.error.message, EmptyReplyMessage)
    ensures r.Success? <==>
      && Given(env.apiKey)
      && services.generate(Request(env.apiKey.value, env, params, defaultPrompt)).Success?
      && ReplyText(services.generate(Request(env.apiKey.value, env, params, defaultPrompt)).value) != ""
      && services.parse(ReplyText(services.generate(Request(env.apiKey.value, env, params, defaultPrompt)).value)).Some?
    ensures r.Success? ==> r.value == Schema.Normalized(
      services.parse(ReplyText(services.generate(Request(env.apiKey.value, env, params, defaultPrompt)).value)).value,
      services.coerce)
    ensures r.Success? ==> Schema.WellFormed(r.value)
  {
    if !Given(env.apiKey) then Failure(ErrorObject(MissingKeyMessage))
    else
      match services.generate(Request(env.apiKey.value, env, params, defaultPrompt))
      case Failure(e) => Failure(e)
      case Success(response) =>
        var text := ReplyText(response);
        if text == "" then Failure(ErrorObject(EmptyReplyError(response.candidates, services.stringify)))
        else
          match services.parse(text)
          case None => Failure(ErrorObject(NonJsonError(text)))
          case Some(parsed) =>
            Schema.NormalizedWellFormed(parsed, services.coerce);
            Success(Schema.Normalized(parsed, services.coerce))
  }

  /** Unparsable text is reported with a prefix of the cleaned text itself. */
  lemma NonJsonReported(env: GeminiEnv, params: GeminiParams, defaultPrompt: string, services: GeminiServices,
                        response: GenerateResponse)
    requires Given(env.apiKey)
    requires services.generate(Request(env.apiKey.value, env, params, defaultPrompt)) == Success(response)
    requires ReplyText(response) != "" && services.parse(ReplyText(response)).None?
    ensures ExtractWithGemini(env, params, defaultPrompt, services) == Failure(ErrorObject(NonJsonError(ReplyText(response))))
  {
  }

  /**
   * End to end: a fenced JSON reply is cleaned, parsed and sanitized; the
   * fence never reaches the parser.
   */
  lemma FencedReplyIsSanitized(env: GeminiEnv, params: GeminiParams, defaultPrompt: string, services: GeminiServices,
                               body: string, parsed: JsValue)
    requires Given(env.apiKey)
    requires services.generate(Request(env.apiKey.value, env, params, defaultPrompt)).Success?
    requires services.generate(Request(env.apiKey.value, env, params, defaultPrompt)).value.text
             == Some(JsStrings.Fence + "json\n" + body + "\n" + JsStrings.Fence)
    requires !JsStrings.AllWs(body)
    requires services.parse(JsStrings.Trim(body)) == Some(parsed)
    ensures ExtractWithGemini(env, params, defaultPrompt, services) == Success(Schema.Normalized(parsed, services.coerce))
  {
    var response := services.generate(Request(env.apiKey.value, env, params, defaultPrompt)).value;
    JsonFencedReplyCleaned(body);
    assert ReplyText(response) == JsStrings.Trim(body);
    JsStrings.TrimEmptyIff(body);
  }

  /** The usual `json`-tagged block, on its own. */
  lemma JsonFencedReplyCleaned(body: string)
    ensures CleanReply(JsStrings.Fence + "json\n" + body + "\n" + JsStrings.Fence) == JsStrings.Trim(body)
  {
    assert JsStrings.Fence + "json\n" + body + "\n" + JsStrings.Fence
        == "" + JsStrings.Fence + "json" + "\n" + body + "\n" + JsStrings.Fence + "";
    FencedReplyCleaned("", "json", body, "");
  }

  /**
   * The built-in schema requires every field of the card except three
   * (`vehicle_type`, `fuel`, `capacity`), which a reply under it therefore
   * leaves out and the sanitizer fills with "" and a zero score.
   */
  lemma BuiltInSchemaKeys()
    ensures forall k :: k in SchemaRequiredKeys && k != Schema.ConfidenceProperty ==> k in Schema.FieldKeys
    ensures "vehicle_type" in Schema.ConfidenceKeys && "vehicle_type" !in SchemaRequiredKeys
    ensures "fuel" in Schema.ConfidenceKeys && "fuel" !in SchemaRequiredKeys
    ensures "capacity" in Schema.ConfidenceKeys && "capacity" !in SchemaRequiredKeys
  {
  }
}
