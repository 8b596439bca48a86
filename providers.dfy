/**
 * `extractFromImage`: splitting the image data URL, choosing the provider
 * from the environment, and the key checks made before either provider is
 * called.
 */
module Providers {
  import opened Wrappers
  import opened JsValues
  import JsStrings
  import Schema
  import OpenAiProvider
  import GeminiProvider

  const DataPrefix := "data:"
  const Base64Marker := ";base64,"
  const InvalidDataUrlMessage := "Invalid image data URL"
  const UnsupportedProviderMessage := "Unsupported AI_PROVIDER"
  const DefaultProvider := "openai"
  const GeminiName := "gemini"
  const OpenAiName := "openai"

  /** The two parts of an image data URL. */
  datatype DataUrl = DataUrl(mimeType: string, base64: string)

  // ---------------------------------------------------------------------
  // `parseDataUrl`:  /^data:(.+);base64,(.*)$/s
  // ---------------------------------------------------------------------

  /**
   * With the `s` flag `.` matches every character, and the greedy `(.+)`
   * extends to the LAST `;base64,` that leaves it at least one character.
   */
  function ParseDataUrl(url: string): (r: Result<DataUrl, Thrown>)
    ensures r.Failure? ==> r.error == ErrorObject(InvalidDataUrlMessage)
    ensures r.Success? ==> url == DataPrefix + r.value.mimeType + Base64Marker + r.value.base64
    ensures r.Success? ==> |r.value.mimeType| > 0
    ensures r.Success? ==> forall j :: !JsStrings.OccursAt(r.value.base64, Base64Marker, j)
  {
    match JsStrings.LastIndexOf(url, Base64Marker)
    case Some(k) =>
      if JsStrings.StartsWith(url, DataPrefix) && k >= 6 then
        var d := DataUrl(url[5..k], url[k + 8..]);
        MarkerAfterLast(url, k, d.base64);
        assert url == url[..5] + url[5..k] + url[k..k + 8] + url[k + 8..];
        Success(d)
      else Failure(ErrorObject(InvalidDataUrlMessage))
    case None => Failure(ErrorObject(InvalidDataUrlMessage))
  }

  /** No marker occurs after the last one, so none occurs in the text that follows it. */
  lemma MarkerAfterLast(url: string, k: nat, rest: string)
    requires k + 8 <= |url| && rest == url[k + 8..]
    requires forall j :: k < j ==> !JsStrings.OccursAt(url, Base64Marker, j)
    ensures forall j :: !JsStrings.OccursAt(rest, Base64Marker, j)
  {
    forall j ensures !JsStrings.OccursAt(rest, Base64Marker, j) {
      if 0 <= j && j + 8 <= |rest| {
        assert rest[j..j + 8] == url[k + 8 + j..k + 8 + j + 8];
        assert !JsStrings.OccursAt(url, Base64Marker, k + 8 + j);
      }
    }
  }

  /** The URL is accepted exactly when it starts with `data:` and has a marker after a non-empty type. */
  lemma ParseDataUrlAccepts(url: string)
    ensures ParseDataUrl(url).Success? <==>
      JsStrings.StartsWith(url, DataPrefix) && exists k :: 6 <= k && JsStrings.OccursAt(url, Base64Marker, k)
  {
    var last := JsStrings.LastIndexOf(url, Base64Marker);
    if JsStrings.StartsWith(url, DataPrefix) && exists k :: 6 <= k && JsStrings.OccursAt(url, Base64Marker, k) {
      var k :| 6 <= k && JsStrings.OccursAt(url, Base64Marker, k);
      assert last.Some?;
      assert k <= last.value;
    }
  }

  /**
   * The URL the upload route builds parses back into its two parts, provided
   * the encoded data holds no marker (base64 text never does).
   */
  lemma DataUrlRoundTrip(mimeType: string, base64: string)
    requires |mimeType| > 0
    requires forall j :: !JsStrings.OccursAt(base64, Base64Marker, j)
    ensures ParseDataUrl(DataPrefix + mimeType + Base64Marker + base64) == Success(DataUrl(mimeType, base64))
  {
    var url := DataPrefix + mimeType + Base64Marker + base64;
    var k := 5 + |mimeType|;
    assert url[..5] == DataPrefix;
    assert url[5..k] == mimeType;
    assert url[k..k + 8] == Base64Marker;
    assert url[k + 8..] == base64;
    assert JsStrings.OccursAt(url, Base64Marker, k);
    forall j | k < j
      ensures !JsStrings.OccursAt(url, Base64Marker, j)
    {
      if j + 8 <= |url| {
        if j < k + 8 {
          assert url[j] == Base64Marker[j - k];
          assert url[j..j + 8][0] == url[j];
        } else {
          assert url[j..j + 8] == base64[j - k - 8..j - k];
          assert !JsStrings.OccursAt(base64, Base64Marker, j - k - 8);
        }
      }
    }
    var last := JsStrings.LastIndexOf(url, Base64Marker);
    assert last == Some(k);
  }

  /** The characters of base64 text: letters, digits, `+`, `/` and `=`. */
  predicate IsBase64Char(c: char) {
    'A' <= c <= 'Z' || 'a' <= c <= 'z' || '0' <= c <= '9' || c == '+' || c == '/' || c == '='
  }

  /** Base64 text never contains the marker, which starts with `;`. */
  lemma Base64HasNoMarker(base64: string)
    requires forall i :: 0 <= i < |base64| ==> IsBase64Char(base64[i])
    ensures forall j :: !JsStrings.OccursAt(base64, Base64Marker, j)
  {
    forall j ensures !JsStrings.OccursAt(base64, Base64Marker, j) {
      if 0 <= j && j + 8 <= |base64| {
        assert base64[j..j + 8][0] == base64[j];
      }
    }
  }

  // ---------------------------------------------------------------------
  // `extractFromImage`
  // ---------------------------------------------------------------------

  /** The environment: `AI_PROVIDER` and each provider's key and model. */
  datatype ProviderEnv = ProviderEnv(
    aiProvider: Option<string>,
    openAi: OpenAiProvider.OpenAiEnv,
    gemini: GeminiProvider.GeminiEnv)

  /** The collaborators of both providers. */
  datatype ProviderServices = ProviderServices(
    openAi: OpenAiProvider.OpenAiServices,
    gemini: GeminiProvider.GeminiServices)

  /** `(process.env.AI_PROVIDER || "openai").toLowerCase()` */
  function ProviderName(aiProvider: Option<string>): (name: string)
    ensures !Given(aiProvider) ==> name == DefaultProvider
    ensures Given(aiProvider) ==> |name| == |aiProvider.value|
    ensures Given(aiProvider) ==> forall i :: 0 <= i < |name| ==> name[i] == JsStrings.LowerChar(aiProvider.value[i])
  {
    JsStrings.LowerAscii(GivenOr(aiProvider, DefaultProvider))
  }

  /** The choice ignores letter case. */
  lemma ProviderNameIgnoresCase()
    ensures ProviderName(Some("Gemini")) == GeminiName && ProviderName(Some("GEMINI")) == GeminiName
    ensures ProviderName(Some("OpenAI")) == OpenAiName
  {
  }

  /** The arguments `extractFromImage` gives Gemini: the URL's parts, the extraction prompt, the card schema. */
  function GeminiArgs(parts: DataUrl, prompt: string): (params: GeminiProvider.GeminiParams)
    ensures params.base64 == parts.base64 && params.mimeType == parts.mimeType
    ensures params.prompt == Some(prompt) && params.schema == GeminiProvider.CardSchemaObject
  {
    GeminiProvider.GeminiParams(parts.base64, parts.mimeType, Some(prompt), GeminiProvider.CardSchemaObject)
  }

  /**
   * `extractFromImage`: Gemini's key is checked before the URL is split;
   * OpenAI's before the request; any other provider name is refused.
   */
  function ExtractFromImage(env: ProviderEnv, imageDataUrl: string, prompt: string, services: ProviderServices)
    : (r: Result<Schema.CarCardData, Thrown>)
    ensures ProviderName(env.aiProvider) == GeminiName && !Given(env.gemini.apiKey)
            ==> r == Failure(ErrorObject(GeminiProvider.MissingKeyMessage))
    ensures ProviderName(env.aiProvider) == GeminiName && Given(env.gemini.apiKey)
            && ParseDataUrl(imageDataUrl).Failure?
            ==> r == Failure(ErrorObject(InvalidDataUrlMessage))
    ensures ProviderName(env.aiProvider) == GeminiName && Given(env.gemini.apiKey)
            && ParseDataUrl(imageDataUrl).Success?
            ==> r == GeminiProvider.ExtractWithGemini(
                       env.gemini, GeminiArgs(ParseDataUrl(imageDataUrl).value, prompt), prompt, services.gemini)
    ensures ProviderName(env.aiProvider) == OpenAiName && !Given(env.openAi.apiKey)
            ==> r == Failure(ErrorObject(OpenAiProvider.MissingKeyMessage))
    ensures ProviderName(env.aiProvider) == OpenAiName
            ==> r == OpenAiProvider.ExtractWithOpenAi(env.openAi, prompt, imageDataUrl, services.openAi)
    ensures ProviderName(env.aiProvider) != GeminiName && ProviderName(env.aiProvider) != OpenAiName
            ==> r == Failure(ErrorObject(UnsupportedProviderMessage))
    ensures r.Success? ==> Schema.WellFormed(r.value)
  {
    var provider := ProviderName(env.aiProvider);
    if provider == GeminiName then
      if !Given(env.gemini.apiKey) then Failure(ErrorObject(GeminiProvider.MissingKeyMessage))
      else
        match ParseDataUrl(imageDataUrl)
        case Failure(e) => Failure(e)
        case Success(parts) =>
          GeminiProvider.ExtractWithGemini(env.gemini, GeminiArgs(parts, prompt), prompt, services.gemini)
    else if provider == OpenAiName then
      if !Given(env.openAi.apiKey) then Failure(ErrorObject(OpenAiProvider.MissingKeyMessage))
      else OpenAiProvider.ExtractWithOpenAi(env.openAi, prompt, imageDataUrl, services.openAi)
    else Failure(ErrorObject(UnsupportedProviderMessage))
  }

  /**
   * With Gemini chosen and its key set, an upload-built URL reaches Gemini
   * as its own type and data, with the extraction prompt and the card schema.
   */
  lemma GeminiGetsImageParts(env: ProviderEnv, mimeType: string, base64: string, prompt: string,
                             services: ProviderServices)
    requires ProviderName(env.aiProvider) == GeminiName && Given(env.gemini.apiKey)
    requires |mimeType| > 0 && forall j :: !JsStrings.OccursAt(base64, Base64Marker, j)
    ensures ExtractFromImage(env, DataPrefix + mimeType + Base64Marker + base64, prompt, services)
         == GeminiProvider.ExtractWithGemini(env.gemini, GeminiArgs(DataUrl(mimeType, base64), prompt), prompt,
                                             services.gemini)
  {
    DataUrlRoundTrip(mimeType, base64);
  }

  /**
   * The prompt reaches Gemini's request unchanged, and the request asks for
   * the built-in card schema.
   */
  lemma GeminiRequestFromArgs(apiKey: string, env: GeminiProvider.GeminiEnv, parts: DataUrl, prompt: string)
    requires prompt != ""
    ensures var req := GeminiProvider.Request(apiKey, env, GeminiArgs(parts, prompt), prompt);
      && req.text == prompt && req.inlineMimeType == parts.mimeType && req.inlineData == parts.base64
      && req.responseSchema == GeminiProvider.BuiltInCardSchema
  {
  }
}
