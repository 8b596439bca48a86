/**
 * The upload endpoint `POST /api/extract`: the three guards on the `image`
 * form field in their order, the data URL it builds, and the response
 * envelope for success and for a thrown error.
 */
module ExtractRoute {
  import opened Wrappers
  import opened JsValues
  import JsStrings
  import Schema
  import Providers
  import GeminiProvider

  const MaxSize := 5 * 1024 * 1024
  const AllowedTypes: set<string> := {"image/jpeg", "image/png", "image/webp"}
  const MissingImageMessage := "Image is required"
  const UnsupportedTypeMessage := "Unsupported file type"
  const TooLargeMessage := "File too large"
  const UnexpectedErrorMessage := "Unexpected error"

  /** An uploaded file: its declared type, its size in bytes, its bytes. */
  datatype UploadFile = UploadFile(mimeType: string, size: nat, bytes: seq<int>)

  /** What `formData.get("image")` returns: nothing, a text value, or a file. */
  datatype FormEntry = NoEntry | TextEntry(text: string) | FileEntry(file: UploadFile)

  /** The JSON body: `{ ok: true, data }` or `{ ok: false, error: { message } }`. */
  datatype ResponseBody = Ok(data: Schema.CarCardData) | Error(message: string)

  /** A JSON response with its status. */
  datatype ApiResponse = ApiResponse(status: nat, body: ResponseBody)

  /** The first guard that refuses the entry, if any: presence, then type, then size. */
  function GuardFailure(entry: FormEntry): (m: Option<string>)
    ensures !entry.FileEntry? ==> m == Some(MissingImageMessage)
    ensures entry.FileEntry? && entry.file.mimeType !in AllowedTypes ==> m == Some(UnsupportedTypeMessage)
    ensures entry.FileEntry? && entry.file.mimeType in AllowedTypes && entry.file.size > MaxSize
            ==> m == Some(TooLargeMessage)
    ensures m.None? <==> entry.FileEntry? && entry.file.mimeType in AllowedTypes && entry.file.size <= MaxSize
  {
    if !entry.FileEntry? then Some(MissingImageMessage)
    else if entry.file.mimeType !in AllowedTypes then Some(UnsupportedTypeMessage)
    else if entry.file.size > MaxSize then Some(TooLargeMessage)
    else None
  }

  /** `data:${file.type};base64,${base64}` */
  function DataUrlOf(file: UploadFile, encode: seq<int> -> string): (url: string)
    ensures JsStrings.StartsWith(url, Providers.DataPrefix)
  {
    var url := Providers.DataPrefix + file.mimeType + Providers.Base64Marker + encode(file.bytes);
    assert url[..5] == Providers.DataPrefix;
    url
  }

  /**
   * `POST`: a refused upload is a 400 with the guard's message; otherwise
   * the extractor's card is a 200, and its thrown error a 500 with the
   * error's message or "Unexpected error". `encode` is the base64 encoder
   * and `extract` the extraction entry point.
   */
  function Post(entry: FormEntry, encode: seq<int> -> string, extract: string -> Result<Schema.CarCardData, Thrown>)
    : (resp: ApiResponse)
    ensures GuardFailure(entry).Some? ==> resp == ApiResponse(400, Error(GuardFailure(entry).value))
    ensures GuardFailure(entry).None? && extract(DataUrlOf(entry.file, encode)).Success?
            ==> resp == ApiResponse(200, Ok(extract(DataUrlOf(entry.file, encode)).value))
    ensures GuardFailure(entry).None? && extract(DataUrlOf(entry.file, encode)).Failure?
            ==> resp == ApiResponse(500, Error(MessageOr(extract(DataUrlOf(entry.file, encode)).error,
                                                         UnexpectedErrorMessage)))
    ensures resp.status == 200 <==> resp.body.Ok?
  {
    match GuardFailure(entry)
    case Some(message) => ApiResponse(400, Error(message))
    case None =>
      match extract(DataUrlOf(entry.file, encode))
      case Success(data) => ApiResponse(200, Ok(data))
      case Failure(e) => ApiResponse(500, Error(MessageOr(e, UnexpectedErrorMessage)))
  }

  /** A refused upload never reaches the encoder or the extractor. */
  lemma RefusedUploadIgnoresExtractor(entry: FormEntry,
                                      encode1: seq<int> -> string, extract1: string -> Result<Schema.CarCardData, Thrown>,
                                      encode2: seq<int> -> string, extract2: string -> Result<Schema.CarCardData, Thrown>)
    requires GuardFailure(entry).Some?
    ensures Post(entry, encode1, extract1) == Post(entry, encode2, extract2)
    ensures Post(entry, encode1, extract1).status == 400
  {
  }

  /** The type guard runs before the size guard: an unsupported type is reported whatever its size. */
  lemma TypeCheckedBeforeSize(file: UploadFile)
    requires file.mimeType !in AllowedTypes
    ensures GuardFailure(FileEntry(file)) == Some(UnsupportedTypeMessage)
  {
  }

  /** The size limit is inclusive: exactly 5 MiB passes, one byte more does not. */
  lemma SizeLimitInclusive(mimeType: string, bytes: seq<int>)
    requires mimeType in AllowedTypes
    ensures GuardFailure(FileEntry(UploadFile(mimeType, MaxSize, bytes))).None?
    ensures GuardFailure(FileEntry(UploadFile(mimeType, MaxSize + 1, bytes))) == Some(TooLargeMessage)
  {
  }

  /**
   * The URL built for an accepted upload splits back into the file's type
   * and its encoded bytes, whenever the encoder emits base64 text.
   */
  lemma UploadUrlRoundTrip(file: UploadFile, encode: seq<int> -> string)
    requires file.mimeType in AllowedTypes
    requires forall i :: 0 <= i < |encode(file.bytes)| ==> Providers.IsBase64Char(encode(file.bytes)[i])
    ensures Providers.ParseDataUrl(DataUrlOf(file, encode))
         == Success(Providers.DataUrl(file.mimeType, encode(file.bytes)))
  {
    Providers.Base64HasNoMarker(encode(file.bytes));
    Providers.DataUrlRoundTrip(file.mimeType, encode(file.bytes));
  }

  /**
   * End to end with the Gemini provider: an accepted upload reaches Gemini
   * as its own type and its encoded bytes, and the route answers 200 with
   * Gemini's (well-formed) card or 500 with Gemini's error.
   */
  lemma UploadReachesGemini(file: UploadFile, encode: seq<int> -> string,
                            env: Providers.ProviderEnv, prompt: string, services: Providers.ProviderServices)
    requires GuardFailure(FileEntry(file)).None?
    requires forall i :: 0 <= i < |encode(file.bytes)| ==> Providers.IsBase64Char(encode(file.bytes)[i])
    requires Providers.ProviderName(env.aiProvider) == Providers.GeminiName && Given(env.gemini.apiKey)
    ensures var gemini := GeminiProvider.ExtractWithGemini(
              env.gemini, Providers.GeminiArgs(Providers.DataUrl(file.mimeType, encode(file.bytes)), prompt),
              prompt, services.gemini);
      var resp := Post(FileEntry(file), encode, url => Providers.ExtractFromImage(env, url, prompt, services));
      && (gemini.Success? ==> resp == ApiResponse(200, Ok(gemini.value)) && Schema.WellFormed(gemini.value))
      && (gemini.Failure? ==> resp == ApiResponse(500, Error(MessageOr(gemini.error, UnexpectedErrorMessage))))
  {
    UploadUrlRoundTrip(file, encode);
    Providers.Base64HasNoMarker(encode(file.bytes));
    Providers.GeminiGetsImageParts(env, file.mimeType, encode(file.bytes), prompt, services);
  }
}
