# card-scanner core, modelled in Dafny

card-scanner reads Iranian vehicle cards in two ways. In the browser, the VIN
scanner crops a photo to the band where the VIN sits, brightens it or raises
its contrast when needed, runs OCR on it and picks the VIN out of the text.
On the server, an upload endpoint sends the photo to a vision model (OpenAI
or Gemini), cleans the model's reply, parses it, and sanitizes it into a fixed
car-card record.

This project models the logic between those external engines:

- **VIN matching.** `extractVin` is a leftmost search for
  `\bNA[A-Z0-9]{15}\b`. Its word boundaries use the ASCII rules of the `\w`
  class.
- **Image preprocessing.**
  - The crop rectangle and canvas size.
  - The mean brightness of an RGBA buffer.
  - `enhanceImage`'s decision and its in-place pass over the byte buffer.
    This is a method on an `array<int>`. Stores into `Uint8ClampedArray` are
    written out exactly: clamped, then rounded half to even.
- **The scan button.** `handleScanVin` is a method from the view state and
  its collaborators to the new view state, plus a trace of what ran.
- **The record sanitizer.** `clamp` and `normalizeCarCardData`, both as a
  field-by-field specification and as the source's two passes over the
  confidence keys. The sanitizer's unit test appears as lemmas.
- **Reply clean-up.**
  - OpenAI: the fenced-block regular expression of `extractJson`, with
    JavaScript's leftmost, lazy matching worked out, and `parseContent`.
  - Gemini: the chain that trims and strips fences, its two error messages,
    and `extractResponseText`.
- **Dispatch.** `parseDataUrl`'s greedy regular expression and the choice of
  provider from `AI_PROVIDER`.
- **The upload route.** The guards checked in order, the data URL it builds,
  and the response envelope.

Modelling conventions:

- JavaScript values are a `JsValue` datatype; a thrown value is a `Thrown`.
- Environment variables are `Option<string>` parameters.
- These collaborators are function-typed parameters:
  - the SDK calls, Tesseract, the canvas steps (crop and enhance as files);
  - `JSON.parse` (`None` when it throws) and `JSON.stringify`;
  - the base64 encoder;
  - the string and object cases of `Number()`.
- `String.prototype.trim` and the regex class `\s` work on the ECMAScript
  whitespace table.

## Model

| member | source | states |
|---|---|---|
| VinMatcher.FirstVinFrom | app/components/VinScanner.tsx:49-50 | the scan from an index returns the first index at or after it where the pattern, with both word boundaries, matches; `None` exactly when there is none |
| VinMatcher.ExtractVin | app/components/VinScanner.tsx:47-52 | `null` exactly when no window matches; otherwise the 17 characters at the leftmost matching window |
| VinMatcher.ExtractVinShape | app/components/VinScanner.tsx:47-52 | a returned VIN has 17 characters, starts with "NA" and continues with 15 characters of `[A-Z0-9]` (I, O and Q included) |
| VinMatcher.FindsIsolatedVin | app/components/VinScanner.tsx:49 | a VIN-shaped run with no word character on either side is found, if no earlier match exists |
| VinMatcher.MatchesBetweenPunctuation | app/components/VinScanner.tsx:49 | spaces and punctuation are word boundaries |
| VinMatcher.AdmitsIOQ | app/components/VinScanner.tsx:48-49 | the pattern accepts I, O and Q, which the comment says it excludes |
| VinMatcher.PersianLetterIsBoundary | app/components/VinScanner.tsx:49 | a Persian letter next to the VIN does not block the match |
| VinMatcher.LowerCaseNeighbourBlocks | app/components/VinScanner.tsx:49 | a lower-case letter right before the window blocks the match |
| VinMatcher.UnderscoreNeighbourBlocks | app/components/VinScanner.tsx:49 | an underscore right after the window blocks the match |
| VinMatcher.OverlongRunHasNoMatch | app/components/VinScanner.tsx:49 | a text made only of more than 17 `[A-Z0-9]` characters yields no VIN, since every 17-character window has a word character beside it |
| VinMatcher.EighteenCharRunHasNoMatch | app/components/VinScanner.tsx:49 | the 18-character run "NAAM1234567890ABCD" yields no VIN |
| CropGeometry.VinRegion | app/components/VinScanner.tsx:176-179 | the crop is 90% of the width, centred (x = 0.05 W), and 35% of the height from 0.55 H; it stays inside the image |
| CropGeometry.CanvasExtent | app/components/VinScanner.tsx:181-182 | a fractional canvas size keeps its integer part |
| CropGeometry.CropCanvas | app/components/VinScanner.tsx:176-182 | the crop canvas is no larger than the crop band, so no larger than the image |
| CropGeometry.DegenerateImageGivesEmptyCanvas | app/components/VinScanner.tsx:181-200 | an image one pixel wide or two pixels high gives an empty canvas, and so no blob |
| CropGeometry.LargeEnoughImageGivesCanvas | app/components/VinScanner.tsx:181-182 | an image of at least 2 by 3 pixels gives a non-empty canvas |
| ImageStats.LumaInByteRange | app/components/VinScanner.tsx:64 | the luma weights sum to one: luma of bytes is in [0, 255], and a grey pixel's luma is its level |
| ImageStats.LumaSumBounds | app/components/VinScanner.tsx:62-67 | the luma sum of n pixels of bytes is between 0 and 255 n |
| ImageStats.BrightnessInUnitRange | app/components/VinScanner.tsx:62-74 | a non-empty byte buffer has a normalised brightness in [0, 1] |
| ImageStats.UniformGreySum | app/components/VinScanner.tsx:62-67 | a uniform grey buffer sums to its pixel count times its level |
| ImageStats.UniformGreyBrightness | app/components/VinScanner.tsx:62-74 | a uniform grey image has brightness level / 255 |
| ImageStats.AnalyzeBrightness | app/components/VinScanner.tsx:59-74 | the stepped loop over the buffer yields the mean luma over 255, and NaN (`None`) for an empty buffer |
| Enhancer.BrightnessFactor | app/components/VinScanner.tsx:107 | the brightness factor is positive exactly when brightness < 0.4, and 0 otherwise |
| Enhancer.ContrastFactor | app/components/VinScanner.tsx:108 | the contrast factor is positive exactly when contrast < 0.2, and 0 otherwise |
| Enhancer.NeedsEnhancement | app/components/VinScanner.tsx:102 | enhancement is needed exactly when one of the two factors is active |
| Enhancer.RoundHalfEven | app/components/VinScanner.tsx:113-124 | the rounding of a clamped-array store is within 1/2 of the value, at its floor or the next integer |
| Enhancer.Store | app/components/VinScanner.tsx:113-124 | a store into the clamped byte array lands in [0, 255]: 0 at or below 0, 255 at or above 255, and within 1/2 of the value in between |
| Enhancer.StoreKeepsBytes | app/components/VinScanner.tsx:113-124 | a byte value is stored unchanged |
| Enhancer.StoreMonotone | app/components/VinScanner.tsx:113-124 | a larger value never stores as a smaller byte |
| Enhancer.StretchLineOffset | app/components/VinScanner.tsx:120-122 | the contrast line moves a value away from 128 by the factor times its distance from 128 |
| Enhancer.ChannelInByteRange | app/components/VinScanner.tsx:110-125 | every channel the loop writes is a byte |
| Enhancer.StretchFixesMidGrey | app/components/VinScanner.tsx:120-124 | the stretch maps 128 to 128 |
| Enhancer.StretchMonotone | app/components/VinScanner.tsx:120-124 | the stretch is nondecreasing in the channel value |
| Enhancer.StretchMovesAwayFromMidGrey | app/components/VinScanner.tsx:120-124 | the stretch never lowers a channel at or above 128 and never raises one at or below 128 |
| Enhancer.BrightenNeverDarker | app/components/VinScanner.tsx:113-115 | the brightness step never lowers a channel, and keeps it at most 255 |
| Enhancer.BrightnessOnlyNeverDarker | app/components/VinScanner.tsx:112-125 | with only the brightness boost active, no channel decreases |
| Enhancer.BothBoostsCanDarken | app/components/VinScanner.tsx:107-125 | with both boosts active (brightness 0.39, contrast 0), channel 10 ends at 6, darker than it started |
| Enhancer.EnhancedKeepsAlphaAndRange | app/components/VinScanner.tsx:110-126 | the pass keeps the buffer length and every alpha entry, and yields bytes from bytes |
| Enhancer.EnhancedBrightnessOnlyNeverDarker | app/components/VinScanner.tsx:110-126 | with only the brightness boost, every entry of the enhanced buffer is at least the original |
| Enhancer.EnhancePixel | app/components/VinScanner.tsx:111-125 | one iteration of the loop sets R, G and B of one pixel to the enhanced channel of their old value, and leaves every other entry unchanged |
| Enhancer.EnhancePixels | app/components/VinScanner.tsx:110-126 | the in-place loop leaves the buffer equal to the enhanced buffer computed from the old one |
| Enhancer.EnhanceImageData | app/components/VinScanner.tsx:99-130 | the buffer is enhanced with the two factors when enhancement is needed, and untouched otherwise |
| ScanFlow.PreprocessedFile | app/components/VinScanner.tsx:234-242 | OCR gets the enhanced crop only when both steps succeed, and the original upload when either fails |
| ScanFlow.HandleScanVin | app/components/VinScanner.tsx:221-278 | no image: only the "upload first" error, nothing runs. Otherwise: the worker is created for "eng" iff start-up succeeds, OCR runs on the preprocessed file, the raw text is recorded, the VIN is set or the "No VIN found" error is, the worker is terminated whenever it was created, a thrown error's message (or "Failed to process image") is shown, and loading ends false |
| Schema.EmptyCard | lib/schema.ts:60-96 | well-formed; the constant of schema.ts:60-96, every field blank and every score 0 |
| Schema.Clamp | lib/schema.ts:98-104 | the result is in [0, 1]: non-finite gives 0, below 0 gives 0, above 1 gives 1, otherwise the number itself |
| Schema.CopiedFields | lib/schema.ts:111-129 | exactly the listed fields are produced |
| Schema.Scores | lib/schema.ts:132-142 | exactly the confidence keys are scored, every score is in [0, 1], and a blank field scores 0 |
| Schema.Normalized | lib/schema.ts:106-107 | a falsy or non-object input gives the empty card |
| Schema.NormalizedWellFormed | lib/schema.ts:106-145 | every sanitized card has exactly the card's keys and confidence keys (extra keys dropped), scores in [0, 1], and zero scores for blank fields |
| Schema.ClampEachScore | lib/schema.ts:132-135 | the first loop sets each key's score to the clamp of the model's value |
| Schema.ZeroBlankScores | lib/schema.ts:137-142 | the second loop zeroes exactly the scores whose field trims to "" and keeps the others |
| Schema.NormalizeCarCardData | lib/schema.ts:106-145 | the two passes yield exactly the field-by-field description `Normalized` |
| Schema.NormalizedCopiesStringFields | lib/schema.ts:111-129 | each field is the input's value when that is a string, and "" otherwise |
| Schema.NormalizedScores | lib/schema.ts:132-142 | a blank field scores 0; otherwise the score is the clamp of `confidence[key]`; a missing `confidence` object gives 0 |
| Schema.NormalizeFixesWellFormed | lib/schema.ts:106-145 | a well-formed card, as a JavaScript object, sanitizes to itself |
| Schema.NormalizeIdempotent | lib/schema.ts:106-145 | sanitizing twice gives the same card as sanitizing once |
| SchemaSample.SampleRecordFields | lib/normalizeCarCardData.test.ts:19-31 | the test record yields exactly the card's keys, keeps the VIN, Persian engine digits, model and two-script raw text, and blanks the missing colour |
| SchemaSample.SampleVinScoreCapped | lib/normalizeCarCardData.test.ts:32 | a VIN score of 1.2 becomes 1 |
| SchemaSample.SampleEngineScoreKept | lib/normalizeCarCardData.test.ts:33 | an in-range score of 0.9 is kept |
| SchemaSample.SampleModelScoreKept | lib/normalizeCarCardData.test.ts:34 | an in-range score of 0.6 is kept |
| SchemaSample.SampleColorScoreZero | lib/normalizeCarCardData.test.ts:35 | a missing colour scores 0 whatever score the model gave it (-0.1 in the test) |
| SchemaSample.SamplePlateScoreZero | lib/normalizeCarCardData.test.ts:36 | the plate, absent both as a field and as a score, scores 0 |
| OpenAiProvider.JsonTagLength | lib/providers/openai.ts:8 | the optional tag is 4 characters exactly when "json" in any ASCII case follows, and 0 otherwise; it holds no backtick |
| OpenAiProvider.WsRunEnd | lib/providers/openai.ts:8 | the greedy `\s*` stops at the first non-whitespace character |
| OpenAiProvider.FindFenced | lib/providers/openai.ts:8 | a match lies inside the text; its capture starts after the optional tag and the whitespace run, and ends at the closing fence |
| OpenAiProvider.FencePatternMatch | lib/providers/openai.ts:8 | the match is the leftmost one: it opens at the first fence and closes at the first fence that does not overlap it; there is none exactly when no two non-overlapping fences exist |
| OpenAiProvider.ExtractJson | lib/providers/openai.ts:7-13 | in every case the result has no whitespace at either end and is no longer than the text |
| OpenAiProvider.FencedReplyGivesBody | lib/providers/openai.ts:8-9 | prose, a fence tagged "json" (any case) or untagged before a `{`, a body and a closing fence give the trimmed body, whatever follows |
| OpenAiProvider.ProseBeforeObject | lib/providers/openai.ts:10-11 | when the text has no fenced block and no `{` before the given one, everything before that `{` is dropped and the rest trimmed |
| OpenAiProvider.PlainTextIsTrimmed | lib/providers/openai.ts:12 | when the text has no fenced block and no `{`, the whole text is trimmed |
| OpenAiProvider.EmptyFenceFallsBack | lib/providers/openai.ts:8-11 | an empty fenced block is falsy, so the object after it is found through its `{` |
| OpenAiProvider.ItemText | lib/providers/openai.ts:19-25 | a string item stays itself, an object with a string `text` gives that text, anything else gives "" |
| OpenAiProvider.ParseContent | lib/providers/openai.ts:15-29 | a string content is returned unchanged, and content that is neither a string nor an array gives "" |
| OpenAiProvider.ParseContentOfStrings | lib/providers/openai.ts:17-27 | an array of strings gives those strings joined by single spaces |
| OpenAiProvider.ParseContentLength | lib/providers/openai.ts:17-27 | an array of n items gives its item texts plus exactly n - 1 separating spaces |
| OpenAiProvider.Request | lib/providers/openai.ts:5-53 | the request uses `OPENAI_MODEL` or "gpt-4o-mini" when that is unset or empty, temperature 0, and passes the prompt and the data URL on unchanged |
| OpenAiProvider.JsonText | lib/providers/openai.ts:55-56 | the text handed to `JSON.parse` is trimmed |
| OpenAiProvider.ExtractWithOpenAi | lib/providers/openai.ts:31-64 | a missing key fails with "Missing OPENAI_API_KEY" before any call; a failed call propagates its error; unparsable text fails with "Model returned invalid JSON"; success happens exactly when the call succeeds and the text parses, and its card is the normalisation of the parsed reply, hence well-formed |
| OpenAiProvider.FencedReplyIsSanitized | lib/providers/openai.ts:54-63 | a reply with a `json` fenced block yields the sanitized value of the parsed, trimmed block body |
| OpenAiProvider.WellFormedReplyKept | lib/providers/openai.ts:54-63 | a reply that parses to a well-formed card returns that card unchanged |
| GeminiProvider.LetterRunEnd | lib/providers/gemini.ts:119 | the greedy `[a-zA-Z]*` stops at the first character that is not an ASCII letter |
| GeminiProvider.StripOpeningFence | lib/providers/gemini.ts:119 | text that does not start with a fence is unchanged; otherwise a suffix of it is kept |
| GeminiProvider.StripClosingFence | lib/providers/gemini.ts:119 | text that does not end with a fence is unchanged; a final line break and fence are removed together; a prefix is kept |
| GeminiProvider.CleanReply | lib/providers/gemini.ts:119 | the cleaned text has no whitespace at either end and is no longer than the raw text |
| GeminiProvider.FencedReplyCleaned | lib/providers/gemini.ts:119 | whitespace, a fence with a letter tag, a line break, a body, a line break and a fence clean to the trimmed body, whatever the body is |
| GeminiProvider.OpeningFenceStripped | lib/providers/gemini.ts:119 | the opening fence, its letter tag and one line break are removed, and only those |
| GeminiProvider.ClosingFenceStripped | lib/providers/gemini.ts:119 | a line break and a closing fence at the end are removed, and only those |
| GeminiProvider.UnfencedReplyTrimmed | lib/providers/gemini.ts:119 | text without a backtick is only trimmed |
| GeminiProvider.OpeningFenceOnlyAtStart | lib/providers/gemini.ts:119 | a fence that does not start the text is left in place |
| GeminiProvider.JsonFencedReplyCleaned | lib/providers/gemini.ts:119 | the usual "```json" block cleans to its trimmed body |
| GeminiProvider.ExtractResponseText | lib/providers/gemini.ts:78-90 | the checks run in order: a top-level `text` function, a top-level `text` string, a nested `response.text` function, a nested string, otherwise ""; a nullish response throws |
| GeminiProvider.TopLevelTextWins | lib/providers/gemini.ts:78-81 | a top-level string `text` wins whatever the nested response holds |
| GeminiProvider.Request | lib/providers/gemini.ts:5-117 | the request uses `GEMINI_MODEL` or "gemini-2.5-flash"; the caller's prompt unless it is missing or empty; the caller's schema unless it is falsy, the card schema otherwise; the image type and data unchanged; a JSON response |
| GeminiProvider.ReplyText | lib/providers/gemini.ts:118-119 | a missing `text` reads as ""; otherwise the cleaned text |
| GeminiProvider.EmptyReplyError | lib/providers/gemini.ts:120-124 | the message starts "Gemini returned an empty response", with ": " and the JSON of the candidates appended exactly when they are truthy |
| GeminiProvider.NonJsonError | lib/providers/gemini.ts:129 | the message is "Gemini returned non-JSON: " followed by a prefix of the text of at most 500 characters, the whole text when it is that short |
| GeminiProvider.ExtractWithGemini | lib/providers/gemini.ts:92-132 | a missing key fails with "Missing GEMINI_API_KEY" before any call; a failed call propagates; an empty cleaned text fails with the empty-response message; success happens exactly when the call succeeds and the cleaned, non-empty text parses, and its card is the normalisation of the parsed reply, hence well-formed |
| GeminiProvider.NonJsonReported | lib/providers/gemini.ts:125-130 | unparsable text fails with the non-JSON message built from the cleaned text |
| GeminiProvider.FencedReplyIsSanitized | lib/providers/gemini.ts:118-131 | a fenced `json` reply is cleaned, parsed and sanitized, and the fence never reaches the parser |
| GeminiProvider.BuiltInSchemaKeys | lib/providers/gemini.ts:54-68 | the built-in schema requires only card fields (besides `confidence`), and leaves out `vehicle_type`, `fuel` and `capacity` |
| Providers.ParseDataUrl | lib/providers/index.ts:6-12 | failure is "Invalid image data URL"; success splits the URL as "data:" + type + ";base64," + data, with a non-empty type and no marker left in the data |
| Providers.ParseDataUrlAccepts | lib/providers/index.ts:7-10 | a URL is accepted exactly when it starts with "data:" and has a ";base64," at index 6 or later |
| Providers.DataUrlRoundTrip | lib/providers/index.ts:7-11 | "data:" + m + ";base64," + b parses back to (m, b) for any non-empty m and any b without the marker |
| Providers.Base64HasNoMarker | app/api/extract/route.ts:28 | base64 text never contains ";base64," |
| Providers.ProviderName | lib/providers/index.ts:15 | the provider name defaults to "openai" when `AI_PROVIDER` is unset or empty, and is otherwise the variable lower-cased character by character |
| Providers.ProviderNameIgnoresCase | lib/providers/index.ts:15-23 | "Gemini", "GEMINI" and "OpenAI" select their providers |
| Providers.GeminiArgs | lib/providers/index.ts:20-21 | Gemini gets the URL's type and data, the extraction prompt and the card schema |
| Providers.ExtractFromImage | lib/providers/index.ts:14-30 | "gemini" without a key fails with "Missing GEMINI_API_KEY" before the URL is parsed, then a bad URL fails, then Gemini runs on its parts; "openai" without a key fails with "Missing OPENAI_API_KEY", otherwise OpenAI runs; any other name fails with "Unsupported AI_PROVIDER"; every card returned is well-formed |
| Providers.GeminiGetsImageParts | lib/providers/index.ts:16-21 | an upload-built URL reaches Gemini as its own type and data |
| Providers.GeminiRequestFromArgs | lib/providers/index.ts:21 | the prompt reaches Gemini's request unchanged, and the built-in card schema is asked for |
| ExtractRoute.GuardFailure | app/api/extract/route.ts:14-25 | a non-file entry gives "Image is required", then a type outside jpeg/png/webp gives "Unsupported file type", then a size above 5 MiB gives "File too large"; the upload passes exactly when all three checks pass |
| ExtractRoute.DataUrlOf | app/api/extract/route.ts:27-28 | the URL built for an upload starts with "data:" |
| ExtractRoute.Post | app/api/extract/route.ts:11-39 | a refused upload gets 400 with the guard's message; otherwise the extractor's card gets 200 and its error 500 with the error's message or "Unexpected error"; status 200 comes exactly with an `ok` body |
| ExtractRoute.RefusedUploadIgnoresExtractor | app/api/extract/route.ts:14-28 | a refused upload gets the same 400 answer whatever the encoder and the extractor would do |
| ExtractRoute.TypeCheckedBeforeSize | app/api/extract/route.ts:18-25 | an unsupported type is reported whatever the size |
| ExtractRoute.SizeLimitInclusive | app/api/extract/route.ts:8-25 | exactly 5 MiB passes, one byte more is too large |
| ExtractRoute.UploadUrlRoundTrip | app/api/extract/route.ts:28 | the URL built for an accepted upload splits back into the file's type and its base64 text |
| ExtractRoute.UploadReachesGemini | app/api/extract/route.ts:28-38 | with Gemini selected and keyed, the route answers 200 with Gemini's well-formed card for the upload's own type and bytes, or 500 with Gemini's error |

## Left out

- Browser I/O is not modelled: canvas drawing, `Image` loading, `toBlob`
  re-encoding, `File` construction and `URL.createObjectURL`. Crop and
  enhance enter `ScanFlow` only as results, an image file or a thrown value.
- Tesseract start-up, `recognize` and `terminate` are collaborators. So are
  the OpenAI and Gemini SDK calls, which take the modelled request. The
  `async` scheduling is not modelled.
- The JSX, `handleFileChange`, `page.tsx` and `layout.tsx` are not modelled.
  This covers the intermediate `loading` and cleared-state renders in the
  middle of `handleScanVin`: only the final state is stated.
- `analyzeImage`'s contrast is left out: its variance and `Math.sqrt` are
  floating-point work. It is an `Option<real>` input to
  `Enhancer.EnhanceImageData`.
- Arithmetic is on exact reals, not IEEE doubles. NaN (an empty buffer,
  `0 / 0`) is `None`, and it fails both threshold comparisons, as it does in
  the source.
- The exact `Number()` conversion of strings, arrays and objects is the
  `coerce` parameter. Numbers, booleans, `null` and `undefined` convert
  exactly.
- `JSON.parse` and `JSON.stringify` are parameters.
- The OpenAI system message (openai.ts:43) is a fixed text sent with every
  request. It is not a field of `OpenAiProvider.ChatRequest`.
- lib/providers/prompt.ts is not part of this model. The extraction prompt
  is a `prompt` parameter.
- Strings are sequences of code points. JavaScript strings are UTF-16, so
  for text outside the Basic Multilingual Plane, `GeminiProvider.NonJsonError`'s
  500-character excerpt is counted in code points rather than code units.
- `Providers.ProviderName` lower-cases ASCII letters only.
  `toLowerCase` also folds other letters. No non-ASCII letter lower-cases to
  a letter of "gemini" or "openai", so the choice of provider is the same.
- The route imports `extractFromImage` from `@/lib/extract`, which is not
  part of this model. `ExtractRoute.Post` takes the extractor as a
  parameter, and `ExtractRoute.UploadReachesGemini` instantiates it with
  `Providers.ExtractFromImage` from lib/providers/index.ts.
- The base64 encoder of route.ts:28 is a parameter. It is assumed only to
  emit base64 characters.
- Parts of the response envelope are not modelled:
  - `NextResponse.json` serialisation;
  - the optional `details` field of the failure type (schema.ts:148), which
    the route never sets.
- The model is value-based, so sharing is not modelled. `normalizeCarCardData`
  returns the shared `emptyCarCardData` object for a bad input and copies
  its `confidence` for a good one, and the model has no sharing to mutate.
  The property "`emptyCarCardData.confidence` is never mutated" therefore
  holds trivially and is not stated separately.
- `GeminiProvider.ExtractResponseText` is modelled, but `extractWithGemini`
  never calls it: it reads `response.text ?? ""` directly
  (gemini.ts:118), and so does the model.
- The content of the OpenAI reply is read with
  `response.choices[0]?.message?.content`. It is given directly as the
  result of the completion collaborator.
- `OPENAI_MODEL` and `GEMINI_MODEL` are read once, when the module loads. In
  the model they are read with the other environment variables.

## Notes on the source

- The comment at VinScanner.tsx:48 says the pattern excludes I, O and Q, but
  the pattern does not. The model follows the pattern; see
  `VinMatcher.AdmitsIOQ`.
- One might expect an image with brightness below 0.4 never to be made
  darker. That holds when only the brightness boost is active
  (`Enhancer.BrightnessOnlyNeverDarker`). When the contrast boost is active
  too, the stretch that runs after the boost can pull a dark channel lower
  than it started: `Enhancer.BothBoostsCanDarken` takes channel 10 to 6. The
  model follows the code.
- The Gemini schema requires 11 of the card's 14 scored fields. Under it,
  `vehicle_type`, `fuel` and `capacity` come back blank with zero scores
  (`GeminiProvider.BuiltInSchemaKeys`).
