/**
 * `handleScanVin`: the scan button's sequence of preprocessing, OCR and
 * VIN extraction, with its fallback and error rules. The component state
 * it sets is a `ScannerView` value; the browser image work and Tesseract
 * are collaborators passed in as `ScanServices`.
 */
module ScanFlow {
  import opened Wrappers
  import opened JsValues
  import VinMatcher

  const NoImageMessage := "Please upload an image first"
  const NoVinMessage := "No VIN found in the image. Please ensure the VIN is clearly visible."
  const ProcessingFallbackMessage := "Failed to process image"
  const OcrLanguage := "eng"

  /** An uploaded or derived image file; only its identity matters here. */
  datatype ImageFile = ImageFile(name: string, mimeType: string, content: seq<int>)

  /** The state `handleScanVin` reads and sets through React setters. */
  datatype ScannerView = ScannerView(
    imageFile: Option<ImageFile>,
    loading: bool,
    rawOcrText: string,
    detectedVin: string,
    error: Option<string>)

  /**
   * The collaborators: `cropToVinRegion` and `enhanceImage` (resolving to a
   * new file or rejecting), Tesseract start-up (the dynamic import plus
   * `createWorker` for a language; `None` when a worker is ready),
   * `worker.recognize` and `worker.terminate`.
   */
  datatype ScanServices = ScanServices(
    crop: ImageFile -> Result<ImageFile, Thrown>,
    enhance: ImageFile -> Result<ImageFile, Thrown>,
    startWorker: string -> Option<Thrown>,
    recognize: ImageFile -> Result<string, Thrown>,
    terminate: Option<Thrown>)

  /** What a scan did besides setting state. */
  datatype ScanTrace = ScanTrace(
    ocrInput: Option<ImageFile>,
    workerLanguage: Option<string>,
    workerCreated: bool,
    workerTerminated: bool)

  /**
   * The file the OCR engine is given: the enhanced crop when both steps
   * succeed, and the ORIGINAL upload when either the crop or the
   * enhancement fails (never the bare crop).
   */
  function PreprocessedFile(original: ImageFile, services: ScanServices): (f: ImageFile)
    ensures services.crop(original).Failure? ==> f == original
    ensures services.crop(original).Success? && services.enhance(services.crop(original).value).Failure?
            ==> f == original
    ensures services.crop(original).Success? && services.enhance(services.crop(original).value).Success?
            ==> f == services.enhance(services.crop(original).value).value
  {
    match services.crop(original)
    case Failure(_) => original
    case Success(cropped) =>
      match services.enhance(cropped)
      case Failure(_) => original
      case Success(enhanced) => enhanced
  }

  /**
   * Clicking "Scan VIN". Without an image only the error is set and nothing
   * runs. Otherwise the view is reset, the image preprocessed (falling back
   * to the original), a worker started, the text recognised and recorded,
   * the VIN extracted or the "no VIN" error set, the worker terminated on
   * every path once created, any thrown error's message shown, and loading
   * cleared.
   */
  method HandleScanVin(view: ScannerView, services: ScanServices) returns (post: ScannerView, trace: ScanTrace)
    ensures view.imageFile.None? ==>
      post == view.(error := Some(NoImageMessage)) && trace == ScanTrace(None, None, false, false)
    ensures view.imageFile.Some? ==> post.imageFile == view.imageFile && !post.loading
    ensures trace.workerCreated <==> view.imageFile.Some? && services.startWorker(OcrLanguage).None?
    ensures trace.workerTerminated == trace.workerCreated
    ensures trace.workerLanguage.Some? ==> trace.workerLanguage.value == OcrLanguage
    ensures trace.ocrInput.Some? <==> trace.workerCreated
    ensures trace.workerCreated ==> trace.ocrInput == Some(PreprocessedFile(view.imageFile.value, services))
    // start-up failure: nothing recognised, the start-up error is shown
    ensures view.imageFile.Some? && !trace.workerCreated ==>
      post.rawOcrText == "" && post.detectedVin == "" &&
      post.error == Some(MessageOr(services.startWorker(OcrLanguage).value, ProcessingFallbackMessage))
    // recognition succeeded: the raw text is always recorded
    ensures trace.workerCreated && services.recognize(trace.ocrInput.value).Success? ==>
      var text := services.recognize(trace.ocrInput.value).value;
      && post.rawOcrText == text
      && post.detectedVin == (match VinMatcher.ExtractVin(text) case Some(v) => v case None => "")
      && (services.terminate.None? ==>
            post.error == if VinMatcher.ExtractVin(text).Some? then None else Some(NoVinMessage))
    // recognition failed: no text, the recognition error is shown
    ensures trace.workerCreated && services.recognize(trace.ocrInput.value).Failure? ==>
      && post.rawOcrText == "" && post.detectedVin == ""
      && (services.terminate.None? ==>
            post.error == Some(MessageOr(services.recognize(trace.ocrInput.value).error, ProcessingFallbackMessage)))
    // a failing terminate overrides whatever error the scan had
    ensures trace.workerCreated && services.terminate.Some? ==>
      post.error == Some(MessageOr(services.terminate.value, ProcessingFallbackMessage))
  {
    if view.imageFile.None? {
      post := view.(error := Some(NoImageMessage));
      trace := ScanTrace(None, None, false, false);
      return;
    }
    var imageFile := view.imageFile.value;

    var loading := true;
    var error: Option<string> := None;
    var detectedVin := "";
    var rawOcrText := "";

    // crop, then enhance; on any failure use the original upload
    var processedFile := imageFile;
    var cropped := services.crop(imageFile);
    if cropped.Success? {
      var enhanced := services.enhance(cropped.value);
      if enhanced.Success? {
        processedFile := enhanced.value;
      } else {
        processedFile := imageFile;
      }
    } else {
      processedFile := imageFile;
    }

    var started := services.startWorker(OcrLanguage);
    if started.Some? {
      // thrown before a worker exists: straight to the outer catch
      error := Some(MessageOr(started.value, ProcessingFallbackMessage));
      trace := ScanTrace(None, Some(OcrLanguage), false, false);
    } else {
      var thrown: Option<Thrown> := None;
      var recognized := services.recognize(processedFile);
      if recognized.Success? {
        var text := recognized.value;
        rawOcrText := text;
        var vin := VinMatcher.ExtractVin(text);
        if vin.Some? {
          detectedVin := vin.value;
        } else {
          error := Some(NoVinMessage);
        }
      } else {
        thrown := Some(recognized.error);
      }
      // finally: terminate the worker; an error it throws replaces the pending one
      if services.terminate.Some? {
        thrown := services.terminate;
      }
      if thrown.Some? {
        error := Some(MessageOr(thrown.value, ProcessingFallbackMessage));
      }
      trace := ScanTrace(Some(processedFile), Some(OcrLanguage), true, true);
    }
    loading := false;
    post := ScannerView(view.imageFile, loading, rawOcrText, detectedVin, error);
  }
}
