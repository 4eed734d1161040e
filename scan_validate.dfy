/** The single-image commands of src-tauri/src/commands/validate.rs:
    `validate_qr`, which classifies a generated image against the content it
    should hold, and the two scan commands built on `decode_qr_from_image`. */
module ScanValidate {
  import opened Wrappers
  import opened Text
  import opened ContentType
  import opened Decoding

  /** The three verdicts. */
  datatype Verdict = Pass | Warn | Fail {
    /** The `state` string the command returns. */
    function Name(): string {
      match this
      case Pass => "pass"
      case Warn => "warn"
      case Fail => "fail"
    }
  }

  datatype ValidationResult = ValidationResult(
    state: Verdict,
    decodedContent: Option<string>,
    contentMatch: bool,
    message: string,
    suggestions: seq<string>)

  /** Decoded text matches the expected content up to surrounding white space. */
  predicate SameContent(decoded: string, expected: string) {
    Trim(decoded) == Trim(expected)
  }

  /** Decoding the base64 payload and loading the image, with the error text
      each stage reports; a loaded image yields its grid outcome. */
  function LoadGrid(d: Decoder, imageData: string): (r: Result<GridOutcome, string>)
    ensures d.base64(StripDataUrl(imageData)).Failure? ==>
      r == Failure("Failed to decode base64: " + d.base64(StripDataUrl(imageData)).error)
    ensures r.Success? <==>
      d.base64(StripDataUrl(imageData)).Success? && d.image(d.base64(StripDataUrl(imageData)).value).Loaded?
  {
    match d.base64(StripDataUrl(imageData))
    case Failure(e) => Failure("Failed to decode base64: " + e)
    case Success(bytes) =>
      match d.image(bytes)
      case FormatUnknown(e) => Failure("Failed to read image format: " + e)
      case DecodeFailed(e) => Failure("Failed to decode image: " + e)
      case Loaded(g) => Success(g)
  }

  /** The verdict for a loaded image's grid outcome. */
  function Classify(g: GridOutcome, expected: string): (r: ValidationResult)
    ensures r.contentMatch <==> r.state == Pass
    ensures r.state == Pass <==> g.GridDecoded? && SameContent(g.text, expected)
    ensures r.state == Fail <==> g.NoGrid?
    ensures r.decodedContent.Some? <==> g.GridDecoded?
    ensures g.GridDecoded? ==> r.decodedContent == Some(g.text)
  {
    match g
    case NoGrid =>
      ValidationResult(Fail, None, false, "No QR code detected in image",
        ["Increase error correction level to H",
         "Reduce logo size if using one",
         "Ensure sufficient contrast between colors"])
    case GridDecoded(text) =>
      if SameContent(text, expected) then
        ValidationResult(Pass, Some(text), true, "QR code scans correctly", [])
      else
        ValidationResult(Warn, Some(text), false, "Decoded content differs from expected",
          ["Verify the QR content is correct"])
    case GridUndecodable(_) =>
      ValidationResult(Warn, None, false, "QR code detected but decode was unreliable",
        ["Increase error correction level",
         "Reduce customization complexity",
         "Ensure logo doesn't cover critical areas"])
  }

  /** `validate_qr`. */
  function ValidateQr(d: Decoder, imageData: string, expected: string): (r: Result<ValidationResult, string>)
    ensures r.Failure? <==> LoadGrid(d, imageData).Failure?
    ensures r.Success? ==> r.value == Classify(LoadGrid(d, imageData).value, expected)
  {
    match LoadGrid(d, imageData)
    case Failure(e) => Failure(e)
    case Success(g) => Success(Classify(g, expected))
  }

  /** A base64 or image failure is reported as an error, never as a verdict,
      and the error names the failing stage. */
  lemma LoadFailureIsError(d: Decoder, imageData: string, expected: string)
    requires d.base64(StripDataUrl(imageData)).Success?
    ensures var load := d.image(d.base64(StripDataUrl(imageData)).value);
      (load.FormatUnknown? ==> ValidateQr(d, imageData, expected) == Failure("Failed to read image format: " + load.error)) &&
      (load.DecodeFailed? ==> ValidateQr(d, imageData, expected) == Failure("Failed to decode image: " + load.error))
  {
  }

  /** No grid: fail, no content, the fixed message and the three fixed
      suggestions in order, whatever was expected. */
  lemma NoGridFails(expected: string)
    ensures var r := Classify(NoGrid, expected);
      r.state == Fail && !r.contentMatch && r.decodedContent == None &&
      r.message == "No QR code detected in image" &&
      r.suggestions == ["Increase error correction level to H",
                        "Reduce logo size if using one",
                        "Ensure sufficient contrast between colors"]
  {
  }

  /** A matching decode passes with no suggestions; a differing decode warns
      with the decoded text and one suggestion; an undecodable grid warns
      with three suggestions and no text. */
  lemma DecodedVerdicts(text: string, expected: string, e: string)
    ensures SameContent(text, expected) ==>
      Classify(GridDecoded(text), expected).suggestions == [] &&
      Classify(GridDecoded(text), expected).contentMatch
    ensures !SameContent(text, expected) ==>
      Classify(GridDecoded(text), expected).state == Warn &&
      |Classify(GridDecoded(text), expected).suggestions| == 1
    ensures Classify(GridUndecodable(e), expected).state == Warn &&
      Classify(GridUndecodable(e), expected).decodedContent == None &&
      |Classify(GridUndecodable(e), expected).suggestions| == 3
  {
  }

  /** Every verdict's state string is one of the three. */
  lemma StateNames(v: Verdict)
    ensures v.Name() in {"pass", "warn", "fail"}
  {
  }

  /** Surrounding white space on either side does not change a verdict. */
  lemma {:induction false} VerdictIgnoresPadding(text: string, expected: string)
    ensures Classify(GridDecoded(text), expected) == Classify(GridDecoded(text), Trim(expected))
    ensures Classify(GridDecoded(text), expected) == Classify(GridDecoded(Trim(text)), expected).(decodedContent := Some(text))
  {
    TrimIdempotent(expected);
    TrimIdempotent(text);
  }

  /** The scan command's result. */
  datatype ScanResult = ScanResult(success: bool, content: Option<string>, qrType: Option<string>, error: Option<string>)

  /** `decode_qr_from_image`: the first grid's text and its content type. */
  function DecodeQrFromImage(g: GridOutcome): (r: ScanResult)
    ensures r.success <==> r.content.Some?
    ensures r.success <==> r.qrType.Some?
    ensures r.success <==> r.error.None?
    ensures r.success <==> g.GridDecoded?
    ensures r.success ==> r.content == Some(g.text) && r.qrType == Some(DetectQrType(g.text).Tag())
  {
    match g
    case NoGrid => ScanResult(false, None, None, Some("No QR code found in image"))
    case GridUndecodable(e) => ScanResult(false, None, None, Some("Failed to decode QR: " + e))
    case GridDecoded(text) => ScanResult(true, Some(text), Some(DetectQrType(text).Tag()), None)
  }

  /** `scan_qr_from_data`: the same loading path as `validate_qr`. */
  function ScanQrFromData(d: Decoder, imageData: string): (r: Result<ScanResult, string>)
    ensures r.Failure? <==> LoadGrid(d, imageData).Failure?
    ensures r.Success? ==> r.value == DecodeQrFromImage(LoadGrid(d, imageData).value)
  {
    match LoadGrid(d, imageData)
    case Failure(e) => Failure(e)
    case Success(g) => Success(DecodeQrFromImage(g))
  }

  /** `scan_qr_from_file`: `file` is what opening the image file gave. */
  function ScanQrFromFile(file: Result<GridOutcome, string>): (r: Result<ScanResult, string>)
    ensures file.Failure? ==> r == Failure("Failed to open image: " + file.error)
    ensures file.Success? ==> r == Success(DecodeQrFromImage(file.value))
  {
    match file
    case Failure(e) => Failure("Failed to open image: " + e)
    case Success(g) => Success(DecodeQrFromImage(g))
  }

  /** A scan succeeds on an image exactly when validating that image against
      the text it holds passes. */
  lemma ScanAgreesWithValidate(d: Decoder, imageData: string)
    requires ScanQrFromData(d, imageData).Success? && ScanQrFromData(d, imageData).value.success
    ensures ValidateQr(d, imageData, ScanQrFromData(d, imageData).value.content.value).Success?
    ensures ValidateQr(d, imageData, ScanQrFromData(d, imageData).value.content.value).value.state == Pass
  {
  }
}
