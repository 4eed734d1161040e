/** The validation hook (src/hooks/useValidation.ts): it checks a rendered
    image against the content in the shared QR store and reports the verdict
    into the store's `validationState`. The `validate_qr` call is given as its
    outcome. */
module ValidationHook {
  import opened Wrappers
  import opened ScanValidate
  import Decoding

  /** The store's `ValidationState`. */
  datatype UiState = Idle | Validating | Judged(verdict: Verdict)

  /** What the `validate_qr` command hands back through `invoke`: its
      verdict, or its error as the rejection. */
  function InvokeValidate(d: Decoding.Decoder, imageData: string, expected: string): (o: Invoke<ValidationResult>)
    ensures o.Threw? <==> ValidateQr(d, imageData, expected).Failure?
    ensures o.Returned? ==> o.value == ValidateQr(d, imageData, expected).value
    ensures o.Threw? ==> o.error == ValidateQr(d, imageData, expected).error
  {
    match ValidateQr(d, imageData, expected)
    case Success(r) => Returned(r)
    case Failure(e) => Threw(e)
  }

  /** The result recorded when the call rejects. */
  function ErrorResult(error: string): (r: ValidationResult)
    ensures r.state == Fail && r.decodedContent.None? && !r.contentMatch
    ensures r.message == "Validation error: " + error && |r.suggestions| == 1
  {
    ValidationResult(Fail, None, false, "Validation error: " + error, ["Try generating the QR code again"])
  }

  /** The state the store shows after a call that reached the back end. */
  function StateAfter(outcome: Invoke<ValidationResult>): (s: UiState)
    ensures outcome.Returned? ==> s == Judged(outcome.value.state)
    ensures outcome.Threw? ==> s == Judged(Fail)
  {
    match outcome
    case Returned(r) => Judged(r.state)
    case Threw(_) => Judged(Fail)
  }

  /** The `result` kept after a call that reached the back end. */
  function ResultAfter(outcome: Invoke<ValidationResult>): (r: ValidationResult)
    ensures outcome.Returned? ==> r == outcome.value
    ensures outcome.Threw? ==> r == ErrorResult(outcome.error)
  {
    match outcome
    case Returned(r) => r
    case Threw(e) => ErrorResult(e)
  }

  /** The hook's state together with the store fields it reads and writes. */
  class Validation {
    var content: string
    var isValidating: bool
    var result: Option<ValidationResult>
    var validationState: UiState

    constructor(content0: string)
      ensures content == content0 && !isValidating && result.None? && validationState == Idle
    {
      content, isValidating, result, validationState := content0, false, None, Idle;
    }

    /** `validate(imageDataUrl)`; `outcome` is what the call would deliver.
        Empty content fails at once without a call; otherwise the state goes
        to `validating`, then to the reported verdict, and `isValidating` ends
        false. Only a verdict the back end returned is handed back. */
    method Validate(outcome: Invoke<ValidationResult>) returns (r: Option<ValidationResult>)
      modifies this`isValidating, this`result, this`validationState
      ensures content == "" ==>
        validationState == Judged(Fail) && r.None? &&
        isValidating == old(isValidating) && result == old(result)
      ensures content != "" ==>
        validationState == StateAfter(outcome) && result == Some(ResultAfter(outcome)) && !isValidating
      ensures content != "" ==> (r.Some? <==> outcome.Returned?)
      ensures r.Some? ==> r == Some(outcome.value)
    {
      if content == "" {
        validationState := Judged(Fail);
        return None;
      }
      isValidating := true;
      validationState := Validating;
      match outcome {
        case Returned(res) =>
          result := Some(res);
          validationState := Judged(res.state);
          r := Some(res);
        case Threw(e) =>
          validationState := Judged(Fail);
          result := Some(ErrorResult(e));
          r := None;
      }
      isValidating := false;
    }

    /** `resetValidation`. */
    method ResetValidation()
      modifies this`result, this`validationState
      ensures result.None? && validationState == Idle
    {
      result := None;
      validationState := Idle;
    }
  }

  /** Through the hook, the store shows `pass` exactly when the image decodes
      to the content up to surrounding white space, and `fail` for an image
      that cannot be loaded or holds no QR grid. */
  lemma ShownVerdict(d: Decoding.Decoder, imageData: string, expected: string)
    ensures var o := InvokeValidate(d, imageData, expected);
      (StateAfter(o) == Judged(Pass) <==>
         ScanValidate.LoadGrid(d, imageData).Success? &&
         ScanValidate.LoadGrid(d, imageData).value.GridDecoded? &&
         SameContent(ScanValidate.LoadGrid(d, imageData).value.text, expected)) &&
      (StateAfter(o) == Judged(Fail) <==>
         ScanValidate.LoadGrid(d, imageData).Failure? ||
         ScanValidate.LoadGrid(d, imageData).value.NoGrid?)
  {
  }

  /** The recorded result always agrees with the shown state, and claims a
      content match only for `pass`. */
  lemma ResultMatchesState(outcome: Invoke<ValidationResult>)
    requires outcome.Returned? ==> (outcome.value.contentMatch <==> outcome.value.state == Pass)
    ensures StateAfter(outcome) == Judged(ResultAfter(outcome).state)
    ensures ResultAfter(outcome).contentMatch <==> StateAfter(outcome) == Judged(Pass)
  {
  }

  /** Every verdict the command returns keeps that agreement. */
  lemma CommandResultsAgree(d: Decoding.Decoder, imageData: string, expected: string)
    ensures var o := InvokeValidate(d, imageData, expected);
      o.Returned? ==> (o.value.contentMatch <==> o.value.state == Pass)
  {
  }
}
