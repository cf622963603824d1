/**
 * `Verify`: turns a validation result into "return normally" or an exception.
 *
 * The validation library's result is reduced to the three shapes `That`
 * distinguishes: a success, a failure with an optional cause, and any other
 * result subtype (named by its assembly-qualified type name).
 */
module Verification {
  import opened Outcomes

  datatype ValidationResult =
    | SuccessResult
    | FailureResult(cause: Option<Exception>)
    | OtherResult(assemblyQualifiedName: string)

  /** The message `That` uses when the caller gives none. */
  const DefaultFailureMessage: string := "Verification failed."

  /**
   * `Verify.That(result, failureMessage)`: a success returns, a failure throws
   * a verification failure carrying the message and the failure's cause, and
   * an unknown result kind throws `NotSupportedException`.
   */
  function That(result: ValidationResult, failureMessage: string): (r: Outcome<()>)
    ensures r.Returned? <==> result.SuccessResult?
    ensures r.Threw? && IsInstance(r.error, VerificationFailedName) <==> result.FailureResult?
    ensures result.FailureResult? ==>
              r.error.message == failureMessage && r.error.inner == result.cause
    ensures result.OtherResult? ==>
              IsInstance(r.error, NotSupportedName) && r.error.message == result.assemblyQualifiedName
  {
    match result
    case SuccessResult => Returned(())
    case FailureResult(cause) => Threw(VerificationFailed(failureMessage, cause))
    case OtherResult(name) => Threw(NotSupported(name))
  }

  /** `Verify.That(result)` with the default message. */
  function ThatWithDefaultMessage(result: ValidationResult): (r: Outcome<()>)
    ensures result.FailureResult? ==> r.Threw? && r.error.message == "Verification failed."
    ensures result.SuccessResult? ==> r == Returned(())
  {
    That(result, DefaultFailureMessage)
  }

  /** `Verify.Fail(reason)`: never returns; always throws a verification failure with `reason`. */
  function Fail(reason: string): (r: Outcome<()>)
    ensures r.Threw?
    ensures IsInstance(r.error, VerificationFailedName) && !IsInstance(r.error, NotSupportedName)
    ensures r.error.message == reason && r.error.inner == None
  {
    Threw(VerificationFailed(reason, None))
  }
}
