/**
 * `TestUtils.TestForError`: runs a test and expects it to throw an exception
 * of a given type.
 *
 * The test's run is given as its outcome. The method's own outcome is
 * `Returned(e)` when it hands back the caught exception `e`, and `Threw(e)`
 * when `e` escapes to the caller.
 */
module TestUtilities {
  import opened Outcomes
  import Verification

  const NotCaughtPrefix: string := "Did not catch expected exception "

  /** The reason `TestForError` fails with when the test did not throw; it names the expected type. */
  function NotCaughtReason(expected: TypeName): (r: string)
    ensures |r| == |NotCaughtPrefix| + |expected| + 1
    ensures r[..|NotCaughtPrefix|] == NotCaughtPrefix && r[|r| - 1] == '.'
    ensures r[|NotCaughtPrefix|..|r| - 1] == expected
  {
    NotCaughtPrefix + expected + "."
  }

  /** Different expected types give different reasons, so the reason tells which type was missed. */
  lemma NotCaughtReasonNamesTheType(a: TypeName, b: TypeName)
    ensures NotCaughtReason(a) == NotCaughtReason(b) ==> a == b
  {
  }

  /**
   * The generic overload `TestForError<T>(test)`: a `catch (T e)` clause that
   * keeps the exception, then a `catch (Exception e)` clause that re-throws,
   * then `Verify.Fail` when nothing was caught.
   */
  function TestForError(expected: TypeName, test: Outcome<()>): (r: Outcome<Exception>)
    ensures test.Threw? && IsInstance(test.error, expected) ==> r == Returned(test.error)
    ensures test.Threw? && !IsInstance(test.error, expected) ==> r == Threw(test.error)
    ensures test.Returned? ==>
              r.Threw? && IsInstance(r.error, VerificationFailedName) &&
              r.error.message == NotCaughtReason(expected)
  {
    match test
    case Threw(e) =>
      if IsInstance(e, expected) then Returned(e)   // catch (T e)
      else Threw(e)                                  // catch (Exception e) { throw; }
    case Returned(_) =>
      var failure := Verification.Fail(NotCaughtReason(expected));
      Threw(failure.error)
  }

  /**
   * The overload `TestForError(exceptionType, test)`: one `catch (Exception e)`
   * clause that keeps the exception when `exceptionType.IsInstanceOfType(e)`
   * and re-throws it otherwise.
   */
  function TestForErrorOfType(exceptionType: TypeName, test: Outcome<()>): (r: Outcome<Exception>)
    ensures r.Returned? <==> test.Threw? && IsInstance(test.error, exceptionType)
    ensures r.Returned? ==> r.value == test.error
  {
    var caught: Option<Exception> :=
      match test
      case Threw(e) => if IsInstance(e, exceptionType) then Some(e) else None
      case Returned(_) => None;
    if test.Threw? && caught.None? then
      Threw(test.error)                              // throw;
    else if caught.None? then
      Threw(Verification.Fail(NotCaughtReason(exceptionType)).error)
    else
      Returned(caught.value)
  }

  /** Whenever `TestForError` returns, it returns the very exception the test threw, and it has the expected type. */
  lemma ReturnsOnlyTheCaughtException(expected: TypeName, test: Outcome<()>)
    ensures TestForError(expected, test).Returned? <==> test.Threw? && IsInstance(test.error, expected)
    ensures TestForError(expected, test).Returned? ==> TestForError(expected, test).value == test.error
  {
  }

  /** An exception that escapes `TestForError` is either the test's own exception or a verification failure. */
  lemma EscapingExceptionIsTheTestsOrAFailure(expected: TypeName, test: Outcome<()>)
    requires TestForError(expected, test).Threw?
    ensures test.Threw? ==> TestForError(expected, test).error == test.error
    ensures test.Returned? ==>
              TestForError(expected, test).error == Outcomes.VerificationFailed(NotCaughtReason(expected), None)
  {
  }

  /** The two overloads classify every outcome the same way. */
  lemma OverloadsAgree(expected: TypeName, test: Outcome<()>)
    ensures TestForError(expected, test) == TestForErrorOfType(expected, test)
  {
  }

  /**
   * `Verify.That` on a failure is caught as a verification failure that keeps the
   * message and the cause; `Verify.Fail` is caught the same way.
   */
  lemma VerificationFailuresAreCaught(cause: Option<Exception>, message: string, reason: string)
    ensures TestForError(VerificationFailedName, Verification.That(Verification.FailureResult(cause), message))
            == Returned(Outcomes.VerificationFailed(message, cause))
    ensures TestForError(VerificationFailedName, Verification.Fail(reason))
            == Returned(Outcomes.VerificationFailed(reason, None))
  {
  }

  /**
   * `TestForError<Exception>` catches whatever the test throws, and so does the
   * `Type` overload given any root type (`typeof(object)`, `typeof(Exception)`,
   * `typeof(ISerializable)`).
   */
  lemma CatchingExceptionCatchesEverything(root: TypeName, test: Outcome<()>)
    requires IsRootType(root) && test.Threw?
    ensures TestForError(ExceptionName, test) == Returned(test.error)
    ensures TestForErrorOfType(root, test) == Returned(test.error)
  {
  }

  /** A `Verify.That` on a success makes `TestForError` itself fail. */
  lemma SuccessIsNotAnError(message: string, expected: TypeName)
    ensures TestForError(expected, Verification.That(Verification.SuccessResult, message))
            == Threw(Outcomes.VerificationFailed(NotCaughtReason(expected), None))
  {
  }
}
