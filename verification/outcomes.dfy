/**
 * Exceptions and the outcome of running a wrapped computation.
 *
 * The .NET exception hierarchy is represented by each exception carrying
 * its lineage: the simple name of its runtime type followed by the names of
 * its base types. A type test (`catch (T e)`, `Type.IsInstanceOfType`) then
 * becomes membership in that lineage. A lineage stops below the root types
 * every .NET exception shares: `System.Object`, `System.Exception` and the
 * interface `ISerializable` that `System.Exception` implements. Those match
 * every exception.
 */
module Outcomes {

  datatype Option<+T> = None | Some(value: T)

  /** The simple name of a .NET type (what `Type.Name` returns). */
  type TypeName = string

  const ObjectName: TypeName := "Object"
  const ISerializableName: TypeName := "ISerializable"
  const ExceptionName: TypeName := "Exception"
  const SystemExceptionName: TypeName := "SystemException"
  const VerificationFailedName: TypeName := "VerificationFailedException"
  const NotSupportedName: TypeName := "NotSupportedException"
  const InvalidOperationName: TypeName := "InvalidOperationException"

  /** An exception object: its type lineage, its message and its inner exception. */
  datatype Exception = Exception(lineage: seq<TypeName>, message: string, inner: Option<Exception>)

  /** A type every exception is an instance of: `Object`, `Exception` and the interface `Exception` implements. */
  predicate IsRootType(t: TypeName) {
    t == ObjectName || t == ExceptionName || t == ISerializableName
  }

  /** `t.IsInstanceOfType(e)`: the exception's runtime type is `t` or derives from it or implements it. */
  predicate IsInstance(e: Exception, t: TypeName) {
    IsRootType(t) || t in e.lineage
  }

  /** What running a wrapped computation did: return a value or throw an exception. */
  datatype Outcome<+T> = Returned(value: T) | Threw(error: Exception)

  /** A computation with no result (a C# `Action`). */
  type Action = () -> Outcome<()>

  /** `new VerificationFailedException(message, innerException)`; it derives directly from `Exception`. */
  function VerificationFailed(message: string, inner: Option<Exception>): (e: Exception)
    ensures IsInstance(e, VerificationFailedName) && IsInstance(e, ExceptionName)
    ensures !IsInstance(e, NotSupportedName)
    ensures e.message == message && e.inner == inner
  {
    Exception([VerificationFailedName, ExceptionName], message, inner)
  }

  /** `new NotSupportedException(message)`, a `SystemException`. */
  function NotSupported(message: string): (e: Exception)
    ensures IsInstance(e, NotSupportedName) && IsInstance(e, ExceptionName)
    ensures !IsInstance(e, VerificationFailedName)
    ensures e.message == message && e.inner == None
  {
    Exception([NotSupportedName, SystemExceptionName, ExceptionName], message, None)
  }
}
