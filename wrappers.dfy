// Small wrapper types used across the model: a nullable value and the
// outcome of an operation that may raise an exception.
module Wrappers {

  /** A value that may be absent (a C# null reference or an empty Nullable). */
  datatype Option<T> = None | Some(value: T)
  {
    predicate IsSome() { this.Some? }

    function GetOr(default: T): (r: T)
      ensures this.Some? ==> r == value
      ensures this.None? ==> r == default
    {
      match this
      case None => default
      case Some(v) => v
    }
  }

  /** The exception classes the modelled code raises. */
  datatype ErrorKind =
    | GeneralError        // System.Exception
    | ArgumentError       // System.ArgumentException
    | ArgumentNullError   // System.ArgumentNullException
    | NotSupportedError   // System.NotSupportedException
    | KeyNotFoundError    // System.Collections.Generic.KeyNotFoundException
    | NullReferenceError  // System.NullReferenceException
    | NotModelled         // a branch the model deliberately leaves out

  /** An exception: its class and its message. */
  datatype Error = Error(kind: ErrorKind, message: string)

  /** The NullReferenceException raised by dereferencing null. */
  const NullDereference: Error := Error(NullReferenceError, "Object reference not set to an instance of an object.")

  /** Either a value or the exception that was raised instead. */
  datatype Result<T> = Success(value: T) | Failure(error: Error)
  {
    predicate IsFailure() { this.Failure? }

    function PropagateFailure<U>(): (r: Result<U>)
      requires IsFailure()
      ensures r.Failure? && r.error == error
    {
      Failure(this.error)
    }

    function Extract(): (r: T)
      requires !IsFailure()
      ensures r == value
    {
      value
    }
  }
}
