/** Failure-compatible result types shared by every module of the model. */
module Wrappers {

  /** A value that may be absent: a Redis nil reply, a .NET null. */
  datatype Option<+T> = None | Some(value: T) {

    predicate IsFailure() {
      None?
    }

    function PropagateFailure<U>(): Option<U>
      requires None?
    {
      None
    }

    function Extract(): T
      requires Some?
    {
      value
    }
  }

  /** The outcome of an operation that either yields a value or raises. */
  datatype Result<+T, +E> = Success(value: T) | Failure(error: E)

  /** The outcome of an operation that yields nothing but may raise. */
  datatype Outcome<+E> = Pass | Fail(error: E)
}
