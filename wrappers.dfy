/** Failure-carrying values used in place of Go's (value, error) pairs. */
module Wrappers {

  datatype Option<+T> = None | Some(value: T)

  /** A value or the error that stopped the operation producing it. */
  datatype Result<+T, +E> = Success(value: T) | Failure(error: E)

  /** The outcome of an operation that returns only an error (nil is Pass). */
  datatype Outcome<+E> = Pass | Fail(error: E)
}
