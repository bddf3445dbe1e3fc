/** Outcome and Result datatypes standing in for the exceptions the pricing code throws. */
module Wrappers {

  /** The outcome of an operation that either completes or fails with an error. */
  datatype Outcome<+E> = Pass | Fail(error: E)

  /** A value on success, an error on failure. */
  datatype Result<+T, +E> = Success(value: T) | Failure(error: E)
}
