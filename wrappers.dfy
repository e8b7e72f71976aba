/** Failure-compatible result types used across the model in place of Python's `None` and exceptions. */
module Wrappers {

  datatype Option<+T> = None | Some(value: T)

  datatype Result<+R, +E> = Success(value: R) | Failure(error: E)

  /** A result that carries no value: success, or the error that was raised. */
  datatype Outcome<+E> = Pass | Fail(error: E)
}
