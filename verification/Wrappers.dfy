/** Failure-carrying values used across the model. */
module Wrappers {

  /** A value that may be absent: Python's `None`, JavaScript's `null`. */
  datatype Option<+T> = None | Some(value: T)

  /** A computation that either succeeds or fails with an error value. */
  datatype Result<+T, +E> = Success(value: T) | Failure(error: E)
}
