/** Failure-carrying results used across the model. */
module Wrappers {

  /** A value that may be missing (Go's `nil` error, or an absent result). */
  datatype Option<+T> = None | Some(value: T)

  /** A value or the error that replaced it (Go's `(value, err)` pairs). */
  datatype Result<+T, +E> = Success(value: T) | Failure(error: E)
}
