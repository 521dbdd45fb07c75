/** Failure-carrying value types shared by the model. */
module Wrappers {

  /** A value that may be absent: Go's nil pointer or nil error. */
  datatype Option<+T> = None | Some(value: T)

  /** A value, or the error that prevented computing it: Go's `(T, error)` return. */
  datatype Result<+T, +E> = Success(value: T) | Failure(error: E)

  /** The outcome of a check whose only product is an error: Go's `error` return. */
  datatype Outcome<+E> = Pass | Fail(error: E)
}
