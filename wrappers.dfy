/** Option and Result values used for the error returns of the Go code. */
module Wrappers {

  datatype Option<+T> = None | Some(value: T)

  /** A Go `(value, error)` pair where exactly one side is meaningful. */
  datatype Result<+R, +E> = Success(value: R) | Failure(error: E)
}
