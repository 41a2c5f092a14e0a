/** Option and Result values shared by the gateway model. */
module Wrappers {

  /** A Go value that may be nil (None) or present (Some). */
  datatype Option<+T> = None | Some(value: T)

  /** A Go `(value, error)` pair in which exactly one side is meaningful. */
  datatype Result<+T, +E> = Success(value: T) | Failure(error: E)
}
