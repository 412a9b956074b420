/** Failure-compatible wrappers used throughout the model. */
module Wrappers {

  /** `None` stands for Go's nil where the source returns a nil slice or a nil error. */
  datatype Option<+T> = None | Some(value: T)

  /** A Go `(value, error)` pair where exactly one side is meaningful. */
  datatype Result<+T, +E> = Success(value: T) | Failure(error: E)
}
