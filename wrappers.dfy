/** Failure-compatible wrappers used across the snapshot codec model. */
module Wrappers {

  /** An optional value: the Dafny counterpart of a possibly-nil pointer. */
  datatype Option<+T> = None | Some(value: T)

  /** A value or an error: the Dafny counterpart of Go's `(value, error)` pair. */
  datatype Result<+R, +E> = Success(value: R) | Failure(error: E)
}
