/** Option and Result, used for Go's nil-able values and for the one operation that can fail. */
module Wrappers {

  /** A value that may be absent: a Go value that may be nil. */
  datatype Option<+T> = None | Some(value: T)

  /** The outcome of an operation that either yields a value or fails. */
  datatype Result<+R, +E> = Success(value: R) | Failure(error: E)
}
