/** Failure-compatible wrappers used throughout the model. */
module Wrappers {

  /** A value that may be absent: Go's nil map, nil slice or missing element. */
  datatype Option<+T> = None | Some(value: T) {

    /** Returns the value encapsulated in Some, or `default` if None */
    function GetOr(default: T): T {
      match this
      case Some(v) => v
      case None => default
    }
  }

  /** A computation that either succeeds with a value or fails with an error */
  datatype Result<+R, +E> = Success(value: R) | Failure(error: E)
}
