/** Failure-compatible wrappers used across the model. */
module Wrappers {

  /** An optional value: a JavaScript `undefined`/`null` is `None`. */
  datatype Option<+T> = None | Some(value: T) {
    function GetOr(default: T): T {
      match this
      case Some(v) => v
      case None => default
    }
  }

  /** The value of a computation that may throw. */
  datatype Result<+R, +E> = Success(value: R) | Failure(error: E)
}
