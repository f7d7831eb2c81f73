/** Swift's optionals and thrown errors, as values. */
module Wrappers {

  /** A Swift optional: `nil` or a wrapped value. */
  datatype Option<+T> = None | Some(value: T) {

    /** The wrapped value, or `default` for `nil` (Swift's `??`). */
    function GetOr(default: T): T {
      match this
      case Some(v) => v
      case None => default
    }
  }

  /** The outcome of a throwing call: the value it returned or the error it threw. */
  datatype Result<+R, +E> = Success(value: R) | Failure(error: E)
}
