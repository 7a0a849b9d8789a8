/** Option and Result, used where the application returns None or raises. */
module Wrappers {

  /** Python's `None` or a present value. */
  datatype Option<+T> = None | Some(value: T) {

    /** The value when present, the default otherwise. */
    function GetOr(default: T): T {
      match this
      case Some(v) => v
      case None => default
    }
  }

  /** A value, or the exception that a call raises instead of returning. */
  datatype Result<+R, +E> = Success(value: R) | Failure(error: E)
}
