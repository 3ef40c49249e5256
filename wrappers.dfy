/** Optional values, the model's stand-in for Python's `None`, and results that may carry an error. */
module Wrappers {

  datatype Option<+T> = None | Some(value: T) {

    /** The value, or `default` when there is none. */
    function GetOr(default: T): T {
      match this
      case Some(v) => v
      case None => default
    }
  }

  /** The value of an operation, or the message of the exception it raised. */
  datatype Result<+T> = Success(value: T) | Failure(error: string)
}
