/** Optional values and results with an error message, used across the model. */
module Wrappers {

  /** A JavaScript value that may be `undefined` (or `null`). */
  datatype Option<+T> = None | Some(value: T) {
    function GetOr(default: T): T {
      match this
      case Some(v) => v
      case None => default
    }
  }

  /** The outcome of an operation that may throw an `Error` with a message. */
  datatype Result<+T> = Ok(value: T) | Err(message: string)
}
