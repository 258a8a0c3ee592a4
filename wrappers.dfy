/** Optional values and results with an error, as used throughout the model. */
module Wrappers {

  /** A value that may be absent: a SQL `NULL`, a missing JSON field, or JavaScript `null`. */
  datatype Option<+T> = None | Some(value: T) {

    /** The value, or `default` when absent (JavaScript's `x || default` on a nullable field). */
    function GetOr(default: T): T {
      match this
      case Some(v) => v
      case None => default
    }
  }

  /** The outcome of a validation or a request: a value, or the error that stopped it. */
  datatype Result<+T, +E> = Ok(value: T) | Err(error: E)
}
