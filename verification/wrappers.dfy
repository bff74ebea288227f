/** Optional values and error-carrying results used across the planner model. */
module Wrappers {

  /** A value that may be absent: a missing object field, a blank form input,
      `undefined` or `null` in the modelled code. */
  datatype Option<+T> = None | Some(value: T) {

    /** The carried value, or `default` when absent (the `x || default` idiom). */
    function GetOr(default: T): T {
      match this
      case Some(v) => v
      case None => default
    }
  }

  /** The outcome of an operation that can fail. */
  datatype Result<+T, +E> = Success(value: T) | Failure(error: E)
}
