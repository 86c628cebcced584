/** Optional values and results with an error, used for nullable columns, lookups and failures. */
module Wrappers {

  /** A value that may be missing: a nullable column, an `undefined` lookup result. */
  datatype Option<+T> = None | Some(value: T) {

    /** The value, or `default` when there is none (the `??` and `||` fallbacks of the source). */
    function GetOr(default: T): T {
      match this
      case Some(v) => v
      case None => default
    }
  }

  /** The outcome of an operation that can fail with an error of type E. */
  datatype Result<+T, +E> = Success(value: T) | Failure(error: E)
}
