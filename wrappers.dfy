/** Optional values and outcomes that may fail, used throughout the model. */
module Wrappers {

  datatype Option<+T> = None | Some(value: T) {
    /** PHP's `??`: the value when present, the fallback otherwise. */
    function GetOr(fallback: T): T {
      match this
      case Some(v) => v
      case None => fallback
    }
  }

  /** A PHP call that either returns a value or throws an exception. */
  datatype Result<+T, +E> = Success(value: T) | Failure(error: E)

  /** A PHP call returning nothing (`void`) that may throw. */
  datatype Outcome<+E> = Pass | Fail(error: E)
}
