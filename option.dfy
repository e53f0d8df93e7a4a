/** Optional values (missing fields, dict lookups) and results that may carry an error. */
module Optional {

  datatype Option<+T> = None | Some(value: T) {

    /** The value, or `default` when there is none: Python's `d.get(key, default)`. */
    function GetOr(default: T): T {
      match this
      case Some(v) => v
      case None => default
    }
  }

  /** The value of a step that either succeeds or stops with an error. */
  datatype Result<+T, +E> = Success(value: T) | Failure(error: E)
}
