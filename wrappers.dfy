/** Optional values and error-or-value results used by every module. */
module Wrappers {
  /** A value that may be absent (`undefined` in the service). */
  datatype Option<T> = None | Some(value: T) {
    function GetOr(default: T): T {
      match this
      case Some(v) => v
      case None => default
    }
  }

  /** The outcome of an operation that either returns a value or raises one of the service's exceptions. */
  datatype Result<T, E> = Ok(value: T) | Err(error: E)
}
