/** Optional values and the settled outcome of an asynchronous call. */
module Wrappers {

  /** A value that may be missing: JavaScript's `null` / `undefined`. */
  datatype Option<+T> = None | Some(value: T) {

    /** The carried value, or `default` when there is none. */
    function GetOr(default: T): T {
      match this
      case Some(v) => v
      case None => default
    }
  }

  /** How an awaited promise settles: resolved with a value or rejected with an error. */
  datatype Outcome<+T, +E> = Ok(value: T) | Err(error: E)
}
