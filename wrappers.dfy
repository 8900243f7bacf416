/** Optional values (Kotlin's nullable types) and results that may carry an error. */
module Wrappers {

  /** A Kotlin `T?`: either null or a value. */
  datatype Option<+T> = None | Some(value: T) {

    /** The Elvis operator `this ?: default`. */
    function GetOr(default: T): T {
      if Some? then value else default
    }
  }

  /** The outcome of a call that may throw. */
  datatype Result<+T, +E> = Ok(value: T) | Err(error: E)
}
