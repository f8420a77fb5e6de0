/** Kotlin's nullable values, written as an option type, and the outcome of a call that may throw. */
module Wrappers {

  datatype Option<+T> = None | Some(value: T) {

    /** `x ?: default` */
    function GetOr(default: T): T {
      match this
      case Some(v) => v
      case None => default
    }
  }

  /** The value a call returned, or the exception it threw */
  datatype Outcome<+T> = Returned(value: T) | Threw
}
