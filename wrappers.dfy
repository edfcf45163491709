/** Kotlin's nullable values and thrown exceptions, as values. */
module Wrappers {

  /** A nullable value (`T?` in Kotlin). */
  datatype Option<+T> = None | Some(value: T) {

    /** Kotlin's elvis operator `x ?: fallback`. */
    function GetOr(fallback: T): T {
      match this
      case Some(v) => v
      case None => fallback
    }
  }

  /** What a call that may throw did: it returned a value, or it threw an
      exception whose `message` may be null. */
  datatype Outcome<+T> = Returned(value: T) | Threw(message: Option<string>)
}
