/** Option, for Python's `None` and for a value that could not be read, and
    Outcome, for how a pass through a menu loop ends. */
module Wrappers {

  datatype Option<+T> = None | Some(value: T) {
    /** The payload, or `default` for None (Python's `x or default` on an optional value). */
    function GetOr(default: T): T {
      match this
      case Some(v) => v
      case None => default
    }
  }

  /** How one pass through a menu loop ends: on to the next choice, out of the
      loop, or with an exception nobody catches, which stops the program. */
  datatype Outcome = Continue | Exit | Crash
}
