/** The optional-value type shared by the other modules. */
module Wrappers {

  /** A value that may be absent, as a Python `None` or a missing key. */
  datatype Option<+T> = None | Some(value: T) {

    /** The value, or `default` when absent. */
    function GetOr(default: T): T {
      match this
      case Some(v) => v
      case None => default
    }
  }
}
