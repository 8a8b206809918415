/** The Option type used for Python's `None`: a field that may be unset, a
    lookup that may fail, an exception that aborts a step. */
module Wrappers {

  datatype Option<+T> = None | Some(value: T) {

    /** Python's `x or default` when `x` may be None. */
    function GetOr(default: T): T {
      match this
      case Some(v) => v
      case None => default
    }
  }
}
