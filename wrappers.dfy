/** The optional value used across the model for Python's `None`. */
module Wrappers {

  datatype Option<T> = None | Some(value: T) {

    /** `x if x is not None else default`. */
    function GetOr(default: T): T {
      match this
      case Some(v) => v
      case None => default
    }
  }
}
