/** The optional value shared by every module of the model. */
module Wrappers {

  /** A value that may be missing: Python's `None`, or an absent field. */
  datatype Option<+T> = None | Some(value: T) {

    function GetOr(default: T): T {
      match this
      case Some(v) => v
      case None => default
    }
  }
}
