/** The optional value used for JavaScript's `null`/`undefined` and for oracle answers. */
module Wrappers {

  datatype Option<+T> = None | Some(value: T) {

    /** Returns the value held in Some, or the given default. */
    function GetOr(default: T): T {
      match this
      case Some(v) => v
      case None => default
    }
  }
}
