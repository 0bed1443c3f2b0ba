/** The optional value used for JavaScript's `undefined` results and optional fields. */
module Wrappers {

  datatype Option<+T> = None | Some(value: T) {

    /** Returns the value carried by Some or a default when None */
    function GetOr(default: T): T {
      match this
      case Some(v) => v
      case None => default
    }
  }
}
