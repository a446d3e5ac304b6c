/** The optional value used throughout the model for JavaScript's
    `T | null` results and for optional arguments. */
module Wrappers {

  datatype Option<+T> = None | Some(value: T) {

    function GetOr(default: T): T {
      match this
      case Some(v) => v
      case None => default
    }
  }
}
