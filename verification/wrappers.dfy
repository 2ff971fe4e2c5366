/** The optional-value datatype shared by the other modules: a table scan that
    finds nothing, an absent current session, a failed fetch. */
module Wrappers {

  datatype Option<+T> = None | Some(value: T) {

    /** The value, or `default` when there is none. */
    function GetOr(default: T): T {
      match this
      case Some(v) => v
      case None => default
    }
  }
}
