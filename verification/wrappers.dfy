/** Optional values shared by the backend and the client models. */
module Wrappers {

  /** A value that may be missing: PHP `null`, a missing request field, a failed lookup. */
  datatype Option<+T> = None | Some(value: T) {

    function GetOr(default: T): T {
      match this
      case Some(v) => v
      case None => default
    }
  }
}
