/** Optional values: a field of a record that may be absent. */
module Wrappers {

  datatype Option<+T> = None | Some(value: T) {

    /** The value when present, otherwise `default` (a dictionary lookup with a default). */
    function GetOr(default: T): T {
      match this
      case Some(v) => v
      case None => default
    }
  }
}
