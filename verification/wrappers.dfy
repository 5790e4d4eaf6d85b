/** Optional values used across the model. */
module Wrappers {

  /** An optional value: the source's "not found" and "no value saved yet" cases. */
  datatype Option<+T> = None | Some(value: T) {

    /** The wrapped value, or `default` when there is none. */
    function GetOr(default: T): T {
      match this
      case Some(v) => v
      case None => default
    }
  }
}
