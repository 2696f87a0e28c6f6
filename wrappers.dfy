/** A value that may be absent: a key missing from a decoded JSON object. */
module Wrappers {
  datatype Option<+T> = None | Some(value: T) {
    /** The value, or `default` when it is absent (Python's `d.get(k, default)`). */
    function GetOr(default: T): T {
      match this
      case Some(v) => v
      case None => default
    }
  }
}
