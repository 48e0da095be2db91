/** Optional values, used wherever the source reads a key that may be absent
    (`dict.get`, `obj?.field`, `userData[key]`). */
module Wrappers {

  datatype Option<+T> = None | Some(value: T) {

    /** The value, or `default` when absent (the source's `x || default`
        for values that are never falsy). */
    function GetOr(default: T): T {
      match this
      case Some(v) => v
      case None => default
    }
  }
}
