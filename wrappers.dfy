/** Optional values: a request field that may be absent (JavaScript `undefined`),
    a key that may be missing from the cache, a row that a query may not find. */
module Wrappers {

  datatype Option<+T> = None | Some(value: T) {

    /** The value, or the given default when absent (JavaScript's destructuring
        default `{ x = d }`, which applies only to `undefined`). */
    function GetOr(default: T): T {
      match this
      case Some(v) => v
      case None => default
    }
  }
}
