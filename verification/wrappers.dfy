/** Optional values. In this model `None` stands for what the browser script
    sees as `undefined`, or for a number that is not finite (`NaN`, `±Infinity`). */
module Wrappers {

  datatype Option<+T> = None | Some(value: T) {

    /** Returns the value in `Some`, or `default` for `None` (the script's `x ?? default`). */
    function GetOr(default: T): T {
      match this
      case Some(v) => v
      case None => default
    }
  }
}
