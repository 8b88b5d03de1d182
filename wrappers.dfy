/** An optional value: `None` stands for JavaScript's `undefined` or `null`. */
module Wrappers {

  datatype Option<+T> = None | Some(value: T) {

    /** The value, or `default` when there is none (JavaScript's `x ? x : default` on refs). */
    function GetOr(default: T): T {
      match this
      case Some(v) => v
      case None => default
    }
  }
}
