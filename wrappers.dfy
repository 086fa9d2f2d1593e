/** An optional value: `None` stands for JavaScript's `undefined` (a missing
    character, a missing property) or for `NaN` (a failed number parse). */
module Wrappers {

  datatype Option<+T> = None | Some(value: T) {

    /** Returns the value in `Some`, or `default` for `None`. */
    function GetOr(default: T): T {
      match this
      case Some(v) => v
      case None => default
    }
  }
}
