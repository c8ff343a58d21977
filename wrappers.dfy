/** Optional values: JavaScript's `undefined` (an absent property, a missing argument) is `None`. */
module Wrappers {

  datatype Option<+T> = None | Some(value: T) {

    /** `value ?? default`, also `value || default` where every present value is truthy */
    function GetOr(default: T): T {
      match this
      case Some(v) => v
      case None => default
    }
  }
}
