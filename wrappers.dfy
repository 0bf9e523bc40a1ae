/** Optional values: a JavaScript `undefined`/`null` or a present value. */
module Wrappers {

  datatype Option<+T> = None | Some(value: T) {
    function GetOr(default: T): T {
      match this
      case Some(v) => v
      case None => default
    }
  }

  /** How a handler ended: normally, or by throwing (a TypeError or RangeError in the source). */
  datatype Outcome = Completed | Threw(reason: string)
}
