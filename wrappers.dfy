/** The optional-value wrapper used for every `field?: T` of the source's types. */
module Wrappers {

  datatype Option<+T> = None | Some(value: T) {

    /** `x ?? fallback`, and the `x || fallback` idiom where only absence is falsy. */
    function GetOr(fallback: T): T {
      match this
      case Some(v) => v
      case None => fallback
    }
  }
}
