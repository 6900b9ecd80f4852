/** Kotlin's nullable results (`T?`) and the `?:` fallback, as an Option datatype. */
module Wrappers {

  datatype Option<+T> = None | Some(value: T) {

    /** `x ?: default`: the value when present, otherwise the default. */
    function GetOr(default: T): (r: T)
      ensures Some? ==> r == value
      ensures None? ==> r == default
    {
      match this
      case Some(v) => v
      case None => default
    }
  }
}
