/** The nullable values of the Kotlin and Java sources (`String?`, `T?`) become `Option`. */
module Wrappers {

  datatype Option<+T> = None | Some(value: T) {

    /** Kotlin's `?:` — the value, or `default` when the source had null. */
    function GetOr(default: T): T {
      match this
      case Some(v) => v
      case None => default
    }
  }
}
