/** Optional values: Kotlin's nullable types (`T?`) and the `?:` operator; and outcomes that may fail. */
module Wrappers {

  datatype Option<+T> = None | Some(value: T) {

    /** `this ?: default` */
    function GetOr(default: T): T {
      match this
      case Some(v) => v
      case None => default
    }
  }

  /** A value, or the message the screen shows instead. */
  datatype Result<+T> = Success(value: T) | Failure(error: string)
}
