/** Absent values and fatal errors. */
module Wrappers {

  /** A value that may be absent (Kotlin's nullable types). */
  datatype Option<+T> = None | Some(value: T) {
    /** The value, or `default` when absent (Kotlin's `?:`). */
    function GetOr(default: T): T {
      match this
      case Some(v) => v
      case None => default
    }
  }

  /** The outcome of a read that can hit a fatal error. */
  datatype Result<+T, +E> = Success(value: T) | Failure(error: E)
}
