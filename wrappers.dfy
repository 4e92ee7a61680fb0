/** Option and Result, used for the nullable values and the error returns of the plugin. */
module Wrappers {

  /** A value that may be absent (Kotlin's `T?`, Swift's `Optional`). */
  datatype Option<+T> = None | Some(value: T) {
    function GetOr(default: T): T {
      match this
      case Some(v) => v
      case None => default
    }
  }

  /** Either a value or an error (Swift's `Result`, or a thrown exception). */
  datatype Result<+T, +E> = Success(value: T) | Failure(error: E)

  /** A check that either passes or fails with an error, with no value. */
  datatype Outcome<+E> = Pass | Fail(error: E)
}
