/** Optional values and success-or-error results, used for nullable returns and error paths. */
module Wrappers {

  /** A value that may be absent (the source's `null`, `undefined` or `None`). */
  datatype Option<+T> = None | Some(value: T) {
    function GetOr(default: T): T {
      match this
      case Some(v) => v
      case None => default
    }
  }

  /** Either a value or the error that the source raises or rejects with. */
  datatype Result<+R, +E> = Success(value: R) | Failure(error: E)
}
