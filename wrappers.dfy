/** Optional values and success-or-error results, used wherever the source
    returns `null`/`undefined` or throws. */
module Wrappers {

  /** A value that may be absent: JavaScript's `undefined`/`null`. */
  datatype Option<+T> = None | Some(value: T) {
    function GetOr(default: T): T {
      match this
      case Some(v) => v
      case None => default
    }
  }

  /** The outcome of an operation that either returns a value or throws an
      error whose message is `error`. */
  datatype Result<+R, +E> = Success(value: R) | Failure(error: E)
}
