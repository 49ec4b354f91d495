/** Optional values and results with an error arm, shared by the other modules. */
module Wrappers {

  /** A value that may be missing: PHP's `null` or an unset array key. */
  datatype Option<+T> = None | Some(value: T) {
    function GetOr(default: T): T
    {
      match this
      case Some(v) => v
      case None => default
    }
  }

  /** The outcome of an operation that the PHP code ends by throwing. */
  datatype Result<+R, +E> = Success(value: R) | Failure(error: E)
}
