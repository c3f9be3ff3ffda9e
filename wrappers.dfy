/** Optional values and results with an error side, shared by the other modules. */
module Wrappers {

  /** A value that may be absent: JavaScript's `undefined` result of a lookup. */
  datatype Option<+T> = None | Some(value: T) {
    function GetOr(default: T): T {
      match this
      case Some(v) => v
      case None => default
    }
  }

  /** Either a value or an error, as a validation step produces. */
  datatype Result<+R, +E> = Success(value: R) | Failure(error: E)
}
