/** Optional values and results, standing for JavaScript's `undefined` and
    for the `try`/`catch` error paths of the dashboard. */
module Wrappers {

  datatype Option<+T> = None | Some(value: T) {
    /** `x || d` for a value that is either present or `undefined`. */
    function GetOr(default: T): T {
      match this
      case Some(v) => v
      case None => default
    }
  }

  datatype Result<+R, +E> = Success(value: R) | Failure(error: E)
}
