/** Optional values (a missing cell or a Python `None`) and tagged results
    (a validated value or the reasons it was rejected). */
module Wrappers {

  datatype Option<+T> = None | Some(value: T) {
    /** The value, or `default` when it is missing (Python's `x or default` for non-falsy x). */
    function GetOr(default: T): T {
      match this
      case Some(v) => v
      case None => default
    }
  }

  datatype Result<+R, +E> = Success(value: R) | Failure(error: E)
}
