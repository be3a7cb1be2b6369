/** Optional values and error-carrying results, shared by every module. */
module Wrappers {

  /** A value that may be absent: a numpy result with no real counterpart
      (inf or nan), or one the model does not represent. */
  datatype Option<+T> = None | Some(value: T) {
    function GetOr(default: T): T {
      match this
      case Some(v) => v
      case None => default
    }
  }

  /** Either a value or the error the Python code raises. */
  datatype Result<+T, +E> = Success(value: T) | Failure(error: E)
}
