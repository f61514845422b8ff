/** Failure-carrying datatypes: Python's None and raised exceptions become values. */
module Wrappers {

  datatype Option<+T> = None | Some(value: T) {
    function GetOr(default: T): T {
      match this
      case Some(v) => v
      case None => default
    }
  }

  /** A call that either returns a value or raises (the error names the exception's message). */
  datatype Result<+T, +E> = Success(value: T) | Failure(error: E)
}
