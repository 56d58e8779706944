/** Optional values and results with an error, standing in for Java's nullable
    references and thrown exceptions. */
module Wrappers {

  /** A Java reference that may be null. */
  datatype Option<+T> = None | Some(value: T) {
    function GetOr(default: T): T {
      match this
      case Some(v) => v
      case None => default
    }
  }

  /** The outcome of a Java call: a value, or the exception it threw. */
  datatype Result<+T, +E> = Success(value: T) | Failure(error: E)
}
