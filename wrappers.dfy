/** Optional values and results, used where the source returns None or raises. */
module Wrappers {

  /** A Python value that may be None. */
  datatype Option<T> = None | Some(value: T) {
    /** `x if x is not None else d` */
    function GetOr(d: T): T {
      match this
      case Some(v) => v
      case None => d
    }
  }

  /** The outcome of an operation that can raise. */
  datatype Result<T, E> = Success(value: T) | Failure(error: E)
}
