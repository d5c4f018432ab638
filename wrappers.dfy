/** Failure-carrying results shared by every module of the model. */
module Wrappers {

  /** A value that may be absent: a nullable column, an optional argument, a missing row. */
  datatype Option<+T> = None | Some(value: T) {
    function GetOr(default: T): T {
      match this
      case Some(v) => v
      case None => default
    }
  }

  /** The outcome of an operation that the source either returns from or throws out of. */
  datatype Result<+R, +E> = Success(value: R) | Failure(error: E)
}
