/** Option and Result, the two failure-carrying datatypes used throughout the model. */
module Wrappers {

  /** A value that may be absent; `None` also stands for Python's `None`. */
  datatype Option<+T> = None | Some(value: T) {
    function GetOr(default: T): T {
      match this
      case Some(v) => v
      case None => default
    }
  }

  /** The outcome of a check that either passes or raises. */
  datatype Outcome<+E> = Pass | Fail(error: E)

  /** The outcome of an operation that either returns a value or raises. */
  datatype Result<+R, +E> = Success(value: R) | Failure(error: E)
}
