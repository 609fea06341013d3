/** Failure-carrying datatypes used in place of the exceptions the service throws. */
module Wrappers {

  datatype Option<+T> = None | Some(value: T)

  /** A value, or the exception that an operation raised instead of returning one. */
  datatype Result<+T, +E> = Success(value: T) | Failure(error: E)

  /** Completion of an operation that returns nothing: it completed, or it raised `error`. */
  datatype Outcome<+E> = Pass | Fail(error: E)
}
