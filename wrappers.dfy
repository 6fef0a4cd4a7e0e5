/** Option and Result, used for Java's null and for the exceptions the
    modelled code throws. */
module Wrappers {

  /** A value that may be absent: Java's nullable reference or Optional. */
  datatype Option<+T> = None | Some(value: T)

  /** The outcome of an operation that either returns a value or throws. */
  datatype Result<+R, +E> = Success(value: R) | Failure(error: E)

  /** The outcome of an operation that returns nothing or throws. */
  datatype Outcome<+E> = Pass | Fail(error: E)
}
