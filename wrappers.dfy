/** Failure-compatible wrappers used for the Java exceptions and nulls of the modelled code. */
module Wrappers {

  /** A Java reference that may be null: `None` stands for null. */
  datatype Option<+T> = None | Some(value: T)

  /** A value, or the exception a Java call throws instead of returning one. */
  datatype Result<+T, +E> = Success(value: T) | Failure(error: E)

  /** A `void` Java call: it returns normally or throws. */
  datatype Outcome<+E> = Pass | Fail(error: E)
}
