/** Failure-compatible wrappers used by the tag store model. */
module Wrappers {

  /** A value that may be absent (a TypeScript optional property or a null reference). */
  datatype Option<+T> = None | Some(value: T)

  /** The value of an operation that returns a value or throws. */
  datatype Result<+R, +E> = Success(value: R) | Failure(error: E)

  /** The value of an operation that returns nothing or throws. */
  datatype Outcome<+E> = Pass | Fail(error: E)
}
