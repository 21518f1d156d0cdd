/** Option, Result and Outcome: the wrappers standing in for Java's null and exceptions. */
module Wrappers {

  /** A value that may be absent (Java's null). */
  datatype Option<+T> = None | Some(value: T)

  /** A value, or the exception the Java code would throw instead. */
  datatype Result<+T, +E> = Success(value: T) | Failure(error: E)

  /** A step that either completes or throws. */
  datatype Outcome<+E> = Pass | Fail(error: E)
}
