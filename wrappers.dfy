/** Option, Result and Outcome: the model's stand-ins for Java's null and exceptions. */
module Wrappers {

  /** A value that may be absent (Java's null). */
  datatype Option<+T> = None | Some(value: T)

  /** Either a constructed value or the exception that was raised instead. */
  datatype Result<+R, +E> = Success(value: R) | Failure(error: E)

  /** A call that returns normally (Pass) or raises (Fail). */
  datatype Outcome<+E> = Pass | Fail(error: E)
}
