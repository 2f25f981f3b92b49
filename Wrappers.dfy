/** Option, Result and Outcome: the model's stand-ins for Java's null and for thrown exceptions. */
module Wrappers {

  /** A value or Java's null. */
  datatype Option<+T> = None | Some(value: T)

  /** A returned value or a thrown error. */
  datatype Result<+R, +E> = Success(value: R) | Failure(error: E)

  /** A call that returns normally (Pass) or throws (Fail). */
  datatype Outcome<+E> = Pass | Fail(error: E)
}
