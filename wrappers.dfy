/** Option and Result, used for Java's nullable references and for exceptions. */
module Wrappers {

  /** `None` stands for a Java `null`. */
  datatype Option<+T> = None | Some(value: T)

  /** `Failure` stands for an exception that the operation throws or propagates. */
  datatype Result<+R, +E> = Success(value: R) | Failure(error: E)
}
