/** Failure-carrying datatypes used for Java's null results and exceptions. */
module Wrappers {

  /** `None` stands for Java's `null`. */
  datatype Option<+T> = None | Some(value: T)

  /** A value, or the exception a Java method throws instead of returning. */
  datatype Result<+T, +E> = Ok(value: T) | Err(error: E)

  /** The completion of a Java `void` method: normal, or by an exception. */
  datatype Outcome<+E> = Pass | Fail(error: E)
}
