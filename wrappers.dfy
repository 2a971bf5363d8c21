/** Option and Result: a nullable Java reference and an exception-or-value outcome. */
module Wrappers {

  /** `None` stands for a Java `null`. */
  datatype Option<+T> = None | Some(value: T)

  /** `Failure` stands for a thrown exception. */
  datatype Result<+T, +E> = Success(value: T) | Failure(error: E)
}
