/** Option and result datatypes; a `Failure` or `Fail` stands for a thrown error. */
module Wrappers {
  datatype Option<+T> = None | Some(value: T)

  /** The value-carrying result of an operation that may throw. */
  datatype Result<+T, +E> = Success(value: T) | Failure(error: E)

  /** The result of an operation that returns nothing but may throw. */
  datatype Outcome<+E> = Pass | Fail(error: E)
}
