/** Outcome of an operation that may fail: the Java methods of the core either
    return normally or throw one of the exceptions listed in Domain.AccountsError. */
module Wrappers {

  datatype Option<+T> = None | Some(value: T)

  /** A method that returns a value or throws. */
  datatype Result<+R, +E> = Success(value: R) | Failure(error: E)

  /** A `void` method that returns normally (Pass) or throws (Fail). */
  datatype Outcome<+E> = Pass | Fail(error: E)
}
