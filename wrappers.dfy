/** Failure-carrying results: Java's null references and thrown exceptions are
    modelled as values. */
module Wrappers {

  /** A possibly-null Java reference. */
  datatype Option<+T> = None | Some(value: T)

  /** A value or the exception thrown instead of returning it. */
  datatype Result<+T, +E> = Success(value: T) | Failure(error: E)

  /** A `void` call that either returns normally or throws. */
  datatype Outcome<+E> = Pass | Fail(error: E)
}
