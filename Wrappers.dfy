/** Failure-carrying values shared by the graveyard modules. */
module Wrappers {

  datatype Option<+T> = None | Some(value: T)

  /** The outcome of an operation that either yields a value or fails with an error. */
  datatype Result<+R, +E> = Success(value: R) | Failure(error: E)

  /** The outcome of an operation that yields nothing on success (a PHP `void` call that may throw). */
  datatype Outcome<+E> = Pass | Fail(error: E)
}
