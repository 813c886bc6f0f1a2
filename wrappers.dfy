/** Failure-carrying values shared by every module of the model.
    - Option<T>: a value that may be missing (JavaScript `undefined`/`null`).
    - Result<T, E>: an operation that either returns a value or throws an error.
    - Outcome<E>: an operation that returns nothing useful or throws. */
module Wrappers {

  datatype Option<+T> = None | Some(value: T)

  datatype Result<+T, +E> = Success(value: T) | Failure(error: E)

  datatype Outcome<+E> = Pass | Fail(error: E)
}
