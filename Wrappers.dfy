/** Failure-carrying values: the model's stand-in for `undefined` and for thrown errors. */
module Wrappers {

  /** A value that may be absent (a JSON field that is missing or `undefined`). */
  datatype Option<+T> = None | Some(value: T)

  /** The outcome of an operation that either returns a value or throws an error. */
  datatype Result<+R, +E> = Success(value: R) | Failure(error: E)
}
