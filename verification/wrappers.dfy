/** Option and Result values used across the model. */
module Wrappers {

  /** A value that may be absent (a JavaScript `undefined` argument). */
  datatype Option<+T> = None | Some(value: T)

  /** The outcome of an operation that can fail with an error value. */
  datatype Result<+R, +E> = Success(value: R) | Failure(error: E)
}
