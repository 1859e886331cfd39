/** Optional values and results with an error, as used across the model. */
module Wrappers {

  /** A value that may be missing (`undefined`/`null` in the source). */
  datatype Option<+T> = None | Some(value: T)

  /** The outcome of an operation that can fail. */
  datatype Result<+R, +E> = Success(value: R) | Failure(error: E)
}
