/** Optional values and results with an error, shared by the other modules. */
module Wrappers {

  /** A value that may be absent: an optional field, or `undefined` in the source. */
  datatype Option<+T> = None | Some(value: T)

  /** The outcome of an operation that either returns a value or fails with a rejected promise. */
  datatype Result<+T, +E> = Success(value: T) | Failure(error: E)
}
