/** Option and Result, the two failure-carrying wrappers the model uses. */
module Wrappers {

  /** `Some(v)` for a JavaScript value that is present; `None` for `undefined` (or `null`, where the
      source treats the two alike). */
  datatype Option<+T> = None | Some(value: T)

  /** The outcome of an operation that may throw. */
  datatype Result<+T, +E> = Success(value: T) | Failure(error: E)
}
