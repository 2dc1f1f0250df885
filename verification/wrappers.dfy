/** The Option and Result types used throughout the model. */
module Wrappers {

  /** A value that may be absent: JavaScript's `null`/`undefined` made explicit. */
  datatype Option<+T> = None | Some(value: T)

  /** The outcome of an operation that may throw: a value, or the reason it threw. */
  datatype Result<+R, +E> = Success(value: R) | Failure(error: E)
}
