/** Option and Result, the two failure-carrying shapes used across the model. */
module Wrappers {

  datatype Option<+T> = None | Some(value: T)

  /** A computation that either yields a value or the error it threw. */
  datatype Result<+R, +E> = Success(value: R) | Failure(error: E)
}
