/** Optional values and error-carrying results shared by the model. */
module Wrappers {

  /** A value that may be absent (JavaScript `null`). */
  datatype Option<+T> = None | Some(value: T)

  /** The outcome of an operation that computes a value or fails with an error. */
  datatype Result<+T, +E> = Ok(value: T) | Err(error: E)

  /** The outcome of an operation that computes nothing but may fail. */
  datatype Outcome<+E> = Pass | Fail(error: E)
}
