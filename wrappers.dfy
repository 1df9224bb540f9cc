/** Option and Result, the failure-carrying values used across the model. */
module Wrappers {

  datatype Option<+T> = None | Some(value: T)

  /** A Python function that either returns a value or raises. */
  datatype Result<+T, +E> = Ok(value: T) | Err(error: E)
}
