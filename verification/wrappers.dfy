/** Option and Result, the two failure-carrying shapes the model needs. */
module Wrappers {

  /** A value that may be absent (Python's `None`). */
  datatype Option<+T> = None | Some(value: T)

  /** Either a value or the exception that escaped the operation. */
  datatype Result<+T, +E> = Ok(value: T) | Err(error: E)
}
