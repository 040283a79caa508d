/** Option and Result values used across the model for missing data and error paths. */
module Wrappers {

  datatype Option<+T> = None | Some(value: T)

  /** An operation that either produced a value or raised an exception with a message. */
  datatype Result<+T, +E> = Ok(value: T) | Err(error: E)
}
