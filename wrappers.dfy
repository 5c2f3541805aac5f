/** The Option and Result types used across the model. */
module Wrappers {
  datatype Option<+T> = None | Some(value: T)

  /** The outcome of an operation that, in the program, either returns a value or raises. */
  datatype Result<+T, +E> = Ok(value: T) | Err(error: E)
}
