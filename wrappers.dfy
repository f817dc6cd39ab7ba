/** Failure-carrying results: the model's stand-in for a Python exception. */
module Wrappers {

  datatype Option<+T> = None | Some(value: T)

  /** A computed value, or the error that a Python function raised instead. */
  datatype Result<+T, +E> = Ok(value: T) | Err(error: E)

  /** The outcome of a Python method that returns None or raises. */
  datatype Outcome<+E> = Pass | Fail(error: E)
}
