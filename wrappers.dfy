/** Success and failure values standing in for the exceptions the library throws. */
module Wrappers {

  /** A value that may be absent; `None` plays the part of a `null` reference. */
  datatype Option<+T> = None | Some(value: T)

  /** The value an operation returns, or the exception it throws. */
  datatype Result<+T, +E> = Ok(value: T) | Err(error: E)

  /** An operation that returns nothing, or the exception it throws. */
  datatype Outcome<+E> = Pass | Fail(error: E)
}
