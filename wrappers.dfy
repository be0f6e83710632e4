/** The optional-value datatype used for pandas' missing values and for lookups that may
  * fail, and the result of an operation that may raise. */
module Wrappers {

  datatype Option<+T> = None | Some(value: T)

  /** A value, or the message of the exception raised instead. */
  datatype Result<+T, +E> = Ok(value: T) | Err(error: E)
}
