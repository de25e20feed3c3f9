/** Option and Result, the two failure-carrying datatypes the model uses. */
module Wrappers {

  /** A value that may be absent: `null`/`undefined` in the extension. */
  datatype Option<+T> = None | Some(value: T)

  /** The outcome of a callback: a value, or the exception it throws. */
  datatype Result<+T, +E> = Success(value: T) | Failure(error: E)
}
