/** Option and Result, the two failure-carrying wrappers the model uses. */
module Wrappers {

  datatype Option<+T> = None | Some(value: T)

  /** The outcome of a step that may raise: a value, or the failure it raised. */
  datatype Result<+T, +E> = Ok(value: T) | Err(error: E)
}
