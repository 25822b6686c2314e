/** Option and Result, the two wrappers the rest of the model returns. */
module Wrappers {

  /** A value that may be absent: the model of a JavaScript `null`. */
  datatype Option<+T> = None | Some(value: T)

  /** The outcome of an operation that may be rejected: a resolved or a rejected promise. */
  datatype Result<+T, +E> = Ok(value: T) | Err(error: E)
}
