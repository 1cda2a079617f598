/** Failure-aware result types shared by the model. */
module Wrappers {

  /** A value that JavaScript code may leave `undefined`. */
  datatype Option<+T> = None | Some(value: T)

  /** The outcome of a call that the source ends with `return` or `throw`. */
  datatype Result<+T, +E> = Ok(value: T) | Err(error: E)
}
