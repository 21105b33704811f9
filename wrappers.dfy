/** Option and Result values shared by the other modules. */
module Wrappers {

  /** A JavaScript value that may be `null`/`undefined` (None) or present (Some). */
  datatype Option<+T> = None | Some(value: T)

  /** The outcome of a call that either returns a value or throws an error with a message. */
  datatype Result<+T, +E> = Success(value: T) | Failure(error: E)
}
