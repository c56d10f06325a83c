/** Failure-carrying wrappers shared by the other modules. */
module Basics {

  datatype Option<+T> = None | Some(value: T)

  /** The outcome of a handler: a value, or the error that the HTTP layer
      turns into a status code. */
  datatype Result<+T, +E> = Ok(value: T) | Err(error: E)
}
