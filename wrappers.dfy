/** Option and Result values shared by the other modules. */
module Wrappers {

  datatype Option<+T> = None | Some(value: T)

  /** The outcome of an operation that may throw: `Failure` carries the exception's message. */
  datatype Result<+T> = Ok(value: T) | Failure(error: string)
}
