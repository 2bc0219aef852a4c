/** Option and Result values used where the JavaScript returns null or throws. */
module Wrappers {

  /** A JavaScript value that may be null or undefined. */
  datatype Option<+T> = None | Some(value: T)

  /** The outcome of an operation that either returns a value or throws an error. */
  datatype Result<+T> = Ok(value: T) | Err(message: string)
}
