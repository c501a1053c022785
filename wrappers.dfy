/** Option and Result, used for "no match" and for the thrown errors of the source. */
module Wrappers {

  datatype Option<+T> = None | Some(value: T)

  /** A value, or the message of the Error the source would throw. */
  datatype Result<+T> = Success(value: T) | Failure(error: string)
}
