/** Option and Result, standing for JavaScript's `undefined`/`null` and for a thrown exception. */
module Wrappers {

  datatype Option<+T> = None | Some(value: T)

  /** `Err` carries the message of the exception the source would throw. */
  datatype Result<+T> = Ok(value: T) | Err(error: string)
}
