/** Option and Result, used for the source's `null` returns and thrown errors. */
module Wrappers {

  datatype Option<+T> = None | Some(value: T)

  /** A computation that either yields a value or fails with a message (a thrown `Error` in the source). */
  datatype Result<+T> = Success(value: T) | Failure(error: string)
}
