/** Failure-carrying values shared by the other modules. */
module Wrappers {

  datatype Option<+T> = None | Some(value: T)

  /** A computation that either yields a value or raises with a message (Python's `str(e)`). */
  datatype Result<+T> = Success(value: T) | Failure(error: string)
}
