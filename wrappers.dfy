/** Failure-carrying values used in place of the source's thrown errors
    and rejected promises. */
module Wrappers {

  datatype Option<+T> = None | Some(value: T)

  /** A computation that produced a value or failed with an error message. */
  datatype Result<+R> = Success(value: R) | Failure(error: string)

  /** A computation that produced no value: it passed or failed. */
  datatype Outcome = Pass | Fail(error: string)
}
