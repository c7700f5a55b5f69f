/** Option and Result, used for the coordinator's "absent" and error outcomes. */
module Wrappers {

  /** A value that may be absent (the source's nullable returns). */
  datatype Option<+T> = None | Some(value: T)

  /** A success value or a structured error. */
  datatype Result<+R, +E> = Success(value: R) | Failure(error: E)
}
