/** Failure-carrying wrappers shared by every module of the model. */
module Wrappers {

  /** A value that may be absent: a missing row, a failed decode. */
  datatype Option<+T> = None | Some(value: T)

  /** Either a value or the error the service reports instead. */
  datatype Result<+T, +E> = Success(value: T) | Failure(error: E)
}
