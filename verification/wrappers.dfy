/** Failure-carrying wrappers shared by the model. */
module Wrappers {

  /** A value that may be absent: a partial decode, an optional table column. */
  datatype Option<+T> = None | Some(value: T)

  /** Either a value or the error that ended the computation. */
  datatype Result<+R, +E> = Success(value: R) | Failure(error: E)
}
