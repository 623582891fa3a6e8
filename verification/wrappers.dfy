/** Failure-carrying wrappers shared by the driver model. */
module Wrappers {

  /** A value that may be absent. */
  datatype Option<+T> = None | Some(value: T)

  /** Either a value or an error, the model of Go's `(value, error)` pair. */
  datatype Result<+T, +E> = Success(value: T) | Failure(error: E)
}
