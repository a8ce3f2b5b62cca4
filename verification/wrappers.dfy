/** Failure-carrying datatypes used for the error paths of the model. */
module Wrappers {

  /** A value that may be absent, as a parser's answer. */
  datatype Option<+T> = None | Some(value: T)

  /** Either a value or the error a Python call would raise instead. */
  datatype Result<+R, +E> = Success(value: R) | Failure(error: E)
}
