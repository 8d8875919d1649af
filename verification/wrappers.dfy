/** Option and Result, the two failure-carrying datatypes the model is written with. */
module Wrappers {

  /** A value that may be absent: a missing request field, an unset sub-document. */
  datatype Option<+T> = None | Some(value: T)

  /** The outcome of an operation: a payload or an error kind. */
  datatype Result<+T, +E> = Success(value: T) | Failure(error: E)
}
