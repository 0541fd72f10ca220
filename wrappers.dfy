/** Failure-compatible wrappers shared by the modules of this model. */
module Wrappers {

  datatype Option<+T> = None | Some(value: T)

  /** Success carries a value; Failure carries the exception the source would throw. */
  datatype Result<+T, +E> = Success(value: T) | Failure(error: E)
}
