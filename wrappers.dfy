/** Option and Result, the failure-carrying values used across the model. */
module Wrappers {

  datatype Option<+T> = None | Some(value: T)

  /** A parse or save either yields a value or a typed error. */
  datatype Result<+R, +E> = Success(value: R) | Failure(error: E)
}
