/** Failure-carrying datatypes used throughout the model. */
module Wrappers {

  /** An optional value: a regular-expression match that may fail, a key that may be absent. */
  datatype Option<+T> = None | Some(value: T)

  /** The outcome of an operation that either produces a value or throws. */
  datatype Result<+T, +E> = Success(value: T) | Failure(error: E)
}
