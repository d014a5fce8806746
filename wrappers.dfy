/** Option and Result, the two failure-carrying datatypes the rest of the model uses. */
module Wrappers {

  /** A value that may be absent: JavaScript's `undefined`, or `NaN` where a number is meant. */
  datatype Option<+T> = None | Some(value: T)

  /** The outcome of an operation that can throw. */
  datatype Result<+T, +E> = Success(value: T) | Failure(error: E)
}
