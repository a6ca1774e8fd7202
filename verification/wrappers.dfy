/** Option and Result datatypes used by the shell model. */
module Wrappers {

  /** An optional value; Python's `None` default arguments are `None` here. */
  datatype Option<+T> = None | Some(value: T)

  /** The result of a computation that may fail with an error value. */
  datatype Result<+R, +E> = Success(value: R) | Failure(error: E)
}
