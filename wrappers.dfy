/** Option and Result values shared by the models of the three components. */
module Wrappers {

  /** A value that may be absent: JavaScript's `null` / `undefined` in the models. */
  datatype Option<+T> = None | Some(value: T)

  /** The outcome of a check that either accepts with a value or rejects with a reason. */
  datatype Result<+R, +E> = Success(value: R) | Failure(error: E)
}
