/** Option, Result and Outcome: the failure-carrying shapes the model needs. */
module Wrappers {

  datatype Option<+T> = None | Some(value: T)

  datatype Result<+T, +E> = Success(value: T) | Failure(error: E)

  /** Pass, or Fail with the reason an operation stopped. */
  datatype Outcome<+E> = Pass | Fail(error: E)
}
