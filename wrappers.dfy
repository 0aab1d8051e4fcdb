/** Option and Result, the two failure-carrying wrappers used across the model. */
module Wrappers {

  datatype Option<+T> = None | Some(value: T)

  /** The outcome of a route handler: the built value, or the message of a 400 response. */
  datatype Result<+R, +E> = Success(value: R) | Failure(error: E)
}
