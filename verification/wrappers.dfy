/** Failure-carrying values: an optional value, and a result that is either a value or an error. */
module Wrappers {

  /** A value that may be absent, such as a request header the client did not send. */
  datatype Option<+T> = None | Some(value: T)

  /** The outcome of an operation that can fail with an error of type E. */
  datatype Result<+R, +E> = Success(value: R) | Failure(error: E)
}
