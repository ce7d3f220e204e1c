/** Option and Outcome: the "undefined" results and thrown errors of the
    JavaScript code, as values. */
module Wrappers {

  datatype Option<+T> = None | Some(value: T)

  /** The result of an operation that either completes or throws `error`. */
  datatype Outcome<+E> = Pass | Fail(error: E)

  /** A value, or the error that was thrown instead of returning it. */
  datatype Result<+T, +E> = Ok(value: T) | Err(error: E)
}
