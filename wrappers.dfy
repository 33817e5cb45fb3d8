/** Go's `error` values and the two shapes the model uses to carry them. */
module Wrappers {

  /** A value that may be absent: a nil pointer, a nil interface, a nil error. */
  datatype Option<+T> = None | Some(value: T)

  /** A non-nil Go `error`, identified by its message. */
  datatype Err = Err(message: string)

  /** A Go pair `(value, error)` in which the value is not used once the error is non-nil. */
  datatype Result<+T> = Ok(value: T) | Fail(err: Err)
}
