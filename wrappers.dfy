/** Small failure-carrying datatypes shared by the capture, viewer and command-channel models. */
module Wrappers {

  /** A value that may be absent: a nullable pointer or an unset environment variable. */
  datatype Option<+T> = None | Some(value: T)

  /** The result of a step that returns nothing but may throw: Pass, or Fail with the error. */
  datatype Outcome<+E> = Pass | Fail(error: E)

  /** A value or the error that was raised instead of returning it. */
  datatype Result<+T, +E> = Ok(value: T) | Err(error: E)
}
