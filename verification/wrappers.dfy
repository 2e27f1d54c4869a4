/** Failure-carrying values shared by the model. */
module Wrappers {

  /** A value that may be absent: a missing file, a command that failed. */
  datatype Option<+T> = None | Some(value: T)

  /** The outcome of a step that either succeeds with a value or stops with an error message. */
  datatype Result<+T> = Ok(value: T) | Err(message: string)
}
