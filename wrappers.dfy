/** Failure-carrying values shared by every module of the model. */
module Wrappers {

  /** A value that may be absent: a nil in Go, SQL NULL, JavaScript null. */
  datatype Option<+T> = None | Some(value: T)

  /** The value of an operation that either yields a result or reports an error. */
  datatype Result<+T, +E> = Ok(value: T) | Err(error: E)

  /** The value of an operation that yields nothing on success (a Go `error`). */
  datatype Outcome<+E> = Pass | Fail(error: E)
}
