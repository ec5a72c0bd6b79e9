/** Failure-compatible wrappers shared by every schema module. */
module Wrappers {

  /** A value that may be absent; models a `.nullable()` field's parsed value. */
  datatype Option<+T> = None | Some(value: T)

  /** The outcome of parsing a request: the typed input or the collected issues. */
  datatype Result<+T, +E> = Success(value: T) | Failure(error: E)
}
