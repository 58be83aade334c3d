/** Small failure-compatible wrappers shared by the parser and the matcher. */
module Common {

  /** A value that may be JavaScript's `undefined`. */
  datatype Option<+T> = None | Some(value: T)

  /** The outcome of a call that may throw. */
  datatype Result<+T, +E> = Ok(value: T) | Err(error: E)
}
