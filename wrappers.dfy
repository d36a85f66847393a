/** Option and Result: Java's nullable references, Optional and exceptions. */
module Wrappers {

  /** A value that may be absent: a Java `null`, or an empty `Optional`. */
  datatype Option<+T> = None | Some(value: T) {
    function GetOr(default: T): T {
      match this
      case Some(v) => v
      case None => default
    }
  }

  /** The outcome of an operation whose Java form may throw: the value, or the error it throws. */
  datatype Result<+T, +E> = Ok(value: T) | Err(error: E)
}
