/** Failure-carrying values shared by the other modules. */
module Wrappers {

  /** A value that may be absent: SQL NULL, Python None, a failed lookup. */
  datatype Option<+T> = None | Some(value: T)

  /** The outcome of an operation that can raise: either its value or the error it raised. */
  datatype Result<+T, +E> = Ok(value: T) | Err(error: E)
}
