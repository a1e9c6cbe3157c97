/** Failure-compatible wrappers shared by the other modules. */
module Wrappers {

  /** A value that may be absent (Python's `Optional[...]` / `None`). */
  datatype Option<+T> = None | Some(value: T)

  /** The outcome of validating a record: the record, or the errors found. */
  datatype Result<+T, +E> = Ok(value: T) | Err(error: E)
}
