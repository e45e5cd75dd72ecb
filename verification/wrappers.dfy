/** Failure-compatible wrappers used throughout the model. */
module Wrappers {

  /** An optional value: JavaScript's `undefined` for a field or argument that may be absent. */
  datatype Option<+T> = None | Some(value: T)

  /** The outcome of an operation that can throw. */
  datatype Result<+T, +E> = Ok(value: T) | Err(error: E)
}
