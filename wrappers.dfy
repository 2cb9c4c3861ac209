/** Failure-compatible wrappers used throughout the model. */
module Wrappers {

  /** An optional value: Go's `(value, ok)` pairs and nil pointers. */
  datatype Option<T> = None | Some(value: T)

  /** A value or an error message: Go's `(value, err)` pairs. */
  datatype Result<T> = Ok(value: T) | Err(error: string)
}
