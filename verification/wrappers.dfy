/** The optional value and error-carrying result used across the model. */
module Wrappers {
  datatype Option<+T> = None | Some(value: T)

  /** A value, or the error message the source returns in its `{ success: false, error }`. */
  datatype Result<+T> = Ok(value: T) | Err(error: string)
}
