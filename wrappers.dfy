/** Option and Result values shared by the form models. */
module Wrappers {

  /** A value that may be absent: Python's `None` or a cleaned-data key that is missing. */
  datatype Option<+T> = None | Some(value: T)

  /** The outcome of a clean step: the cleaned value, or the validation error it raised. */
  datatype Result<+T, +E> = Ok(value: T) | Err(error: E)
}
