/** The outcome types shared by the modules below. */
module Wrappers {
  datatype Option<+T> = None | Some(value: T)

  /** A normal return, or the exception the Python code raises. */
  datatype Result<+T, +E> = Ok(value: T) | Err(error: E)
}
