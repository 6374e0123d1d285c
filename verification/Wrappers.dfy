/** Result types shared by the modules of this project. */
module Wrappers {
  /** An optional column, argument or row. */
  datatype Option<+T> = None | Some(value: T)

  /** The value an operation returns, or the exception it raises. */
  datatype Result<+T, +E> = Ok(value: T) | Err(error: E)
}
