/** The two result types every module uses. */
module Wrappers {

  datatype Option<+T> = None | Some(value: T)

  /** What a call returns, or the exception it raises. */
  datatype Result<+T, +E> = Ok(value: T) | Err(error: E)
}
