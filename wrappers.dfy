/** Option and Result: the absent values and the error returns of the system. */
module Wrappers {

  datatype Option<+T> = None | Some(value: T)

  /** The `{ data, error }` pairs and the exceptions of the external services. */
  datatype Result<+T, +E> = Ok(value: T) | Err(error: E)
}
