/** Optional values and error-carrying results, standing in for Python's `None` and raised exceptions. */
module Wrappers {

  datatype Option<+T> = None | Some(value: T)

  /** `Err` carries a short description of the exception that the Python code raises. */
  datatype Result<+T> = Ok(value: T) | Err(error: string)
}
