/** Optional values and results with an error message, shared by every module. */
module Wrappers {

  datatype Option<+T> = None | Some(value: T)

  /** A computation that either produces a value or fails the way the
      Python code fails: by raising an exception that nobody catches. */
  datatype Result<+T> = Ok(value: T) | Err(error: string)
}
