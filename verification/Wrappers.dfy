/** Optional values and results shared by every module. */
module Wrappers {

  datatype Option<+T> = None | Some(value: T)

  /** The outcome of a service call: a value, or the error that was thrown. */
  datatype Result<+T, +E> = Ok(value: T) | Err(error: E)
}
