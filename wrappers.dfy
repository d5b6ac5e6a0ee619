/** Optional values and results with an error, shared by every module. */
module Wrappers {

  /** `undefined` / `null` versus a present value. */
  datatype Option<+T> = None | Some(value: T)

  /** The outcome of an operation that may throw: its value, or what it threw. */
  datatype Result<+T, +E> = Ok(value: T) | Err(error: E)
}
