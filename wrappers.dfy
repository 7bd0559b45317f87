/** Optional values and results with an error, shared by every module of the model. */
module Wrappers {

  /** A value that may be absent: JavaScript's `null`/`undefined` next to a present value. */
  datatype Option<+T> = None | Some(value: T)

  /** The outcome of an operation that can throw: `Ok` or the error it raises. */
  datatype Result<+T, +E> = Ok(value: T) | Err(error: E)
}
