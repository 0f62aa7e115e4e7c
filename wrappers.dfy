/** Optional values and results with an error, for the source's `None` returns and raised errors, and bytes. */
module Wrappers {

  datatype Option<+T> = None | Some(value: T)

  datatype Result<+T, +E> = Ok(value: T) | Err(error: E)

  /** A Python `bytes` element. */
  newtype byte = b: int | 0 <= b < 256
}
