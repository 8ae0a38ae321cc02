/** Optional values and results with an error, standing for Python's None and raised exceptions. */
module Wrappers {

  /** Python's Optional[T]: None, or a value. */
  datatype Option<+T> = None | Some(value: T)

  /** The outcome of an operation that either returns a value or raises an error. */
  datatype Result<+T, +E> = Ok(value: T) | Err(error: E)
}
