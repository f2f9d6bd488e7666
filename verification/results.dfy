/** Optional values and success/failure results shared by every module. */
module Results {

  /** A value that may be missing: Python's `None` or a real value. */
  datatype Option<+T> = None | Some(value: T)

  /** The outcome of an operation that either produces a value or raises. */
  datatype Result<+T, +E> = Ok(value: T) | Err(error: E)
}
