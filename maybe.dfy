/** Optional values and results shared by the modules of this model. */
module Maybe {

  /** A value that may be absent: an unbound Python variable, a file that does not exist. */
  datatype Option<+T> = None | Some(value: T)

  /** The outcome of an operation that either returns a value or raises an exception. */
  datatype Result<+T, +E> = Ok(value: T) | Err(error: E)
}
