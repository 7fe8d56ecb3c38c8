/** Optional values and success/failure results used across the model. */
module Results {

  datatype Option<+T> = None | Some(value: T)

  /** A computation that either produced a value or failed with an error (an exception in the source). */
  datatype Result<+T, +E> = Ok(value: T) | Err(error: E)
}
