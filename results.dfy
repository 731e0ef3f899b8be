/** Optional values and error-or-value results used throughout the model. */
module Results {

  /** `null` versus a found object, as `FirstOrDefault` returns it. */
  datatype Option<+T> = None | Some(value: T)

  /** A value, or the error that stops the computation (an exception in the source). */
  datatype Result<+T, +E> = Ok(value: T) | Err(error: E)
}
