/** Failure-carrying wrappers shared by the modules of this model. */
module Results {

  /** A value that may be absent (PHP's null). */
  datatype Option<+T> = None | Some(value: T)

  /** A computed value, or the exception the computation raised. */
  datatype Result<+T, +E> = Ok(value: T) | Err(error: E)

  /** A step that either completes or raises an exception. */
  datatype Outcome<+E> = Pass | Fail(error: E)
}
