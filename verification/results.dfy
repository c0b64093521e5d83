/** Failure-carrying wrappers shared by the MFA model. */
module Results {

  /** A value that may be absent; models a nullable column. */
  datatype Option<+T> = None | Some(value: T)

  /** The outcome of an endpoint: a value, or the error it was rejected with. */
  datatype Result<+T, +E> = Ok(value: T) | Err(error: E)
}
