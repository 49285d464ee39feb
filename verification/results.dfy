/** Failure-carrying wrappers shared by the server and client models. */
module Results {

  /** A value that may be absent. */
  datatype Option<+T> = None | Some(value: T)

  /** Either a value or the fault that prevented it. */
  datatype Result<+T, +E> = Ok(value: T) | Err(error: E)
}
