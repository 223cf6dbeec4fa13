/** Failure-carrying return values shared by the service operations. */
module Results {

  /** A value that may be absent, as a lookup that finds no document. */
  datatype Option<+T> = None | Some(value: T)

  /** Either the operation's output or the error it raised. */
  datatype Result<+T, +E> = Ok(value: T) | Err(error: E)
}
