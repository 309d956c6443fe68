/** Failure-carrying values shared by every module: Go's `(T, error)` pairs. */
module Results {

  datatype Option<+T> = None | Some(value: T)

  /** A value or a Go error, represented by its message. */
  datatype Result<+T> = Ok(value: T) | Err(error: string)
}
