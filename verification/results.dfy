/** Failure-carrying values shared by the analysis modules. */
module Results {

  /** A value that may be absent: Python's exception-raising or missing cases. */
  datatype Option<+T> = None | Some(value: T)

  /** A value or the reason the pipeline stopped. */
  datatype Result<+T, +E> = Ok(value: T) | Err(error: E)
}
