/** Option and Result values shared by the modules of the user service model. */
module Results {

  /** A value that may be absent (JavaScript's `null`/`undefined` where a value is optional). */
  datatype Option<+T> = None | Some(value: T)

  /** Either a value or an error message. */
  datatype Result<+T, +E> = Success(value: T) | Failure(error: E)
}
