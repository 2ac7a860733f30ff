/** Result shapes shared by every module. */
module Common {

  /** A value that may be absent. */
  datatype Option<+T> = None | Some(value: T)

  /** A computation that returns a value or an error. */
  datatype Result<+T, +E> = Success(value: T) | Failure(error: E)
}
