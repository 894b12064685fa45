/** The two result shapes shared by the whole project. */
module Options {
  /** A value that may be null or undefined in the source. */
  datatype Option<+T> = None | Some(value: T)

  /** A call that returns or throws. */
  datatype Result<+T, +E> = Ok(value: T) | Err(error: E)
}
