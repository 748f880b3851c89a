/** Result types shared by the modules of the project. */
module Prelude {
  datatype Option<+T> = None | Some(value: T)

  /** A service call either returns a value or raises; a raise rolls the transaction back. */
  datatype Result<+T, +E> = Ok(value: T) | Err(error: E)
}
