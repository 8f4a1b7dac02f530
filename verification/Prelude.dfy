/** Outcome types shared by every module: the source's thrown errors become `Err` values. */
module Prelude {
  datatype Option<+T> = None | Some(value: T)

  datatype Result<+T, +E> = Ok(value: T) | Err(error: E)
}
