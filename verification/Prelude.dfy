/** Option and Result, shared by every module. */
module Prelude {
  datatype Option<+T> = None | Some(value: T)

  /** A returned value, or the code of the error the original throws. */
  datatype Result<+T> = Ok(value: T) | Err(code: string)
}
