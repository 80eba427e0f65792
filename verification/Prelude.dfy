/** The two result shapes every module shares. */
module Prelude {

  datatype Option<+T> = None | Some(value: T)

  /** A Go `(value, error)` pair of which exactly one half is meaningful. */
  datatype Result<+T> = Ok(value: T) | Err
}
