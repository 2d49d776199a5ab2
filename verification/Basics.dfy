/** Failure-carrying values shared by every module. */
module Basics {
  type Digest = string
  type Account = string

  datatype Option<+T> = None | Some(value: T)

  datatype Result<+T, +E> = Ok(value: T) | Err(error: E)
}
