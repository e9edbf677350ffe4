/** Small shared datatypes. */
module Basics {

  datatype Option<+T> = None | Some(value: T)

  datatype Result<+T> = Ok(value: T) | Err

  /** A byte of a buffer, a file or a socket. */
  type Byte = bv8
}
