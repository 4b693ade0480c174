/** Failure-compatible results and bytes, shared by the other modules. */
module Common {

  type Byte = bv8

  datatype Option<+T> = None | Some(value: T)

  datatype Result<+T, +E> = Ok(value: T) | Err(error: E)
}
