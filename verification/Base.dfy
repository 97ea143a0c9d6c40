/** Shared value types: an optional value, a fallible result, and bytes. */
module Base {

  datatype Option<+T> = None | Some(value: T)

  datatype Result<+T> = Ok(value: T) | Err

  /** One octet. The source's `u8`. */
  newtype byte = x: int | 0 <= x < 256

}
