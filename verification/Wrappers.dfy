/** Optional values, results carrying an error, and the machine widths that several components share. */
module Wrappers {
  datatype Option<+T> = None | Some(value: T)

  datatype Result<+T, +E> = Ok(value: T) | Err(error: E)

  type Byte = n: nat | n < 256

  const TWO_32: nat := 0x1_0000_0000
}
