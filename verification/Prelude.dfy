/** Small vocabulary shared by every model: optional values, results and bytes. */
module Prelude {

  datatype Option<+T> = None | Some(value: T)

  datatype Result<+T, +E> = Ok(value: T) | Err(error: E)

  newtype Byte = x: int | 0 <= x < 256

  type Bytes = seq<Byte>
}
