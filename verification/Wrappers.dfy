/** Results and optional values shared by every module of the model. */
module Wrappers {

  /** A value that may be missing (nil in the source). */
  datatype Option<+T> = None | Some(value: T)

  /** A value or the error the source returns in its place. */
  datatype Result<+T, +E> = Ok(value: T) | Err(error: E)

  newtype byte = x: int | 0 <= x < 256

  type Bytes = seq<byte>
}
