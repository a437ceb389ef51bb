/** Small shared vocabulary: Rust's Option and Result, and the byte type. */
module Prelude {

  datatype Option<+T> = None | Some(value: T)

  datatype Result<+T, +E> = Ok(value: T) | Err(error: E)

  /** A Rust `u8`. */
  newtype byte = x: int | 0 <= x < 256
}
