/**
 * Small shared vocabulary: the optional and fallible results the Rust code
 * expresses with `Option` and `anyhow::Result`, and the `u32` integer width.
 */
module Common {

  datatype Option<+T> = None | Some(value: T)

  /** `anyhow::Result`: either a value or an error describing what went wrong. */
  datatype Result<+T, +E> = Ok(value: T) | Err(error: E)

  /** Rust's `u32`. */
  type U32 = x: int | 0 <= x < 0x1_0000_0000
}
