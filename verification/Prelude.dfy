/** Option, Result and byte values shared by every other module. */
module Prelude {

  datatype Option<+T> = None | Some(value: T)

  datatype Result<+T, +E> = Ok(value: T) | Err(error: E)

  type Byte = b: int | 0 <= b < 256

  /** The largest integer a JavaScript number counts with exactly: `Number.MAX_SAFE_INTEGER`. */
  const MAX_SAFE: nat := 0x1F_FFFF_FFFF_FFFF

  /** A reading of `Date.now()`, or any other whole number. */
  predicate IsWhole(x: real) {
    x.Floor as real == x
  }
}
