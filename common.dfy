/** Small shared vocabulary: bytes and the Option / Result wrappers that
    stand for Rust's `Option` and `Result`. */
module Common {

  /** An unsigned 8-bit value (Rust `u8`). */
  newtype byte = b: int | 0 <= b < 256

  /** A 32-byte digest (`H256`). */
  type Hash32 = s: seq<byte> | |s| == 32 witness seq(32, _ => 0)

  datatype Option<T> = None | Some(value: T) {
    function GetOr(default: T): T {
      match this
      case Some(v) => v
      case None => default
    }
  }

  datatype Result<T, E> = Ok(value: T) | Err(error: E)
}
