/** Vocabulary shared by every part of the model: bytes and the usual
    option and result wrappers. */
module Base {

  /** A Go `byte`. */
  newtype byte = x: int | 0 <= x < 256

  datatype Option<+T> = None | Some(value: T)

  datatype Result<+T, +E> = Ok(value: T) | Err(error: E)

  /** True when `b` is one of the ASCII digits '1' to '9'. */
  predicate IsNonZeroDigit(b: byte)
  {
    '1' as byte <= b <= '9' as byte
  }
}
