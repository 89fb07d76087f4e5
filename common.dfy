/** Types shared by every part of the teleport model. */
module Common {

  /** One octet of a token, as the C code's `char` buffer holds it. */
  newtype byte = x: int | 0 <= x < 256

  /** A token: an opaque block of bytes of the port's fixed size. */
  type Token = seq<byte>

  /** The range of the C `int` that token sizes and ports are passed in. */
  type CInt = x: int | -0x8000_0000 <= x < 0x8000_0000

  datatype Option<T> = None | Some(value: T)
}
