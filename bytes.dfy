// Machine integers, little-endian decoding and the failure-carrying wrappers
// shared by the skin decoder and the configuration layer.

module Bytes {

  type Byte = x: int | 0 <= x < 0x100
  type U16 = x: int | 0 <= x < 0x1_0000
  type U32 = x: int | 0 <= x < 0x1_0000_0000

  datatype Option<+T> = None | Some(value: T)

  /** A decode either yields a value or says why it stopped. */
  datatype Result<+T, +E> = Success(value: T) | Failure(error: E)

  /** The little-endian u16 stored in b[at..at + 2]. */
  function U16At(b: seq<Byte>, at: nat): U16
    requires at + 2 <= |b|
  {
    b[at] as int + 0x100 * b[at + 1] as int
  }

  /** The little-endian u32 stored in b[at..at + 4]. */
  function U32At(b: seq<Byte>, at: nat): U32
    requires at + 4 <= |b|
  {
    b[at] as int + 0x100 * b[at + 1] as int + 0x1_0000 * b[at + 2] as int + 0x100_0000 * b[at + 3] as int
  }
}
