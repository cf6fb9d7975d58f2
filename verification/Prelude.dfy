/** Types shared by every part of the model. */
module Prelude {

  datatype Option<+T> = None | Some(value: T)

  /** An octet of an encoded request. */
  type byte = x: int | 0 <= x < 256

  type Bytes = seq<byte>

  /** A Go `[][]byte`: `None` is the nil list of a block older than Prague. */
  type RequestList = Option<seq<Bytes>>

  const MAX_UINT64: nat := 0xFFFF_FFFF_FFFF_FFFF

  function Min(a: int, b: int): int {
    if a < b then a else b
  }
}
