/** Big-endian byte strings. */
module Bytes {

  type Byte = b: nat | b < 256

  /** The number a big-endian byte string denotes. */
  function BeValue(bytes: seq<Byte>): nat {
    if bytes == [] then 0 else BeValue(bytes[..|bytes| - 1]) * 256 + bytes[|bytes| - 1]
  }

  /** The 32 zero bytes of a blank word. */
  const BLANK_WORD: seq<Byte> := [
    0, 0, 0, 0, 0, 0, 0, 0, 0, 0, 0, 0, 0, 0, 0, 0, 0, 0, 0, 0, 0, 0, 0, 0, 0, 0, 0, 0, 0, 0, 0, 0
  ]

  function Pow256(k: nat): (p: nat)
    ensures p >= 1
  {
    if k == 0 then 1 else 256 * Pow256(k - 1)
  }
}
