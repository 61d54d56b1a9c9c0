module Bytes {
  type Byte = b: int | 0 <= b < 256

  const NUL: Byte := 0

  /** One more than the largest 64-bit word. */
  const WORD64: nat := 0x1_0000_0000_0000_0000

  /** A C string ends at its first terminator. */
  function UpToNul(s: seq<Byte>): seq<Byte> {
    if s == [] || s[0] == NUL then [] else [s[0]] + UpToNul(s[1..])
  }

  lemma {:induction false} NulFree(s: seq<Byte>)
    requires NUL !in s
    ensures UpToNul(s) == s
  {
    if s != [] { NulFree(s[1..]); }
  }
}
