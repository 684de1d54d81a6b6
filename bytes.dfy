/** Byte strings as the Python samples handle them (`bytes`, `bytearray`). */
module Bytes {
  newtype byte = x: int | 0 <= x < 256

  /** Python slicing `s[n:]`: everything after the first n bytes, empty when n is past the end. */
  function Drop(s: seq<byte>, n: nat): (r: seq<byte>)
    ensures |r| == if n <= |s| then |s| - n else 0
    ensures n <= |s| ==> s == s[..n] + r
  {
    if n <= |s| then s[n..] else []
  }
}
