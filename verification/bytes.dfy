/** Bytes: the single representation used for both Go strings and Go byte
    slices. A Go string is an immutable sequence of bytes, and the
    conversions `string(b)` and `[]byte(s)` copy the bytes unchanged, so
    both become `seq<byte>` here and the conversions become the identity. */
module Bytes {

  newtype byte = b: int | 0 <= b < 256

  /** True if every character of a Dafny string is 7-bit ASCII. */
  predicate IsAscii(s: string) {
    forall i :: 0 <= i < |s| ==> s[i] as int < 128
  }

  /** The UTF-8 encoding of an ASCII string: one byte per character, with
      the character's code as the byte value. This is what Go's
      `[]byte(keyword)` yields for the ASCII keyword literals. */
  function FromAscii(s: string): (b: seq<byte>)
    requires IsAscii(s)
    ensures |b| == |s|
    ensures forall i :: 0 <= i < |s| ==> b[i] as int == s[i] as int
  {
    seq(|s|, i requires 0 <= i < |s| => s[i] as int as byte)
  }

  /** Encoding commutes with taking a slice. */
  lemma FromAsciiSlice(s: string, lo: int, hi: int)
    requires IsAscii(s) && 0 <= lo <= hi <= |s|
    ensures IsAscii(s[lo..hi]) && FromAscii(s)[lo..hi] == FromAscii(s[lo..hi])
  {
  }

  /** Different ASCII strings have different encodings. */
  lemma FromAsciiInjective(s: string, t: string)
    requires IsAscii(s) && IsAscii(t)
    ensures FromAscii(s) == FromAscii(t) <==> s == t
  {
  }
}
