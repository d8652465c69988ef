// Fixed-width unsigned integers of the C++ source and little-endian byte
// decoding, as the archive readers do with memcpy on a little-endian host.
module Bytes {
  type Byte = x: int | 0 <= x < 0x100
  type U16 = x: int | 0 <= x < 0x1_0000
  type U32 = x: int | 0 <= x < 0x1_0000_0000
  type U64 = x: int | 0 <= x < 0x1_0000_0000_0000_0000

  /** Unsigned 16-bit wrap-around of an int result. */
  function Wrap16(x: int): (r: U16)
    ensures 0 <= x < 0x1_0000 ==> r == x
  {
    x % 0x1_0000
  }

  /** Unsigned 32-bit wrap-around of an int result. */
  function Wrap32(x: int): (r: U32)
    ensures 0 <= x < 0x1_0000_0000 ==> r == x
    ensures 0x1_0000_0000 <= x < 0x2_0000_0000 ==> r == x - 0x1_0000_0000
  {
    x % 0x1_0000_0000
  }

  function DecodeU16(s: seq<Byte>): U16
    requires |s| == 2
  {
    s[0] as int + 0x100 * s[1] as int
  }

  function DecodeU32(s: seq<Byte>): U32
    requires |s| == 4
  {
    s[0] as int + 0x100 * s[1] as int + 0x1_0000 * s[2] as int + 0x100_0000 * s[3] as int
  }

  function EncodeU16(x: U16): (s: seq<Byte>)
    ensures |s| == 2
  {
    [x % 0x100, x / 0x100]
  }

  function EncodeU32(x: U32): (s: seq<Byte>)
    ensures |s| == 4
  {
    EncodeU16(x % 0x1_0000) + EncodeU16(x / 0x1_0000)
  }

  lemma DecodeEncodeU16(x: U16)
    ensures DecodeU16(EncodeU16(x)) == x
  {
  }

  lemma DecodeEncodeU32(x: U32)
    ensures DecodeU32(EncodeU32(x)) == x
  {
    var lo, hi := x % 0x1_0000, x / 0x1_0000;
    var s := EncodeU32(x);
    DecodeEncodeU16(lo);
    DecodeEncodeU16(hi);
    assert s[..2] == EncodeU16(lo) && s[2..] == EncodeU16(hi);
    assert DecodeU32(s) == DecodeU16(s[..2]) + 0x1_0000 * DecodeU16(s[2..]);
  }

  /** Bytes as the C++ `char` values a std::string holds (0..255). */
  function BytesToString(s: seq<Byte>): (r: string)
    ensures |r| == |s| && forall i :: 0 <= i < |s| ==> r[i] as int == s[i]
  {
    seq(|s|, i requires 0 <= i < |s| => s[i] as char)
  }

  /** The characters of `s` up to, not including, its first NUL. */
  function UntilNul(s: seq<Byte>): (r: seq<Byte>)
    ensures |r| <= |s| && r == s[..|r|]
    ensures forall i :: 0 <= i < |r| ==> r[i] != 0
    ensures |r| == |s| || s[|r|] == 0
  {
    if |s| == 0 || s[0] == 0 then [] else [s[0]] + UntilNul(s[1..])
  }
}
