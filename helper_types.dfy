// FourCC identifiers, packed version words and Windows FILETIME stamps.
module HelperTypes {
  import opened Bytes

  // ---------------------------------------------------------------------
  // FourCC
  // ---------------------------------------------------------------------

  /** Four unsigned bytes naming a chunk or file type. */
  datatype FourCC = FourCC(c0: Byte, c1: Byte, c2: Byte, c3: Byte)

  function FourCCFromBytes(s: seq<Byte>): (f: FourCC)
    requires |s| == 4
    ensures [f.c0, f.c1, f.c2, f.c3] == s
  {
    FourCC(s[0], s[1], s[2], s[3])
  }

  function FourCCEqual(a: FourCC, b: FourCC): bool
  {
    a.c0 == b.c0 && a.c1 == b.c1 && a.c2 == b.c2 && a.c3 == b.c3
  }

  function FourCCNotEqual(a: FourCC, b: FourCC): bool
  {
    a.c0 != b.c0 || a.c1 != b.c1 || a.c2 != b.c2 || a.c3 != b.c3
  }

  /** Byte-wise equality is value equality, and `!=` is its exact negation. */
  lemma FourCCEqualIsIdentity(a: FourCC, b: FourCC)
    ensures FourCCEqual(a, b) <==> a == b
    ensures FourCCNotEqual(a, b) <==> !FourCCEqual(a, b)
  {
  }

  /**
   * The value a plain `char` of a C string has when compared with an
   * unsigned byte: `char` is signed, so bytes from 128 up are negative.
   */
  function SignedChar(b: Byte): (v: int)
    ensures -128 <= v < 128
    ensures v % 256 == b
  {
    if b < 128 then b else b - 256
  }

  /** Comparison with the first four characters of a C string. */
  function FourCCEqualsString(a: FourCC, fccStr: seq<Byte>): bool
    requires |fccStr| >= 4
  {
    a.c0 == SignedChar(fccStr[0]) && a.c1 == SignedChar(fccStr[1]) &&
    a.c2 == SignedChar(fccStr[2]) && a.c3 == SignedChar(fccStr[3])
  }

  function FourCCNotEqualsString(a: FourCC, fccStr: seq<Byte>): bool
    requires |fccStr| >= 4
  {
    a.c0 != SignedChar(fccStr[0]) || a.c1 != SignedChar(fccStr[1]) ||
    a.c2 != SignedChar(fccStr[2]) || a.c3 != SignedChar(fccStr[3])
  }

  /**
   * A FourCC matches a string exactly when its bytes are the string's first
   * four characters and all of them are 7-bit; `!=` is the negation.
   */
  lemma FourCCEqualsStringIff(a: FourCC, fccStr: seq<Byte>)
    requires |fccStr| >= 4
    ensures FourCCEqualsString(a, fccStr) <==>
      (fccStr[..4] == [a.c0, a.c1, a.c2, a.c3] && forall i :: 0 <= i < 4 ==> fccStr[i] < 128)
    ensures FourCCNotEqualsString(a, fccStr) <==> !FourCCEqualsString(a, fccStr)
  {
    if FourCCEqualsString(a, fccStr) {
      assert fccStr[..4] == [a.c0, a.c1, a.c2, a.c3];
    }
  }

  // ---------------------------------------------------------------------
  // Version words: 0x00MMmmbb
  // ---------------------------------------------------------------------

  function MakeVersionWord(major: bv32, minor: bv32, build: bv32): bv32
  {
    ((major & 0xFF) << 16) | ((minor & 0xFF) << 8) | (build & 0xFF)
  }

  datatype VersionFields = VersionFields(major: bv32, minor: bv32, build: bv32)

  /** The three numbers versionWordToStr prints, with its masks. */
  function VersionWordFields(version: bv32): (f: VersionFields)
    ensures f.major == (version >> 16) & 0xFF
    ensures f.major < 256 && f.minor < 256 && f.build < 256
  {
    VersionFields((version & 0x00FFA000) >> 16, (version & 0x0000FF00) >> 8, version & 0x000000FF)
  }

  lemma VersionWordTopByteClear(major: bv32, minor: bv32, build: bv32)
    ensures MakeVersionWord(major, minor, build) >> 24 == 0
  {
  }

  /** Reading the fields back yields the low bytes of the packed numbers. */
  lemma VersionWordRoundTrip(major: bv32, minor: bv32, build: bv32)
    ensures VersionWordFields(MakeVersionWord(major, minor, build))
         == VersionFields(major & 0xFF, minor & 0xFF, build & 0xFF)
  {
  }

  /** Byte-ranged triples pack to distinct words. */
  lemma VersionWordInjective(a: VersionFields, b: VersionFields)
    requires a.major < 256 && a.minor < 256 && a.build < 256
    requires b.major < 256 && b.minor < 256 && b.build < 256
    requires MakeVersionWord(a.major, a.minor, a.build) == MakeVersionWord(b.major, b.minor, b.build)
    ensures a == b
  {
    VersionWordRoundTrip(a.major, a.minor, a.build);
    VersionWordRoundTrip(b.major, b.minor, b.build);
  }

  // ---------------------------------------------------------------------
  // FileTime: 100-nanosecond ticks since 1601-01-01, in two 32-bit halves
  // ---------------------------------------------------------------------

  datatype FileTime = FileTime(lowDateTime: U32, highDateTime: U32)

  const TicksPerSecond := 10_000_000
  const EpochDifference := 11_644_473_600

  function FileTimeToU64(ft: FileTime): U64
  {
    ft.highDateTime * 0x1_0000_0000 + ft.lowDateTime
  }

  /** The two halves are recovered from the 64-bit value. */
  lemma FileTimeHalves(ft: FileTime)
    ensures FileTimeToU64(ft) / 0x1_0000_0000 == ft.highDateTime
    ensures FileTimeToU64(ft) % 0x1_0000_0000 == ft.lowDateTime
  {
  }

  /** Reinterpretation of an unsigned 64-bit value as a signed `time_t`. */
  function ToSigned64(x: U64): int
  {
    if x < 0x8000_0000_0000_0000 then x else x - 0x1_0000_0000_0000_0000
  }

  /** Seconds since 1970-01-01 as toPortableTime computes them in 64-bit unsigned arithmetic. */
  function FileTimeToPortableTime(ft: FileTime): (t: int)
  {
    var seconds := FileTimeToU64(ft) / TicksPerSecond;
    ToSigned64((seconds - EpochDifference) % 0x1_0000_0000_0000_0000)
  }

  /**
   * The unsigned wrap and the signed cast cancel: the result is the exact
   * number of seconds, negative precisely for stamps before 1970.
   */
  lemma PortableTimeIsExact(ft: FileTime)
    ensures FileTimeToPortableTime(ft) == FileTimeToU64(ft) / TicksPerSecond - EpochDifference
    ensures FileTimeToPortableTime(ft) < 0 <==> FileTimeToU64(ft) < EpochDifference * TicksPerSecond
  {
    var seconds := FileTimeToU64(ft) / TicksPerSecond;
    assert seconds < 0x1_0000_0000_0000_0000 / TicksPerSecond + 1;
    if seconds < EpochDifference {
      assert (seconds - EpochDifference) % 0x1_0000_0000_0000_0000
          == seconds - EpochDifference + 0x1_0000_0000_0000_0000;
    }
  }
}
