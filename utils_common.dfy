// Helpers of utils/common: clamp, the power-of-two test, trimming of
// printed floats and the nibble-table CRC-32 used to validate archive data.
module UtilsCommon {
  import opened Bytes

  /** Capacity of the stack-allocated temporary strings. */
  const MaxTempStringLen := 2048

  // ---------------------------------------------------------------------
  // clamp
  // ---------------------------------------------------------------------

  /** `x` limited to the inclusive range [lo, hi]; the bounds are not reordered. */
  function Clamp(x: int, lo: int, hi: int): (r: int)
    ensures r == x || r == lo || r == hi
    ensures lo <= hi ==> lo <= r <= hi
    ensures lo <= x <= hi ==> r == x
  {
    if x < lo then lo else if x > hi then hi else x
  }

  lemma ClampIdempotent(x: int, lo: int, hi: int)
    requires lo <= hi
    ensures Clamp(Clamp(x, lo, hi), lo, hi) == Clamp(x, lo, hi)
  {
  }

  // ---------------------------------------------------------------------
  // isPowerOfTwo, for an unsigned 32-bit argument
  // ---------------------------------------------------------------------

  function IsPowerOfTwo(x: bv32): bool
  {
    x > 0 && x & (x - 1) == 0
  }

  function Pow2(k: nat): bv32
    requires k < 32
  {
    (1 as bv32) << k
  }

  lemma PowerOfTwoByValue(x: bv32)
    ensures IsPowerOfTwo(x) <==>
      x == 0x1 || x == 0x2 || x == 0x4 || x == 0x8 || x == 0x10 || x == 0x20 || x == 0x40 || x == 0x80
      || x == 0x100 || x == 0x200 || x == 0x400 || x == 0x800 || x == 0x1000 || x == 0x2000 || x == 0x4000 || x == 0x8000
      || x == 0x10000 || x == 0x20000 || x == 0x40000 || x == 0x80000 || x == 0x100000 || x == 0x200000 || x == 0x400000 || x == 0x800000
      || x == 0x1000000 || x == 0x2000000 || x == 0x4000000 || x == 0x8000000 || x == 0x10000000 || x == 0x20000000 || x == 0x40000000 || x == 0x80000000
  {
  }

  lemma SingleBitIsPowerOfTwo(k: nat)
    requires k < 32
    ensures IsPowerOfTwo(Pow2(k))
  {
  }

  lemma SingleBitWitness(x: bv32)
    requires
      x == 0x1 || x == 0x2 || x == 0x4 || x == 0x8 || x == 0x10 || x == 0x20 || x == 0x40 || x == 0x80
      || x == 0x100 || x == 0x200 || x == 0x400 || x == 0x800 || x == 0x1000 || x == 0x2000 || x == 0x4000 || x == 0x8000
      || x == 0x10000 || x == 0x20000 || x == 0x40000 || x == 0x80000 || x == 0x100000 || x == 0x200000 || x == 0x400000 || x == 0x800000
      || x == 0x1000000 || x == 0x2000000 || x == 0x4000000 || x == 0x8000000 || x == 0x10000000 || x == 0x20000000 || x == 0x40000000 || x == 0x80000000
    ensures exists k: nat :: k < 32 && x == Pow2(k)
  {
    if x == 0x1 { assert x == Pow2(0); }
    else if x == 0x2 { assert x == Pow2(1); }
    else if x == 0x4 { assert x == Pow2(2); }
    else if x == 0x8 { assert x == Pow2(3); }
    else if x == 0x10 { assert x == Pow2(4); }
    else if x == 0x20 { assert x == Pow2(5); }
    else if x == 0x40 { assert x == Pow2(6); }
    else if x == 0x80 { assert x == Pow2(7); }
    else if x == 0x100 { assert x == Pow2(8); }
    else if x == 0x200 { assert x == Pow2(9); }
    else if x == 0x400 { assert x == Pow2(10); }
    else if x == 0x800 { assert x == Pow2(11); }
    else if x == 0x1000 { assert x == Pow2(12); }
    else if x == 0x2000 { assert x == Pow2(13); }
    else if x == 0x4000 { assert x == Pow2(14); }
    else if x == 0x8000 { assert x == Pow2(15); }
    else if x == 0x10000 { assert x == Pow2(16); }
    else if x == 0x20000 { assert x == Pow2(17); }
    else if x == 0x40000 { assert x == Pow2(18); }
    else if x == 0x80000 { assert x == Pow2(19); }
    else if x == 0x100000 { assert x == Pow2(20); }
    else if x == 0x200000 { assert x == Pow2(21); }
    else if x == 0x400000 { assert x == Pow2(22); }
    else if x == 0x800000 { assert x == Pow2(23); }
    else if x == 0x1000000 { assert x == Pow2(24); }
    else if x == 0x2000000 { assert x == Pow2(25); }
    else if x == 0x4000000 { assert x == Pow2(26); }
    else if x == 0x8000000 { assert x == Pow2(27); }
    else if x == 0x10000000 { assert x == Pow2(28); }
    else if x == 0x20000000 { assert x == Pow2(29); }
    else if x == 0x40000000 { assert x == Pow2(30); }
    else { assert x == Pow2(31); }
  }

  /** The bit trick accepts exactly the values with a single bit set. */
  lemma PowerOfTwoIff(x: bv32)
    ensures IsPowerOfTwo(x) <==> exists k: nat :: k < 32 && x == Pow2(k)
  {
    PowerOfTwoByValue(x);
    if exists k: nat :: k < 32 && x == Pow2(k) {
      var k: nat :| k < 32 && x == Pow2(k);
      SingleBitIsPowerOfTwo(k);
    }
    if IsPowerOfTwo(x) {
      SingleBitWitness(x);
    }
  }

  // ---------------------------------------------------------------------
  // removeTrailingFloatZeros
  // ---------------------------------------------------------------------

  /**
   * A string with a '.' loses its trailing '0' characters and then a dot
   * left at the end; a string without '.' is returned as it is.
   */
  method RemoveTrailingFloatZeros(floatStr: string) returns (trimmed: string)
    ensures '.' !in floatStr ==> trimmed == floatStr
    ensures '.' in floatStr ==>
      && |trimmed| <= |floatStr|
      && trimmed == floatStr[..|trimmed|]
      && (forall i :: |trimmed| < i < |floatStr| ==> floatStr[i] == '0')
      && (|trimmed| < |floatStr| ==> floatStr[|trimmed|] == '0' || floatStr[|trimmed|] == '.')
      && ((|trimmed| == |floatStr| || floatStr[|trimmed|] == '0') && |trimmed| > 0 ==>
            trimmed[|trimmed| - 1] != '0' && trimmed[|trimmed| - 1] != '.')
  {
    if '.' !in floatStr {
      return floatStr;
    }
    trimmed := floatStr;
    while |trimmed| > 0 && trimmed[|trimmed| - 1] == '0'
      invariant trimmed == floatStr[..|trimmed|]
      invariant forall i :: |trimmed| <= i < |floatStr| ==> floatStr[i] == '0'
    {
      trimmed := trimmed[..|trimmed| - 1];
    }
    if |trimmed| > 0 && trimmed[|trimmed| - 1] == '.' {
      trimmed := trimmed[..|trimmed| - 1];
    }
  }

  // ---------------------------------------------------------------------
  // computeCrc32: CRC-32 (reflected polynomial 0xEDB88320) with a
  // sixteen-entry table, processing each byte as two nibbles.
  // ---------------------------------------------------------------------

  const CrcTable: seq<bv32> := [
    0x00000000, 0x1DB71064, 0x3B6E20C8, 0x26D930AC,
    0x76DC4190, 0x6B6B51F4, 0x4DB26158, 0x5005713C,
    0xEDB88320, 0xF00F9344, 0xD6D6A3E8, 0xCB61B38C,
    0x9B64C2B0, 0x86D3D2D4, 0xA00AE278, 0xBDBDF21C]

  /** One nibble of the table-driven loop, looking entries up in `table`. */
  function NibbleStep(table: seq<bv32>, crc: bv32, nibble: bv32): bv32
    requires |table| == 16 && nibble < 16
  {
    (crc >> 4) ^ table[((crc & 0xF) ^ nibble) as int]
  }

  /** One byte of the table-driven loop: low nibble first, then high nibble. */
  function ByteStep(crc: bv32, b: bv32): bv32
    requires b < 256
  {
    NibbleStep(CrcTable, NibbleStep(CrcTable, crc, b & 0xF), b >> 4)
  }

  lemma ByteFits(b: Byte)
    ensures (b as bv32) < 256
  {
  }

  /** The CRC register after feeding `data` to the table-driven loop. */
  function CrcRegister(crc: bv32, data: seq<Byte>): bv32
  {
    if |data| == 0 then crc
    else
      ByteFits(data[|data| - 1]);
      ByteStep(CrcRegister(crc, data[..|data| - 1]), data[|data| - 1] as bv32)
  }

  const CrcInit: bv32 := 0xFFFF_FFFF

  /** CRC-32 of `data` as computeCrc32 returns it. */
  function Crc32(data: seq<Byte>): bv32
  {
    !CrcRegister(CrcInit, data)
  }

  method ComputeCrc32(data: seq<Byte>) returns (crc: bv32)
    requires |data| != 0
    ensures crc == Crc32(data)
  {
    var crcu32: bv32 := 0;
    crcu32 := !crcu32;
    var i := 0;
    while i < |data|
      invariant 0 <= i <= |data|
      invariant crcu32 == CrcRegister(CrcInit, data[..i])
    {
      var b := data[i] as bv32;
      CrcRegisterNext(CrcInit, data, i);
      ByteNibbles(b);
      crcu32 := NibbleStep(CrcTable, crcu32, b & 0xF);
      crcu32 := NibbleStep(CrcTable, crcu32, b >> 4);
      i := i + 1;
    }
    assert data[..i] == data;
    crc := !crcu32;
  }

  lemma ByteNibbles(b: bv32)
    requires b < 256
    ensures b & 0xF < 16 && b >> 4 < 16
  {
  }

  lemma CrcRegisterNext(crc: bv32, data: seq<Byte>, i: nat)
    requires i < |data|
    ensures (data[i] as bv32) < 256
    ensures CrcRegister(crc, data[..i + 1]) == ByteStep(CrcRegister(crc, data[..i]), data[i] as bv32)
  {
    ByteFits(data[i]);
    assert data[..i + 1][..i] == data[..i];
  }

  /** Feeding two pieces one after the other equals feeding their concatenation. */
  lemma {:induction false} CrcRegisterAppend(crc: bv32, a: seq<Byte>, b: seq<Byte>)
    ensures CrcRegister(crc, a + b) == CrcRegister(CrcRegister(crc, a), b)
    decreases |b|
  {
    if |b| == 0 {
      assert a + b == a;
    } else {
      var b' := b[..|b| - 1];
      assert (a + b)[..|a + b| - 1] == a + b';
      CrcRegisterAppend(crc, a, b');
    }
  }

  // Reference definition: the textbook bit-at-a-time reflected CRC-32.

  function BitStep(crc: bv32): bv32
  {
    if crc & 1 == 1 then (crc >> 1) ^ 0xEDB88320 else crc >> 1
  }

  function BitSteps(crc: bv32, k: nat): bv32
    decreases k
  {
    if k == 0 then crc else BitSteps(BitStep(crc), k - 1)
  }

  function BitwiseRegister(crc: bv32, data: seq<Byte>): bv32
  {
    if |data| == 0 then crc
    else BitSteps(BitwiseRegister(crc, data[..|data| - 1]) ^ (data[|data| - 1] as bv32), 8)
  }

  function BitwiseCrc32(data: seq<Byte>): bv32
  {
    !BitwiseRegister(CrcInit, data)
  }

  lemma UnrollFour(x: bv32)
    ensures BitSteps(x, 4) == FourBitSteps(x)
  {
    assert BitSteps(x, 4) == BitSteps(BitStep(x), 3);
    assert BitSteps(BitStep(x), 3) == BitSteps(BitStep(BitStep(x)), 2);
    assert BitSteps(BitStep(BitStep(x)), 2) == BitSteps(BitStep(BitStep(BitStep(x))), 1);
  }

  lemma UnrollEight(x: bv32)
    ensures BitSteps(x, 8) == BitSteps(BitSteps(x, 4), 4)
  {
    assert BitSteps(x, 8) == BitSteps(BitStep(x), 7);
    assert BitSteps(BitStep(x), 7) == BitSteps(BitStep(BitStep(x)), 6);
    assert BitSteps(BitStep(BitStep(x)), 6) == BitSteps(BitStep(BitStep(BitStep(x))), 5);
    assert BitSteps(BitStep(BitStep(BitStep(x))), 5) == BitSteps(BitStep(BitStep(BitStep(BitStep(x)))), 4);
    UnrollFour(x);
  }

  /** The register without its low nibble. */
  function High(x: bv32): bv32
  {
    x >> 4
  }

  /** The low nibble as a table index. */
  function Low(x: bv32): (i: int)
    ensures 0 <= i < 16
  {
    (x & 0xF) as int
  }

  function TableStep(table: seq<bv32>, x: bv32): bv32
    requires |table| == 16
  {
    High(x) ^ table[Low(x)]
  }

  function FourBitSteps(x: bv32): bv32
  {
    BitStep(BitStep(BitStep(BitStep(x))))
  }

  /** Four single-bit steps only look at the low nibble for what they fold in. */
  lemma FourBitStepsSplit(x: bv32)
    ensures FourBitSteps(x) == High(x) ^ FourBitSteps(x & 0xF)
  {
  }

  lemma TableIsFourBitSteps(k: bv32)
    requires k < 16
    ensures CrcTable[Low(k)] == FourBitSteps(k)
  {
    if k < 8 {
      if k == 0 {} else if k == 1 {} else if k == 2 {} else if k == 3 {}
      else if k == 4 {} else if k == 5 {} else if k == 6 {} else {}
    } else {
      if k == 8 {} else if k == 9 {} else if k == 10 {} else if k == 11 {}
      else if k == 12 {} else if k == 13 {} else if k == 14 {} else {}
    }
  }

  lemma LowOfLowNibble(x: bv32)
    ensures Low(x & 0xF) == Low(x)
  {
    assert (x & 0xF) & 0xF == x & 0xF;
  }

  /** A table whose entry k is four single-bit steps applied to k. */
  ghost predicate FourBitTable(table: seq<bv32>)
  {
    && |table| == 16
    && forall k: bv32 :: k < 16 ==> table[Low(k)] == FourBitSteps(k)
  }

  lemma CrcTableIsFourBitTable()
    ensures FourBitTable(CrcTable)
  {
    forall k: bv32 | k < 16
      ensures CrcTable[Low(k)] == FourBitSteps(k)
    {
      TableIsFourBitSteps(k);
    }
  }

  lemma FourBitStepsAreTableStep(table: seq<bv32>, x: bv32)
    requires FourBitTable(table)
    ensures BitSteps(x, 4) == TableStep(table, x)
  {
    UnrollFour(x);
    FourBitStepsSplit(x);
    LowOfLowNibble(x);
    assert x & 0xF < 16;
    assert table[Low(x & 0xF)] == FourBitSteps(x & 0xF);
  }

  lemma XorLowNibble(crc: bv32, nibble: bv32)
    requires nibble < 16
    ensures Low(crc ^ nibble) == ((crc & 0xF) ^ nibble) as int
    ensures High(crc ^ nibble) == crc >> 4
  {
    assert (crc ^ nibble) & 0xF == (crc & 0xF) ^ nibble;
  }

  lemma NibbleStepIsTableStep(table: seq<bv32>, crc: bv32, nibble: bv32)
    requires |table| == 16 && nibble < 16
    ensures NibbleStep(table, crc, nibble) == TableStep(table, crc ^ nibble)
  {
    XorLowNibble(crc, nibble);
  }

  lemma XorByteNibbles(crc: bv32, b: bv32)
    ensures High(crc ^ b) == High(crc ^ (b & 0xF)) ^ (b >> 4)
    ensures Low(crc ^ b) == Low(crc ^ (b & 0xF))
  {
    assert (crc ^ b) & 0xF == (crc ^ (b & 0xF)) & 0xF;
  }

  lemma XorSwap(x: bv32, y: bv32, z: bv32)
    ensures (x ^ y) ^ z == (x ^ z) ^ y
  {
  }

  lemma FirstNibble(table: seq<bv32>, crc: bv32, b: bv32)
    requires |table| == 16
    ensures TableStep(table, crc ^ b) == NibbleStep(table, crc, b & 0xF) ^ (b >> 4)
  {
    var lo := b & 0xF;
    assert lo < 16;
    NibbleStepIsTableStep(table, crc, lo);
    XorByteNibbles(crc, b);
    XorSwap(High(crc ^ lo), b >> 4, table[Low(crc ^ lo)]);
  }

  lemma ByteStepIsTwoTableSteps(table: seq<bv32>, crc: bv32, b: bv32)
    requires |table| == 16 && b < 256
    ensures NibbleStep(table, NibbleStep(table, crc, b & 0xF), b >> 4) == TableStep(table, TableStep(table, crc ^ b))
  {
    assert b & 0xF < 16 && b >> 4 < 16;
    FirstNibble(table, crc, b);
    NibbleStepIsTableStep(table, NibbleStep(table, crc, b & 0xF), b >> 4);
  }

  lemma TableByteIsEightBitSteps(table: seq<bv32>, crc: bv32, b: bv32)
    requires FourBitTable(table) && b < 256
    ensures NibbleStep(table, NibbleStep(table, crc, b & 0xF), b >> 4) == BitSteps(crc ^ b, 8)
  {
    var x := crc ^ b;
    ByteStepIsTwoTableSteps(table, crc, b);
    UnrollEight(x);
    FourBitStepsAreTableStep(table, x);
    FourBitStepsAreTableStep(table, BitSteps(x, 4));
  }

  lemma ByteStepIsEightBitSteps(crc: bv32, b: bv32)
    requires b < 256
    ensures ByteStep(crc, b) == BitSteps(crc ^ b, 8)
  {
    CrcTableIsFourBitTable();
    TableByteIsEightBitSteps(CrcTable, crc, b);
  }

  /** The table-driven register agrees with the bit-at-a-time one on every input. */
  lemma {:induction false} CrcRegisterIsBitwise(crc: bv32, data: seq<Byte>)
    ensures CrcRegister(crc, data) == BitwiseRegister(crc, data)
  {
    if |data| > 0 {
      CrcRegisterIsBitwise(crc, data[..|data| - 1]);
      ByteFits(data[|data| - 1]);
      ByteStepIsEightBitSteps(CrcRegister(crc, data[..|data| - 1]), data[|data| - 1] as bv32);
    }
  }

  lemma {:induction false} Crc32IsBitwise(data: seq<Byte>)
    ensures Crc32(data) == BitwiseCrc32(data)
  {
    var r := CrcRegister(CrcInit, data);
    CrcRegisterIsBitwise(CrcInit, data);
    assert Crc32(data) == !r;
    assert BitwiseCrc32(data) == !r;
  }

  lemma CheckStep0()
    ensures ByteStep(0xFFFFFFFF, 0x31) == 0x7C231048
  {
  }

  lemma CheckStep1()
    ensures ByteStep(0x7C231048, 0x32) == 0xB0ACBB32
  {
  }

  lemma CheckStep2()
    ensures ByteStep(0xB0ACBB32, 0x33) == 0x77B79C2D
  {
  }

  lemma CheckStep3()
    ensures ByteStep(0x77B79C2D, 0x34) == 0x641C1F5C
  {
  }

  lemma CheckStep4()
    ensures ByteStep(0x641C1F5C, 0x35) == 0x340AC5E3
  {
  }

  lemma CheckStep5()
    ensures ByteStep(0x340AC5E3, 0x36) == 0xF68D2C9E
  {
  }

  lemma CheckStep6()
    ensures ByteStep(0xF68D2C9E, 0x37) == 0xAFFC9660
  {
  }

  lemma CheckStep7()
    ensures ByteStep(0xAFFC9660, 0x38) == 0x651F2550
  {
  }

  lemma CheckStep8()
    ensures ByteStep(0x651F2550, 0x39) == 0x340BC6D9
  {
  }

  lemma ByteAsBv(b: Byte, v: bv32)
    requires v < 256 && b == v as int
    ensures b as bv32 == v
  {
  }

  // The check value, one byte at a time.

  lemma CheckPrefix0(s: seq<Byte>)
    requires |s| > 0 && s[0] == 0x31 && CrcRegister(CrcInit, s[..0]) == 0xFFFFFFFF
    ensures CrcRegister(CrcInit, s[..1]) == 0x7C231048
  {
    CrcRegisterNext(CrcInit, s, 0);
    ByteAsBv(s[0], 0x31);
    CheckStep0();
  }

  lemma CheckPrefix1(s: seq<Byte>)
    requires |s| > 1 && s[1] == 0x32 && CrcRegister(CrcInit, s[..1]) == 0x7C231048
    ensures CrcRegister(CrcInit, s[..2]) == 0xB0ACBB32
  {
    CrcRegisterNext(CrcInit, s, 1);
    ByteAsBv(s[1], 0x32);
    CheckStep1();
  }

  lemma CheckPrefix2(s: seq<Byte>)
    requires |s| > 2 && s[2] == 0x33 && CrcRegister(CrcInit, s[..2]) == 0xB0ACBB32
    ensures CrcRegister(CrcInit, s[..3]) == 0x77B79C2D
  {
    CrcRegisterNext(CrcInit, s, 2);
    ByteAsBv(s[2], 0x33);
    CheckStep2();
  }

  lemma CheckPrefix3(s: seq<Byte>)
    requires |s| > 3 && s[3] == 0x34 && CrcRegister(CrcInit, s[..3]) == 0x77B79C2D
    ensures CrcRegister(CrcInit, s[..4]) == 0x641C1F5C
  {
    CrcRegisterNext(CrcInit, s, 3);
    ByteAsBv(s[3], 0x34);
    CheckStep3();
  }

  lemma CheckPrefix4(s: seq<Byte>)
    requires |s| > 4 && s[4] == 0x35 && CrcRegister(CrcInit, s[..4]) == 0x641C1F5C
    ensures CrcRegister(CrcInit, s[..5]) == 0x340AC5E3
  {
    CrcRegisterNext(CrcInit, s, 4);
    ByteAsBv(s[4], 0x35);
    CheckStep4();
  }

  lemma CheckPrefix5(s: seq<Byte>)
    requires |s| > 5 && s[5] == 0x36 && CrcRegister(CrcInit, s[..5]) == 0x340AC5E3
    ensures CrcRegister(CrcInit, s[..6]) == 0xF68D2C9E
  {
    CrcRegisterNext(CrcInit, s, 5);
    ByteAsBv(s[5], 0x36);
    CheckStep5();
  }

  lemma CheckPrefix6(s: seq<Byte>)
    requires |s| > 6 && s[6] == 0x37 && CrcRegister(CrcInit, s[..6]) == 0xF68D2C9E
    ensures CrcRegister(CrcInit, s[..7]) == 0xAFFC9660
  {
    CrcRegisterNext(CrcInit, s, 6);
    ByteAsBv(s[6], 0x37);
    CheckStep6();
  }

  lemma CheckPrefix7(s: seq<Byte>)
    requires |s| > 7 && s[7] == 0x38 && CrcRegister(CrcInit, s[..7]) == 0xAFFC9660
    ensures CrcRegister(CrcInit, s[..8]) == 0x651F2550
  {
    CrcRegisterNext(CrcInit, s, 7);
    ByteAsBv(s[7], 0x38);
    CheckStep7();
  }

  lemma CheckPrefix8(s: seq<Byte>)
    requires |s| > 8 && s[8] == 0x39 && CrcRegister(CrcInit, s[..8]) == 0x651F2550
    ensures CrcRegister(CrcInit, s[..9]) == 0x340BC6D9
  {
    CrcRegisterNext(CrcInit, s, 8);
    ByteAsBv(s[8], 0x39);
    CheckStep8();
  }

  lemma CheckDigitsFirstThird(s: seq<Byte>)
    requires |s| == 9
    requires s[0] == 0x31 && s[1] == 0x32 && s[2] == 0x33 && s[3] == 0x34 && s[4] == 0x35
    requires s[5] == 0x36 && s[6] == 0x37 && s[7] == 0x38 && s[8] == 0x39
    ensures CrcRegister(CrcInit, s[..3]) == 0x77B79C2D
  {
    assert s[..0] == [];
    CheckPrefix0(s); CheckPrefix1(s); CheckPrefix2(s);
  }

  lemma CheckDigitsSecondThird(s: seq<Byte>)
    requires |s| == 9
    requires s[0] == 0x31 && s[1] == 0x32 && s[2] == 0x33 && s[3] == 0x34 && s[4] == 0x35
    requires s[5] == 0x36 && s[6] == 0x37 && s[7] == 0x38 && s[8] == 0x39
    ensures CrcRegister(CrcInit, s[..6]) == 0xF68D2C9E
  {
    CheckDigitsFirstThird(s); CheckPrefix3(s); CheckPrefix4(s); CheckPrefix5(s);
  }

  lemma CheckDigits(s: seq<Byte>)
    requires |s| == 9
    requires s[0] == 0x31 && s[1] == 0x32 && s[2] == 0x33 && s[3] == 0x34 && s[4] == 0x35
    requires s[5] == 0x36 && s[6] == 0x37 && s[7] == 0x38 && s[8] == 0x39
    ensures CrcRegister(CrcInit, s) == 0x340BC6D9
  {
    CheckDigitsSecondThird(s); CheckPrefix6(s); CheckPrefix7(s); CheckPrefix8(s);
    assert s[..9] == s;
  }
  /** The standard check value: CRC-32 of the ASCII text "123456789". */
  lemma Crc32CheckValue()
    ensures Crc32([0x31, 0x32, 0x33, 0x34, 0x35, 0x36, 0x37, 0x38, 0x39]) == 0xCBF43926
  {
    var s: seq<Byte> := [0x31, 0x32, 0x33, 0x34, 0x35, 0x36, 0x37, 0x38, 0x39];
    CheckDigits(s);
    assert Crc32(s) == !CrcRegister(CrcInit, s);
  }
}
