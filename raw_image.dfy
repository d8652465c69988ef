// Dungeon Siege RAW images: a 16-byte header followed by 32-bit BGRA
// pixels, one surface per mip-map level, largest first.
module RawImages {
  import opened Wrappers
  import opened Bytes
  import opened HelperTypes

  /** One pixel as stored in memory: blue, green, red, alpha. */
  datatype Pixel = Pixel(b: Byte, g: Byte, r: Byte, a: Byte)

  const HeaderSize: nat := 16
  /** 'Rapi' stored reversed. */
  const RawMagic: FourCC := FourCC(0x69, 0x70, 0x61, 0x52)
  /** BGRA 8:8:8:8, the only known pixel format. */
  const RawFormat8888: FourCC := FourCC(0x38, 0x38, 0x38, 0x38)

  /** Why a block of memory is not a RAW image. */
  datatype RawError = TooSmall | BadMagic | BadFormat | BadFlags | BadDimensions

  datatype RawHeader = RawHeader(magic: FourCC, format: FourCC, flags: U16,
                                 surfaceCount: U16, width: U16, height: U16)

  // ---------------------------------------------------------------------
  // Byte layout
  // ---------------------------------------------------------------------

  function FourCCBytes(f: FourCC): (s: seq<Byte>)
    ensures |s| == 4 && FourCCFromBytes(s) == f
  {
    [f.c0, f.c1, f.c2, f.c3]
  }

  /** The packed header as it sits at the start of a RAW file. */
  function HeaderAt(data: seq<Byte>): RawHeader
    requires |data| >= HeaderSize
  {
    RawHeader(FourCCFromBytes(data[0..4]), FourCCFromBytes(data[4..8]),
              DecodeU16(data[8..10]), DecodeU16(data[10..12]),
              DecodeU16(data[12..14]), DecodeU16(data[14..16]))
  }

  function EncodeHeader(h: RawHeader): (s: seq<Byte>)
    ensures |s| == HeaderSize
  {
    FourCCBytes(h.magic) + FourCCBytes(h.format) + EncodeU16(h.flags) +
    EncodeU16(h.surfaceCount) + EncodeU16(h.width) + EncodeU16(h.height)
  }

  function EncodePixel(p: Pixel): (s: seq<Byte>)
    ensures |s| == 4
  {
    [p.b, p.g, p.r, p.a]
  }

  function PixelFromBytes(s: seq<Byte>): Pixel
    requires |s| == 4
  {
    Pixel(s[0], s[1], s[2], s[3])
  }

  /** Pixels laid out one after another, four bytes each. */
  function EncodePixels(ps: seq<Pixel>): (s: seq<Byte>)
    ensures |s| == 4 * |ps|
  {
    if ps == [] then [] else EncodePixel(ps[0]) + EncodePixels(ps[1..])
  }

  /** RGBA <=> BGRA: red and blue exchange places. */
  function Swizzle(p: Pixel): (q: Pixel)
    ensures q.b == p.r && q.g == p.g && q.r == p.b && q.a == p.a
  {
    Pixel(p.r, p.g, p.b, p.a)
  }

  function SwizzleAll(ps: seq<Pixel>): (qs: seq<Pixel>)
    ensures |qs| == |ps| && forall i :: 0 <= i < |ps| ==> qs[i] == Swizzle(ps[i])
  {
    seq(|ps|, i requires 0 <= i < |ps| => Swizzle(ps[i]))
  }

  /** The header a single-surface image of the given size is written with. */
  function SingleSurfaceHeader(width: U16, height: U16): RawHeader
  {
    RawHeader(RawMagic, RawFormat8888, 0, 1, width, height)
  }

  // ---------------------------------------------------------------------
  // Header validation
  // ---------------------------------------------------------------------

  /** The checks applied to a RAW file in memory, in the order they are made. */
  function CheckRawHeader(data: seq<Byte>): Result<RawHeader, RawError>
  {
    if |data| < HeaderSize then Err(TooSmall)
    else
      var h := HeaderAt(data);
      if h.magic != RawMagic then Err(BadMagic)
      else if h.format != RawFormat8888 then Err(BadFormat)
      else if h.flags != 0 then Err(BadFlags)
      else if h.width == 0 || h.height == 0 then Err(BadDimensions)
      else Ok(h)
  }

  /**
   * A header is accepted exactly when there are 16 bytes, the magic and
   * format match, no flag is set and both dimensions are non-zero.
   */
  lemma CheckRawHeaderIff(data: seq<Byte>)
    ensures CheckRawHeader(data).Ok? <==>
      (&& |data| >= HeaderSize
       && data[0..4] == FourCCBytes(RawMagic)
       && data[4..8] == FourCCBytes(RawFormat8888)
       && data[8..10] == [0, 0]
       && DecodeU16(data[12..14]) != 0
       && DecodeU16(data[14..16]) != 0)
    ensures CheckRawHeader(data).Ok? ==> CheckRawHeader(data).value == HeaderAt(data)
  {
    if |data| >= HeaderSize {
      assert FourCCBytes(FourCCFromBytes(data[0..4])) == data[0..4];
      assert FourCCBytes(FourCCFromBytes(data[4..8])) == data[4..8];
    }
  }

  /** Writing a header and reading it back gives the same fields. */
  lemma HeaderRoundTrip(h: RawHeader, rest: seq<Byte>)
    ensures HeaderAt(EncodeHeader(h) + rest) == h
  {
    var s := EncodeHeader(h) + rest;
    var flags, count, w, ht := EncodeU16(h.flags), EncodeU16(h.surfaceCount), EncodeU16(h.width), EncodeU16(h.height);
    assert s[8] == flags[0] && s[9] == flags[1] && s[10] == count[0] && s[11] == count[1];
    assert s[12] == w[0] && s[13] == w[1] && s[14] == ht[0] && s[15] == ht[1];
    assert s[0..4] == FourCCBytes(h.magic);
    assert s[4..8] == FourCCBytes(h.format);
    assert s[8..10] == EncodeU16(h.flags);
    assert s[10..12] == EncodeU16(h.surfaceCount);
    assert s[12..14] == EncodeU16(h.width);
    assert s[14..16] == EncodeU16(h.height);
    DecodeEncodeU16(h.flags);
    DecodeEncodeU16(h.surfaceCount);
    DecodeEncodeU16(h.width);
    DecodeEncodeU16(h.height);
  }

  /** Pixel `k` of an encoded run sits at bytes 4k .. 4k+3. */
  lemma {:induction false} EncodedPixelAt(ps: seq<Pixel>, k: nat)
    requires k < |ps|
    ensures EncodePixels(ps)[4 * k .. 4 * k + 4] == EncodePixel(ps[k])
    ensures PixelFromBytes(EncodePixels(ps)[4 * k .. 4 * k + 4]) == ps[k]
  {
    if k > 0 {
      EncodedPixelAt(ps[1..], k - 1);
      assert EncodePixels(ps)[4 * k .. 4 * k + 4] == EncodePixels(ps[1..])[4 * (k - 1) .. 4 * (k - 1) + 4];
    }
  }

  lemma {:induction false} EncodePixelsAppend(ps: seq<Pixel>, p: Pixel)
    ensures EncodePixels(ps + [p]) == EncodePixels(ps) + EncodePixel(p)
  {
    if ps != [] {
      assert (ps + [p])[1..] == ps[1..] + [p];
      EncodePixelsAppend(ps[1..], p);
    } else {
      assert EncodePixels([p]) == EncodePixel(p) + EncodePixels([]);
    }
  }

  lemma SwizzleInvolution(ps: seq<Pixel>)
    ensures SwizzleAll(SwizzleAll(ps)) == ps
  {
  }

  // ---------------------------------------------------------------------
  // Mip-map levels
  // ---------------------------------------------------------------------

  /** The size of a dimension at a mip level: halved per level, stopping at 1. */
  function MipSize(size: nat, level: nat): (r: nat)
    ensures level > 0 ==> r >= 1
    ensures size >= 1 ==> 1 <= r <= size
  {
    if level == 0 then size
    else if size / 2 == 0 then 1
    else MipSize(size / 2, level - 1)
  }

  function Max(a: int, b: int): int { if a >= b then a else b }

  /** `x >> n`: n single-bit logical right shifts. */
  function Shr(x: nat, n: nat): (r: nat)
    ensures r <= x
  {
    if n == 0 then x else Shr(x / 2, n - 1)
  }

  lemma {:induction false} ShrOfZero(n: nat)
    ensures Shr(0, n) == 0
  {
    if n > 0 {
      ShrOfZero(n - 1);
    }
  }

  /** For a non-zero size, level i is `max(1, size >> i)`. */
  lemma {:induction false} MipSizeIsShift(size: nat, level: nat)
    requires size >= 1
    ensures MipSize(size, level) == Max(1, Shr(size, level))
  {
    if level > 0 {
      if size / 2 == 0 {
        ShrOfZero(level - 1);
      } else {
        MipSizeIsShift(size / 2, level - 1);
      }
    }
  }

  /** Each mip level is no larger than the previous one. */
  lemma {:induction false} MipSizeStep(size: nat, level: nat)
    requires size >= 1
    ensures MipSize(size, level + 1) <= MipSize(size, level)
  {
    if level > 0 && size / 2 != 0 {
      MipSizeStep(size / 2, level - 1);
    }
  }

  lemma {:induction false} MipSizeNonIncreasing(size: nat, i: nat, j: nat)
    requires size >= 1 && i <= j
    ensures MipSize(size, j) <= MipSize(size, i)
    decreases j - i
  {
    if i < j {
      MipSizeStep(size, i);
      MipSizeNonIncreasing(size, i + 1, j);
    }
  }

  /** Pixels in surface `level` of a width x height image. */
  function SurfacePixels(width: nat, height: nat, level: nat): nat
  {
    MipSize(width, level) * MipSize(height, level)
  }

  /** Pixels stored before surface `level`: the sum over the larger levels. */
  function PixelsBefore(width: nat, height: nat, level: nat): nat
  {
    if level == 0 then 0
    else PixelsBefore(width, height, level - 1) + SurfacePixels(width, height, level - 1)
  }

  /** A surface of a non-empty image holds at least one and at most width x height pixels. */
  lemma SurfacePixelsBounds(width: nat, height: nat, level: nat)
    requires width >= 1 && height >= 1
    ensures 1 <= SurfacePixels(width, height, level) <= width * height
  {
    var w, h := MipSize(width, level), MipSize(height, level);
    assert w * h <= width * h;
    assert width * h <= width * height;
  }

  /** Surfaces follow one another without overlapping: s ends before t starts. */
  lemma {:induction false} SurfacesDisjoint(width: nat, height: nat, s: nat, t: nat)
    requires s < t
    ensures PixelsBefore(width, height, s) + SurfacePixels(width, height, s) <= PixelsBefore(width, height, t)
    decreases t - s
  {
    if s + 1 < t {
      SurfacesDisjoint(width, height, s + 1, t);
    }
  }

  // ---------------------------------------------------------------------
  // The image object
  // ---------------------------------------------------------------------

  class RawImage {
    var width: U16
    var height: U16
    var surfaceCount: U16
    /** The whole file: header, then every surface's pixels. */
    var rawData: seq<Byte>
    var srcFileName: string

    /** An empty image. */
    constructor ()
      ensures width == 0 && height == 0 && surfaceCount == 0
      ensures rawData == [] && srcFileName == []
    {
      width, height, surfaceCount := 0, 0, 0;
      rawData, srcFileName := [], [];
    }

    predicate IsValid()
      reads this
    {
      width != 0 && height != 0 && surfaceCount >= 1 && rawData != []
    }

    /** The halving loop shared by the width and height queries. */
    static method MipLevelSize(size: U16, level: U16) returns (s: U16)
      ensures s == MipSize(size, level)
    {
      s := size;
      var i := level;
      while i > 0
        invariant 0 <= i <= level
        invariant MipSize(s, i) == MipSize(size, level)
      {
        s := s / 2;
        if s == 0 {
          s := 1;
          break;
        }
        i := i - 1;
      }
    }

    method SurfaceWidth(surfaceIndex: U16) returns (w: U16)
      requires surfaceIndex < surfaceCount
      ensures w == MipSize(width, surfaceIndex)
    {
      w := MipLevelSize(width, surfaceIndex);
    }

    method SurfaceHeight(surfaceIndex: U16) returns (h: U16)
      requires surfaceIndex < surfaceCount
      ensures h == MipSize(height, surfaceIndex)
    {
      h := MipLevelSize(height, surfaceIndex);
    }

    method SurfacePixelCount(surfaceIndex: U16) returns (n: nat)
      requires surfaceIndex < surfaceCount
      ensures n == SurfacePixels(width, height, surfaceIndex)
    {
      var w := SurfaceWidth(surfaceIndex);
      var h := SurfaceHeight(surfaceIndex);
      n := w as nat * h as nat;
    }

    /** Index, counted in pixels after the header, of surface `surfaceIndex`'s first pixel. */
    method SurfacePixelsStart(surfaceIndex: U16) returns (start: nat)
      requires IsValid() && surfaceIndex <= surfaceCount
      ensures start == PixelsBefore(width, height, surfaceIndex)
    {
      start := 0;
      var s: U16 := 0;
      while s < surfaceIndex
        invariant s <= surfaceIndex
        invariant start == PixelsBefore(width, height, s)
      {
        var n := SurfacePixelCount(s);
        start := start + n;
        s := s + 1;
      }
    }

    /**
     * Pixel (x, y) of a surface: the four bytes at its place after the
     * header. The stored data is never checked against the dimensions, so
     * the caller must know the bytes are there.
     */
    method GetPixelAt(x: nat, y: nat, surfaceIndex: U16) returns (p: Pixel)
      requires IsValid() && surfaceIndex < surfaceCount
      requires x + y * MipSize(width, surfaceIndex) < SurfacePixels(width, height, surfaceIndex)
      requires HeaderSize + 4 * (PixelsBefore(width, height, surfaceIndex) + x + y * MipSize(width, surfaceIndex)) + 4 <= |rawData|
      ensures var at := HeaderSize + 4 * (PixelsBefore(width, height, surfaceIndex) + x + y * MipSize(width, surfaceIndex));
              p == PixelFromBytes(rawData[at .. at + 4])
    {
      var start := SurfacePixelsStart(surfaceIndex);
      var w := SurfaceWidth(surfaceIndex);
      var index := x + y * w;
      var at := HeaderSize + 4 * (start + index);
      p := PixelFromBytes(rawData[at .. at + 4]);
    }

    method Dispose()
      modifies this
      ensures width == 0 && height == 0 && surfaceCount == 0
      ensures rawData == [] && srcFileName == []
      ensures !IsValid()
    {
      width, height, surfaceCount := 0, 0, 0;
      rawData, srcFileName := [], [];
    }

    /**
     * Adopts a RAW file held in memory. A header surface count of zero is
     * taken as one; dimensions that are not powers of two are accepted.
     */
    method InitFromMemory(fileContents: seq<Byte>, filename: string) returns (r: Result<(), RawError>)
      modifies this
      ensures CheckRawHeader(fileContents).Err? ==>
        r == Err(CheckRawHeader(fileContents).error) && unchanged(this)
      ensures CheckRawHeader(fileContents).Ok? ==>
        var h := CheckRawHeader(fileContents).value;
        (&& r.Ok?
         && width == h.width && height == h.height
         && surfaceCount == (if h.surfaceCount != 0 then h.surfaceCount else 1)
         && rawData == fileContents && srcFileName == filename
         && IsValid())
    {
      if |fileContents| < HeaderSize {
        return Err(TooSmall);
      }
      var header := HeaderAt(fileContents);
      if header.magic != RawMagic {
        return Err(BadMagic);
      }
      if header.format != RawFormat8888 {
        return Err(BadFormat);
      }
      if header.flags != 0 {
        return Err(BadFlags);
      }
      if header.width == 0 || header.height == 0 {
        return Err(BadDimensions);
      }
      width := header.width;
      height := header.height;
      surfaceCount := if header.surfaceCount != 0 then header.surfaceCount else 1;
      rawData := fileContents;
      srcFileName := filename;
      r := Ok(());
    }

    /**
     * Builds a single-surface image from `width * height` pixels, exchanging
     * red and blue when `swizzlePixels` is set.
     */
    method InitFromPixelBuffer(buffer: seq<Pixel>, width: U16, height: U16, swizzlePixels: bool, filename: string)
      requires |buffer| >= width * height
      modifies this
      ensures this.width == width && this.height == height && surfaceCount == 1
      ensures srcFileName == filename
      ensures var pixels := buffer[.. width * height];
              rawData == EncodeHeader(SingleSurfaceHeader(width, height)) +
                         EncodePixels(if swizzlePixels then SwizzleAll(pixels) else pixels)
    {
      Dispose();
      var pixelCount := width * height;
      this.srcFileName := filename;
      this.width := width;
      this.height := height;
      this.surfaceCount := 1;
      var header := EncodeHeader(SingleSurfaceHeader(width, height));
      if swizzlePixels {
        var data := header;
        var i := 0;
        while i < pixelCount
          invariant 0 <= i <= pixelCount
          invariant data == header + EncodePixels(SwizzleAll(buffer[..i]))
          invariant this.width == width && this.height == height && surfaceCount == 1
          invariant srcFileName == filename
        {
          EncodePixelsAppend(SwizzleAll(buffer[..i]), Swizzle(buffer[i]));
          assert SwizzleAll(buffer[..i + 1]) == SwizzleAll(buffer[..i]) + [Swizzle(buffer[i])];
          data := data + EncodePixel(Swizzle(buffer[i]));
          i := i + 1;
        }
        rawData := data;
      } else {
        rawData := header + EncodePixels(buffer[..pixelCount]);
      }
    }
  }

  // ---------------------------------------------------------------------
  // Round trip between the two initialisers
  // ---------------------------------------------------------------------

  /** The bytes `InitFromPixelBuffer` stores for the given pixels. */
  function RawFileBytes(width: U16, height: U16, pixels: seq<Pixel>): seq<Byte>
  {
    EncodeHeader(SingleSurfaceHeader(width, height)) + EncodePixels(pixels)
  }

  /**
   * What a pixel buffer produces is accepted again by `InitFromMemory` when
   * both dimensions are non-zero, with the same size and one surface.
   */
  lemma RawFileAccepted(width: U16, height: U16, pixels: seq<Pixel>)
    ensures CheckRawHeader(RawFileBytes(width, height, pixels)).Ok? <==> (width != 0 && height != 0)
    ensures width != 0 && height != 0 ==>
      CheckRawHeader(RawFileBytes(width, height, pixels)) == Ok(SingleSurfaceHeader(width, height))
  {
    HeaderRoundTrip(SingleSurfaceHeader(width, height), EncodePixels(pixels));
  }

  /**
   * Reading pixel `k` of surface 0 from those bytes gives back the pixel
   * that was stored there.
   */
  lemma RawFilePixelAt(width: U16, height: U16, pixels: seq<Pixel>, k: nat)
    requires k < |pixels|
    ensures var data := RawFileBytes(width, height, pixels);
            var at := HeaderSize + 4 * (PixelsBefore(width, height, 0) + k);
            at + 4 <= |data| && PixelFromBytes(data[at .. at + 4]) == pixels[k]
  {
    var data := RawFileBytes(width, height, pixels);
    var header := EncodeHeader(SingleSurfaceHeader(width, height));
    EncodedPixelAt(pixels, k);
    assert data[HeaderSize + 4 * k .. HeaderSize + 4 * k + 4] == EncodePixels(pixels)[4 * k .. 4 * k + 4];
  }
}
