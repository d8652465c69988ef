// The TARGA decoder that produces RAW pixels: true-colour images without a
// colour map, uncompressed (type 2) or run-length encoded (type 10), at 24
// or 32 bits per pixel. Every pixel comes out as blue, green, red, alpha.
module TgaImages {
  import opened Wrappers
  import opened Bytes
  import opened RawImages

  const TgaHeaderSize: nat := 18

  /**
   * Why a TGA file is refused. The source reads past the end of a short
   * buffer without checking; here that is `Truncated`.
   */
  datatype TgaError = Truncated | UnsupportedImageType | UnsupportedPixelFormat

  datatype TgaHeader = TgaHeader(
    idLength: Byte, colormapType: Byte, imageType: Byte,
    colormapIndex: U16, colormapLength: U16, colormapSize: Byte,
    xOrigin: U16, yOrigin: U16, width: U16, height: U16,
    pixelSize: Byte, attributes: Byte)

  /** The decoded image: `height` rows of `width` pixels, row after row. */
  datatype TgaImage = TgaImage(width: U16, height: U16, pixels: seq<Pixel>)

  // ---------------------------------------------------------------------
  // The format as functions of the file's bytes
  // ---------------------------------------------------------------------

  /** The 18 header bytes, multi-byte fields little-endian. */
  function TgaHeaderAt(data: seq<Byte>): TgaHeader
    requires |data| >= TgaHeaderSize
  {
    TgaHeader(data[0], data[1], data[2], DecodeU16(data[3..5]), DecodeU16(data[5..7]), data[7],
              DecodeU16(data[8..10]), DecodeU16(data[10..12]), DecodeU16(data[12..14]),
              DecodeU16(data[14..16]), data[16], data[17])
  }

  predicate SupportedPixelSize(pixelSize: Byte)
  {
    pixelSize == 24 || pixelSize == 32
  }

  function BytesPerPixel(pixelSize: Byte): (n: nat)
    requires SupportedPixelSize(pixelSize)
    ensures n == pixelSize / 8
  {
    if pixelSize == 24 then 3 else 4
  }

  /** One stored pixel, blue first; a 24-bit pixel is fully opaque. */
  function PixelAt(data: seq<Byte>, at: nat, pixelSize: Byte): (r: Result<Parsed<Pixel>, TgaError>)
    requires SupportedPixelSize(pixelSize)
    ensures r.Ok? <==> at + BytesPerPixel(pixelSize) <= |data|
    ensures r.Err? ==> r.error == Truncated
    ensures r.Ok? ==> r.value.next == at + BytesPerPixel(pixelSize)
    ensures r.Ok? ==> (&& r.value.value.b == data[at] && r.value.value.g == data[at + 1]
                       && r.value.value.r == data[at + 2]
                       && r.value.value.a == (if pixelSize == 24 then 255 else data[at + 3]))
  {
    if at + BytesPerPixel(pixelSize) > |data| then Err(Truncated)
    else if pixelSize == 24 then Ok(Parsed(Pixel(data[at], data[at + 1], data[at + 2], 255), at + 3))
    else Ok(Parsed(Pixel(data[at], data[at + 1], data[at + 2], data[at + 3]), at + 4))
  }

  /** `n` pixels stored one after another. */
  function LiteralPixels(data: seq<Byte>, at: nat, pixelSize: Byte, n: nat): (r: Result<Parsed<seq<Pixel>>, TgaError>)
    requires SupportedPixelSize(pixelSize)
    ensures r.Ok? ==> |r.value.value| == n
    ensures r.Err? ==> r.error == Truncated
    decreases n
  {
    if n == 0 then Ok(Parsed([], at))
    else
      var p :- PixelAt(data, at, pixelSize);
      var rest :- LiteralPixels(data, p.next, pixelSize, n - 1);
      Ok(Parsed([p.value] + rest.value, rest.next))
  }

  /** An uncompressed image: `rows` rows of `columns` pixels, in stored order. */
  function UncompressedRows(data: seq<Byte>, at: nat, pixelSize: Byte, rows: nat, columns: nat)
    : (r: Result<Parsed<seq<seq<Pixel>>>, TgaError>)
    requires SupportedPixelSize(pixelSize)
    ensures r.Ok? ==> |r.value.value| == rows && forall i :: 0 <= i < rows ==> |r.value.value[i]| == columns
    ensures r.Err? ==> r.error == Truncated
    decreases rows
  {
    if rows == 0 then Ok(Parsed([], at))
    else
      var row :- LiteralPixels(data, at, pixelSize, columns);
      var rest :- UncompressedRows(data, row.next, pixelSize, rows - 1, columns);
      Ok(Parsed([row.value] + rest.value, rest.next))
  }

  function Repeat(p: Pixel, n: nat): (s: seq<Pixel>)
    ensures |s| == n && forall i :: 0 <= i < n ==> s[i] == p
  {
    seq(n, _ => p)
  }

  function Min(a: nat, b: nat): nat { if a <= b then a else b }

  /**
   * One run-length packet, cut short after `need` pixels. The header byte
   * holds the count minus one in its low seven bits; with the high bit set
   * one pixel follows and is repeated, otherwise that many pixels follow.
   */
  function PacketAt(data: seq<Byte>, at: nat, pixelSize: Byte, need: nat): (r: Result<Parsed<seq<Pixel>>, TgaError>)
    requires SupportedPixelSize(pixelSize)
    ensures r.Ok? ==> at < |data| && |r.value.value| == Min(1 + data[at] % 0x80, need)
    ensures r.Err? ==> r.error == Truncated
  {
    if at >= |data| then Err(Truncated)
    else
      var n := Min(1 + data[at] % 0x80, need);
      if data[at] >= 0x80 then
        var p :- PixelAt(data, at + 1, pixelSize);
        Ok(Parsed(Repeat(p.value, n), p.next))
      else
        LiteralPixels(data, at + 1, pixelSize, n)
  }

  /**
   * The next `need` pixels of a run-length encoded stream: packets in
   * turn, running on across row ends, the last one cut short at the
   * image's last pixel.
   */
  function RlePixels(data: seq<Byte>, at: nat, pixelSize: Byte, need: nat): (r: Result<seq<Pixel>, TgaError>)
    requires SupportedPixelSize(pixelSize)
    ensures r.Ok? ==> |r.value| == need
    ensures r.Err? ==> r.error == Truncated
    decreases need
  {
    if need == 0 then Ok([])
    else
      var k := PacketAt(data, at, pixelSize, need);
      if k.Err? then Err(k.error)
      else Chain(k.value.value, RlePixels(data, k.value.next, pixelSize, need - |k.value.value|))
  }

  /** Decoding goes packet by packet: the first packet's pixels, then the rest's. */
  lemma RlePixelsStep(data: seq<Byte>, at: nat, pixelSize: Byte, need: nat)
    requires SupportedPixelSize(pixelSize) && need > 0
    ensures var k := PacketAt(data, at, pixelSize, need);
            (&& (k.Err? ==> RlePixels(data, at, pixelSize, need).Err?)
             && (k.Ok? ==>
                   RlePixels(data, at, pixelSize, need)
                   == Chain(k.value.value, RlePixels(data, k.value.next, pixelSize, need - |k.value.value|))))
  {
  }

  function Flatten<T>(rows: seq<seq<T>>): seq<T>
  {
    if rows == [] then [] else rows[0] + Flatten(rows[1..])
  }

  /** Type 2 pixels row after row, without where the rows end. */
  function UncompressedPixels(data: seq<Byte>, at: nat, pixelSize: Byte, rows: nat, columns: nat)
    : Result<seq<Pixel>, TgaError>
    requires SupportedPixelSize(pixelSize)
  {
    var r := UncompressedRows(data, at, pixelSize, rows, columns);
    if r.Err? then Err(r.error) else Ok(Flatten(r.value.value))
  }

  /** A whole TGA file: header checks, then the pixels in stored order. */
  function DecodeTga(data: seq<Byte>): Result<TgaImage, TgaError>
  {
    if |data| < TgaHeaderSize then Err(Truncated)
    else
      var h := TgaHeaderAt(data);
      if h.imageType != 2 && h.imageType != 10 then Err(UnsupportedImageType)
      else if h.colormapType != 0 || !SupportedPixelSize(h.pixelSize) then Err(UnsupportedPixelFormat)
      else
        var at := TgaHeaderSize + h.idLength;
        var pixels := if h.imageType == 2 then UncompressedPixels(data, at, h.pixelSize, h.height, h.width)
                      else RlePixels(data, at, h.pixelSize, h.width * h.height);
        if pixels.Err? then Err(pixels.error) else Ok(TgaImage(h.width, h.height, pixels.value))
  }

  // ---------------------------------------------------------------------
  // Sequence helpers
  // ---------------------------------------------------------------------

  /** `xs` in front of a successful read; a failed read stays failed. */
  function Prepend<T>(xs: seq<T>, r: Result<Parsed<seq<T>>, TgaError>): Result<Parsed<seq<T>>, TgaError>
  {
    if r.Ok? then Ok(Parsed(xs + r.value.value, r.value.next)) else r
  }

  lemma PrependNil<T>(r: Result<Parsed<seq<T>>, TgaError>)
    ensures Prepend([], r) == r
  {
    if r.Ok? {
      assert [] + r.value.value == r.value.value;
    }
  }

  lemma PrependTwice<T>(xs: seq<T>, ys: seq<T>, r: Result<Parsed<seq<T>>, TgaError>)
    ensures Prepend(xs, Prepend(ys, r)) == Prepend(xs + ys, r)
  {
    if r.Ok? {
      assert xs + (ys + r.value.value) == (xs + ys) + r.value.value;
    }
  }

  function Chain(xs: seq<Pixel>, r: Result<seq<Pixel>, TgaError>): Result<seq<Pixel>, TgaError>
  {
    if r.Ok? then Ok(xs + r.value) else r
  }

  lemma ChainNil(r: Result<seq<Pixel>, TgaError>)
    ensures Chain([], r) == r
  {
    if r.Ok? {
      assert [] + r.value == r.value;
    }
  }

  lemma ChainTwice(xs: seq<Pixel>, ys: seq<Pixel>, r: Result<seq<Pixel>, TgaError>)
    ensures Chain(xs, Chain(ys, r)) == Chain(xs + ys, r)
  {
    if r.Ok? {
      assert xs + (ys + r.value) == (xs + ys) + r.value;
    }
  }

  lemma {:induction false} FlattenAppend<T>(rows: seq<seq<T>>, row: seq<T>)
    ensures Flatten(rows + [row]) == Flatten(rows) + row
  {
    if rows == [] {
      assert Flatten([row]) == row + Flatten([]);
    } else {
      assert (rows + [row])[1..] == rows[1..] + [row];
      FlattenAppend(rows[1..], row);
    }
  }

  lemma {:induction false} FlattenLength<T>(rows: seq<seq<T>>, columns: nat)
    requires forall i :: 0 <= i < |rows| ==> |rows[i]| == columns
    ensures |Flatten(rows)| == |rows| * columns
  {
    if rows != [] {
      FlattenLength(rows[1..], columns);
    }
  }

  lemma {:induction false} FlattenOfEmptyRows<T>(rows: seq<seq<T>>)
    requires forall i :: 0 <= i < |rows| ==> rows[i] == []
    ensures Flatten(rows) == []
  {
    if rows != [] {
      FlattenOfEmptyRows(rows[1..]);
    }
  }

  lemma MulBelow(k: nat, c: nat, rows: nat, columns: nat)
    requires k < rows && c < columns
    ensures k * columns + c < rows * columns
  {
    assert (k + 1) * columns <= rows * columns by {
      assert rows * columns == (k + 1) * columns + (rows - k - 1) * columns;
    }
  }

  // ---------------------------------------------------------------------
  // Properties of the decoder
  // ---------------------------------------------------------------------

  /** The three rejections, each for exactly the header that causes it. */
  lemma DecodeTgaErrors(data: seq<Byte>)
    ensures DecodeTga(data) == Err(UnsupportedImageType) <==>
      (|data| >= TgaHeaderSize && data[2] != 2 && data[2] != 10)
    ensures DecodeTga(data) == Err(UnsupportedPixelFormat) <==>
      (&& |data| >= TgaHeaderSize && (data[2] == 2 || data[2] == 10)
       && (data[1] != 0 || (data[16] != 24 && data[16] != 32)))
    ensures (&& DecodeTga(data).Err? && |data| >= TgaHeaderSize && (data[2] == 2 || data[2] == 10)
             && data[1] == 0 && SupportedPixelSize(data[16])) ==> DecodeTga(data).error == Truncated
  {
  }

  /** A decoded image always has width x height pixels. */
  lemma DecodeTgaSize(data: seq<Byte>)
    requires DecodeTga(data).Ok?
    ensures var img := DecodeTga(data).value; |img.pixels| == img.width * img.height
  {
    var h := TgaHeaderAt(data);
    if h.imageType == 2 {
      var rows := UncompressedRows(data, TgaHeaderSize + h.idLength, h.pixelSize, h.height, h.width);
      FlattenLength(rows.value.value, h.width);
      assert h.height * h.width == h.width * h.height;
    }
  }

  predicate Opaque(ps: seq<Pixel>)
  {
    forall i :: 0 <= i < |ps| ==> ps[i].a == 255
  }

  lemma {:induction false} LiteralPixelsOpaque(data: seq<Byte>, at: nat, n: nat)
    requires LiteralPixels(data, at, 24, n).Ok?
    ensures Opaque(LiteralPixels(data, at, 24, n).value.value)
    decreases n
  {
    if n > 0 {
      var p := PixelAt(data, at, 24);
      LiteralPixelsOpaque(data, p.value.next, n - 1);
    }
  }

  lemma {:induction false} UncompressedRowsOpaque(data: seq<Byte>, at: nat, rows: nat, columns: nat)
    requires UncompressedRows(data, at, 24, rows, columns).Ok?
    ensures Opaque(Flatten(UncompressedRows(data, at, 24, rows, columns).value.value))
    decreases rows
  {
    if rows > 0 {
      var row := LiteralPixels(data, at, 24, columns);
      LiteralPixelsOpaque(data, at, columns);
      UncompressedRowsOpaque(data, row.value.next, rows - 1, columns);
      var all := UncompressedRows(data, at, 24, rows, columns).value.value;
      assert all[1..] == UncompressedRows(data, row.value.next, 24, rows - 1, columns).value.value;
    }
  }

  lemma PacketOpaque(data: seq<Byte>, at: nat, need: nat)
    requires PacketAt(data, at, 24, need).Ok?
    ensures Opaque(PacketAt(data, at, 24, need).value.value)
  {
    if data[at] < 0x80 {
      LiteralPixelsOpaque(data, at + 1, Min(1 + data[at] % 0x80, need));
    }
  }

  lemma {:induction false} RlePixelsOpaque(data: seq<Byte>, at: nat, need: nat)
    requires RlePixels(data, at, 24, need).Ok?
    ensures Opaque(RlePixels(data, at, 24, need).value)
    decreases need
  {
    if need > 0 {
      var k := PacketAt(data, at, 24, need).value;
      PacketOpaque(data, at, need);
      RlePixelsOpaque(data, k.next, need - |k.value|);
    }
  }

  /** Output is always four bytes per pixel; 24-bit input gets alpha 255. */
  lemma DecodeTgaOpaque24(data: seq<Byte>)
    requires DecodeTga(data).Ok? && data[16] == 24
    ensures Opaque(DecodeTga(data).value.pixels)
  {
    var h := TgaHeaderAt(data);
    var at := TgaHeaderSize + h.idLength;
    if h.imageType == 2 {
      UncompressedRowsOpaque(data, at, h.height, h.width);
    } else {
      RlePixelsOpaque(data, at, h.width * h.height);
    }
  }

  // ---------------------------------------------------------------------
  // Round trip with a run-length packet encoder
  // ---------------------------------------------------------------------

  /** A packet holds 1 to 128 pixels. */
  type PacketCount = n: nat | 1 <= n <= 128 witness 1
  type PacketRun = ps: seq<Pixel> | 1 <= |ps| <= 128 witness [Pixel(0, 0, 0, 0)]

  /** One 32-bit packet: a repeated pixel, or literal pixels. */
  datatype Packet = Run(pixel: Pixel, count: PacketCount) | Literal(pixels: PacketRun)

  function PacketPixels(k: Packet): (ps: seq<Pixel>)
    ensures 1 <= |ps| <= 128
  {
    match k
    case Run(p, n) => Repeat(p, n)
    case Literal(ps) => ps
  }

  function EncodePacket(k: Packet): seq<Byte>
  {
    match k
    case Run(p, count) => [0x80 + count - 1] + EncodePixel(p)
    case Literal(ps) => [|ps| - 1] + EncodePixels(ps)
  }

  /** 32-bit literal pixels read back what `EncodePixels` wrote. */
  lemma {:induction false} LiteralPixelsRoundTrip(data: seq<Byte>, at: nat, ps: seq<Pixel>)
    requires at + 4 * |ps| <= |data| && data[at .. at + 4 * |ps|] == EncodePixels(ps)
    ensures LiteralPixels(data, at, 32, |ps|) == Ok(Parsed(ps, at + 4 * |ps|))
    decreases |ps|
  {
    if ps != [] {
      var e := EncodePixels(ps);
      assert data[at .. at + 4] == e[..4] == EncodePixel(ps[0]);
      assert data[at + 4 .. at + 4 * |ps|] == e[4..] == EncodePixels(ps[1..]);
      assert data[at + 4 .. at + 4 + 4 * |ps[1..]|] == EncodePixels(ps[1..]);
      LiteralPixelsRoundTrip(data, at + 4, ps[1..]);
      assert [ps[0]] + ps[1..] == ps;
    }
  }

  /** One encoded packet decodes to its pixels and ends where its bytes end. */
  lemma PacketRoundTrip(data: seq<Byte>, at: nat, k: Packet, more: nat)
    requires at + |EncodePacket(k)| <= |data| && data[at .. at + |EncodePacket(k)|] == EncodePacket(k)
    ensures PacketAt(data, at, 32, |PacketPixels(k)| + more) == Ok(Parsed(PacketPixels(k), at + |EncodePacket(k)|))
  {
    match k {
      case Run(p, count) =>
        RunPacketRoundTrip(data, at, p, count, more);
      case Literal(ps) =>
        LiteralPacketRoundTrip(data, at, ps, more);
    }
  }

  lemma RunPacketRoundTrip(data: seq<Byte>, at: nat, p: Pixel, count: PacketCount, more: nat)
    requires at + 5 <= |data| && data[at .. at + 5] == EncodePacket(Run(p, count))
    ensures |EncodePacket(Run(p, count))| == 5
    ensures PacketAt(data, at, 32, count + more) == Ok(Parsed(Repeat(p, count), at + 5))
  {
    var ek := EncodePacket(Run(p, count));
    assert data[at] == ek[0] == 0x80 + count - 1;
    assert data[at + 1 .. at + 5] == ek[1..5] == EncodePixel(p);
    assert PixelAt(data, at + 1, 32) == Ok(Parsed(p, at + 5));
  }

  lemma LiteralPacketRoundTrip(data: seq<Byte>, at: nat, ps: PacketRun, more: nat)
    requires at + 1 + 4 * |ps| <= |data| && data[at .. at + 1 + 4 * |ps|] == EncodePacket(Literal(ps))
    ensures |EncodePacket(Literal(ps))| == 1 + 4 * |ps|
    ensures PacketAt(data, at, 32, |ps| + more) == Ok(Parsed(ps, at + 1 + 4 * |ps|))
  {
    var ek := EncodePacket(Literal(ps));
    assert data[at] == ek[0] == |ps| - 1;
    assert data[at + 1 .. at + 1 + 4 * |ps|] == ek[1..] == EncodePixels(ps);
    LiteralPixelsRoundTrip(data, at + 1, ps);
  }

  /** A packet followed by a decodable rest decodes to both. */
  lemma PacketThenRest(data: seq<Byte>, at: nat, pixelSize: Byte, head: seq<Pixel>, next: nat, rest: seq<Pixel>)
    requires SupportedPixelSize(pixelSize)
    requires head != [] && PacketAt(data, at, pixelSize, |head| + |rest|) == Ok(Parsed(head, next))
    requires RlePixels(data, next, pixelSize, |rest|) == Ok(rest)
    ensures RlePixels(data, at, pixelSize, |head| + |rest|) == Ok(head + rest)
  {
    RlePixelsStep(data, at, pixelSize, |head| + |rest|);
    assert |head| + |rest| - |head| == |rest|;
  }

  // ---------------------------------------------------------------------
  // The decoder
  // ---------------------------------------------------------------------

  /** Row-major contents of a pixel array. */
  ghost function RowsOf(image: array2<Pixel>): (rows: seq<seq<Pixel>>)
    reads image
    ensures |rows| == image.Length0
    ensures forall y :: 0 <= y < image.Length0 ==> |rows[y]| == image.Length1
  {
    seq(image.Length0, y reads image requires 0 <= y < image.Length0 =>
      seq(image.Length1, x reads image requires 0 <= x < image.Length1 => image[y, x]))
  }

  /**
   * Rows of `stored`, the file's rows in stored order, sit in the image
   * from the bottom up: stored row s is image row `height - 1 - s`.
   */
  ghost predicate BottomUp(image: array2<Pixel>, stored: seq<seq<Pixel>>)
    reads image
  {
    && |stored| == image.Length0
    && (forall s :: 0 <= s < |stored| ==> |stored[s]| == image.Length1)
    && (forall s, x :: 0 <= s < |stored| && 0 <= x < image.Length1 ==>
          image[image.Length0 - 1 - s, x] == stored[s][x])
  }

  /**
   * Decodes a TGA file held in memory. Rows are filled from the bottom
   * up and the whole image is then flipped vertically, so the result holds
   * the pixels in the order the file stores them.
   */
  method LoadTga(data: seq<Byte>) returns (r: Result<array2<Pixel>, TgaError>)
    ensures DecodeTga(data).Err? ==> r.Err? && r.error == DecodeTga(data).error
    ensures DecodeTga(data).Ok? ==>
      (&& r.Ok? && fresh(r.value)
       && r.value.Length0 == DecodeTga(data).value.height
       && r.value.Length1 == DecodeTga(data).value.width
       && Flatten(RowsOf(r.value)) == DecodeTga(data).value.pixels)
  {
    if |data| < TgaHeaderSize {
      return Err(Truncated);
    }
    var header := TgaHeaderAt(data);
    if header.imageType != 2 && header.imageType != 10 {
      return Err(UnsupportedImageType);
    }
    if header.colormapType != 0 || (header.pixelSize != 32 && header.pixelSize != 24) {
      return Err(UnsupportedPixelFormat);
    }
    var columns, rows := header.width, header.height;
    var image := new Pixel[rows, columns]((y, x) => Pixel(0, 0, 0, 0));
    var at := TgaHeaderSize + header.idLength;
    var filled: Result<(), TgaError>;
    ghost var stored: seq<seq<Pixel>>;
    if header.imageType == 2 {
      filled, stored := ReadUncompressed(data, at, header.pixelSize, image);
    } else {
      filled, stored := ReadRunLength(data, at, header.pixelSize, image);
    }
    if filled.Err? {
      return Err(filled.error);
    }
    FlipVertically(image, stored);
    r := Ok(image);
  }

  /** Type 2: each row's pixels in turn, bottom row first. */
  method ReadUncompressed(data: seq<Byte>, at: nat, pixelSize: Byte, image: array2<Pixel>)
    returns (r: Result<(), TgaError>, ghost stored: seq<seq<Pixel>>)
    requires SupportedPixelSize(pixelSize)
    modifies image
    ensures var spec := UncompressedRows(data, at, pixelSize, image.Length0, image.Length1);
            (&& (spec.Err? ==> r.Err? && r.error == spec.error)
             && (spec.Ok? ==> r.Ok? && stored == spec.value.value && BottomUp(image, stored)))
  {
    var rows, columns := image.Length0, image.Length1;
    var cursor: nat := at;
    stored := [];
    var row := rows - 1;
    PrependNil(UncompressedRows(data, cursor, pixelSize, row + 1, columns));
    while row >= 0
      invariant -1 <= row < rows && |stored| == rows - 1 - row
      invariant UncompressedRows(data, at, pixelSize, rows, columns)
             == Prepend(stored, UncompressedRows(data, cursor, pixelSize, row + 1, columns))
      invariant RowsBottomUp(image, stored)
    {
      var next;
      ghost var current;
      next, current := ReadRow(data, cursor, pixelSize, image, row, stored);
      if next.Err? {
        r := Err(next.error);
        return;
      }
      assert UncompressedRows(data, cursor, pixelSize, row + 1, columns)
          == Prepend([current], UncompressedRows(data, next.value, pixelSize, row, columns));
      PrependTwice(stored, [current], UncompressedRows(data, next.value, pixelSize, row, columns));
      stored := stored + [current];
      cursor := next.value;
      row := row - 1;
    }
    r := Ok(());
  }

  /** Stored rows sit in the image from the bottom up, each a full row. */
  ghost predicate RowsBottomUp(image: array2<Pixel>, stored: seq<seq<Pixel>>)
    reads image
  {
    && |stored| <= image.Length0
    && (forall s :: 0 <= s < |stored| ==> |stored[s]| == image.Length1)
    && (forall s, x :: 0 <= s < |stored| && 0 <= x < image.Length1 ==>
          image[image.Length0 - 1 - s, x] == stored[s][x])
  }

  /** One row of a type 2 image, left to right, into image row `row`. */
  method ReadRow(data: seq<Byte>, at: nat, pixelSize: Byte, image: array2<Pixel>, row: int,
                 ghost stored: seq<seq<Pixel>>)
    returns (r: Result<nat, TgaError>, ghost current: seq<Pixel>)
    requires SupportedPixelSize(pixelSize)
    requires 0 <= row < image.Length0 && |stored| == image.Length0 - 1 - row
    requires RowsBottomUp(image, stored)
    modifies image
    ensures var spec := LiteralPixels(data, at, pixelSize, image.Length1);
            (&& (r.Err? ==> spec.Err? && r.error == spec.error)
             && (r.Ok? ==> spec == Ok(Parsed(current, r.value)) && RowsBottomUp(image, stored + [current])))
  {
    var columns := image.Length1;
    var cursor: nat := at;
    current := [];
    var column := 0;
    PrependNil(LiteralPixels(data, at, pixelSize, columns));
    while column < columns
      invariant 0 <= column <= columns && |current| == column
      invariant LiteralPixels(data, at, pixelSize, columns)
             == Prepend(current, LiteralPixels(data, cursor, pixelSize, columns - column))
      invariant forall x :: 0 <= x < column ==> image[row, x] == current[x]
      invariant RowsBottomUp(image, stored)
    {
      var p := PixelAt(data, cursor, pixelSize);
      if p.Err? {
        return Err(p.error), current;
      }
      PrependTwice(current, [p.value.value], LiteralPixels(data, p.value.next, pixelSize, columns - column - 1));
      image[row, column] := p.value.value;
      current := current + [p.value.value];
      cursor := p.value.next;
      column := column + 1;
    }
    assert current + [] == current;
    r := Ok(cursor);
  }

  /**
   * Where the next decoded pixel goes: stored rows fill the image from
   * the bottom; `current` is the part of image row `row` filled so far.
   */
  ghost predicate Filling(image: array2<Pixel>, row: int, column: int, done: bool,
                          stored: seq<seq<Pixel>>, current: seq<Pixel>)
    reads image
  {
    var rows, columns := image.Length0, image.Length1;
    && (forall s :: 0 <= s < |stored| ==> |stored[s]| == columns)
    && (done ==> |stored| == rows && current == [])
    && (!done ==> 0 <= row < rows && |stored| == rows - 1 - row && |current| == column < columns)
    && (forall s, x :: 0 <= s < |stored| && 0 <= x < columns ==> image[rows - 1 - s, x] == stored[s][x])
    && (!done ==> forall x :: 0 <= x < column ==> image[row, x] == current[x])
  }

  /** The image is complete exactly when all width x height pixels are placed. */
  lemma FillingCount(image: array2<Pixel>, row: int, column: int, done: bool,
                     stored: seq<seq<Pixel>>, current: seq<Pixel>)
    requires Filling(image, row, column, done, stored, current)
    ensures |Flatten(stored) + current| <= image.Length0 * image.Length1
    ensures done <==> |Flatten(stored) + current| == image.Length0 * image.Length1
  {
    FlattenLength(stored, image.Length1);
    if !done {
      MulBelow(|stored|, column, image.Length0, image.Length1);
    }
  }

  /**
   * Writes one pixel and moves on: past the last column to the start of
   * the row above, and past the top row to the end of decoding.
   */
  method PlacePixel(image: array2<Pixel>, p: Pixel, row: int, column: int,
                    ghost stored: seq<seq<Pixel>>, ghost current: seq<Pixel>)
    returns (row': int, column': int, done: bool, ghost stored': seq<seq<Pixel>>, ghost current': seq<Pixel>)
    requires Filling(image, row, column, false, stored, current)
    modifies image
    ensures Filling(image, row', column', done, stored', current')
    ensures Flatten(stored') + current' == Flatten(stored) + current + [p]
  {
    image[row, column] := p;
    row', column', done := row, column + 1, false;
    stored', current' := stored, current + [p];
    if column' == image.Length1 {
      column' := 0;
      FlattenAppend(stored, current + [p]);
      stored', current' := stored + [current + [p]], [];
      if row > 0 {
        row' := row - 1;
      } else {
        done := true;
      }
    }
  }

  /** A run packet: `count` copies of one pixel, cut short at the image's end. */
  method PlaceRun(image: array2<Pixel>, p: Pixel, count: nat, row: int, column: int,
                  ghost stored: seq<seq<Pixel>>, ghost current: seq<Pixel>)
    returns (row': int, column': int, done: bool, ghost stored': seq<seq<Pixel>>, ghost current': seq<Pixel>)
    requires Filling(image, row, column, false, stored, current)
    requires |Flatten(stored) + current| < image.Length0 * image.Length1
    modifies image
    ensures Filling(image, row', column', done, stored', current')
    ensures Flatten(stored') + current' == Flatten(stored) + current +
              Repeat(p, Min(count, image.Length0 * image.Length1 - |Flatten(stored) + current|))
  {
    ghost var before := Flatten(stored) + current;
    FillingCount(image, row, column, false, stored, current);
    row', column', done, stored', current' := row, column, false, stored, current;
    var j := 0;
    while j < count && !done
      invariant 0 <= j <= count
      invariant Filling(image, row', column', done, stored', current')
      invariant Flatten(stored') + current' == before + Repeat(p, j)
    {
      FillingCount(image, row', column', done, stored', current');
      row', column', done, stored', current' := PlacePixel(image, p, row', column', stored', current');
      j := j + 1;
    }
    FillingCount(image, row', column', done, stored', current');
  }

  /**
   * A literal packet: up to `count` pixels read one by one, stopping at
   * the image's end. Returns the position after the last pixel read.
   */
  method PlaceLiterals(data: seq<Byte>, at: nat, pixelSize: Byte, count: nat, image: array2<Pixel>,
                       row: int, column: int, ghost stored: seq<seq<Pixel>>, ghost current: seq<Pixel>)
    returns (r: Result<nat, TgaError>, row': int, column': int, done: bool,
             ghost stored': seq<seq<Pixel>>, ghost current': seq<Pixel>)
    requires SupportedPixelSize(pixelSize)
    requires Filling(image, row, column, false, stored, current)
    requires |Flatten(stored) + current| < image.Length0 * image.Length1
    modifies image
    ensures var n := Min(count, image.Length0 * image.Length1 - |Flatten(stored) + current|);
            var spec := LiteralPixels(data, at, pixelSize, n);
            (&& (spec.Err? ==> r.Err? && r.error == spec.error)
             && (spec.Ok? ==> (&& r.Ok? && r.value == spec.value.next
                               && Filling(image, row', column', done, stored', current')
                               && Flatten(stored') + current' == Flatten(stored) + current + spec.value.value)))
  {
    ghost var before := Flatten(stored) + current;
    ghost var n := Min(count, image.Length0 * image.Length1 - |before|);
    row', column', done, stored', current' := row, column, false, stored, current;
    var cursor: nat := at;
    ghost var read: seq<Pixel> := [];
    PrependNil(LiteralPixels(data, at, pixelSize, n));
    var j := 0;
    while j < count && !done
      invariant 0 <= j <= n && |read| == j
      invariant Filling(image, row', column', done, stored', current')
      invariant LiteralsRead(data, at, pixelSize, n, before, read, cursor, Flatten(stored') + current')
    {
      FillingCount(image, row', column', done, stored', current');
      var p := PixelAt(data, cursor, pixelSize);
      if p.Err? {
        r := Err(p.error);
        return;
      }
      ghost var placed := Flatten(stored') + current';
      row', column', done, stored', current' := PlacePixel(image, p.value.value, row', column', stored', current');
      LiteralsReadStep(data, at, pixelSize, n, before, read, cursor, placed, p.value.value, p.value.next);
      read := read + [p.value.value];
      cursor := p.value.next;
      j := j + 1;
    }
    FillingCount(image, row', column', done, stored', current');
    assert j == n;
    assert read + [] == read;
    r := Ok(cursor);
  }

  /**
   * Literal pixels read so far: `read` is what decoding `n` literals from
   * `at` starts with, the rest starts at `cursor`, and `placed` is what was
   * placed before followed by `read`.
   */
  ghost predicate LiteralsRead(data: seq<Byte>, at: nat, pixelSize: Byte, n: nat,
                               before: seq<Pixel>, read: seq<Pixel>, cursor: nat, placed: seq<Pixel>)
    requires SupportedPixelSize(pixelSize)
  {
    && |read| <= n
    && placed == before + read
    && LiteralPixels(data, at, pixelSize, n) == Prepend(read, LiteralPixels(data, cursor, pixelSize, n - |read|))
  }

  /** Reading and placing one more literal pixel keeps `LiteralsRead`. */
  lemma LiteralsReadStep(data: seq<Byte>, at: nat, pixelSize: Byte, n: nat, before: seq<Pixel>, read: seq<Pixel>,
                         cursor: nat, placed: seq<Pixel>, p: Pixel, next: nat)
    requires SupportedPixelSize(pixelSize)
    requires LiteralsRead(data, at, pixelSize, n, before, read, cursor, placed) && |read| < n
    requires PixelAt(data, cursor, pixelSize) == Ok(Parsed(p, next))
    ensures LiteralsRead(data, at, pixelSize, n, before, read + [p], next, placed + [p])
  {
    PrependTwice(read, [p], LiteralPixels(data, next, pixelSize, n - |read| - 1));
  }

  /**
   * What placing one packet read from `from` achieves: on failure the rest
   * of the stream fails to decode too; on success decoding has moved on by
   * at least one pixel, and the pixels placed so far followed by the rest
   * of the stream are what they were before.
   */
  ghost predicate PacketPlaced(data: seq<Byte>, pixelSize: Byte, image: array2<Pixel>, before: seq<Pixel>, from: nat,
                               r: Result<nat, TgaError>, row: int, column: int, done: bool,
                               stored: seq<seq<Pixel>>, current: seq<Pixel>)
    requires SupportedPixelSize(pixelSize)
    reads image
  {
    var total, after := image.Length0 * image.Length1, Flatten(stored) + current;
    && |before| <= total
    && (r.Err? ==> (var spec := RlePixels(data, from, pixelSize, total - |before|); spec.Err? && r.error == spec.error))
    && (r.Ok? ==>
          && Filling(image, row, column, done, stored, current)
          && |before| < |after| <= total
          && Chain(before, RlePixels(data, from, pixelSize, total - |before|))
             == Chain(after, RlePixels(data, r.value, pixelSize, total - |after|)))
  }

  /**
   * The packet at `from`, read while `total - |before|` pixels are still
   * wanted: its failure is `r`'s, or `r` is where it ends and `after` is
   * `before` followed by its pixels.
   */
  ghost predicate PacketRead(data: seq<Byte>, from: nat, pixelSize: Byte, total: nat, before: seq<Pixel>,
                             r: Result<nat, TgaError>, after: seq<Pixel>)
    requires SupportedPixelSize(pixelSize)
  {
    && |before| < total
    && var k := PacketAt(data, from, pixelSize, total - |before|);
       && (r.Err? ==> k.Err? && r.error == k.error)
       && (r.Ok? ==> k.Ok? && r.value == k.value.next && after == before + k.value.value)
  }

  /** A packet read and placed moves decoding of the stream on by that packet. */
  lemma PacketReadPlaced(data: seq<Byte>, from: nat, pixelSize: Byte, image: array2<Pixel>, before: seq<Pixel>,
                         r: Result<nat, TgaError>, row: int, column: int, done: bool,
                         stored: seq<seq<Pixel>>, current: seq<Pixel>)
    requires SupportedPixelSize(pixelSize)
    requires PacketRead(data, from, pixelSize, image.Length0 * image.Length1, before, r, Flatten(stored) + current)
    requires r.Ok? ==> Filling(image, row, column, done, stored, current)
    ensures PacketPlaced(data, pixelSize, image, before, from, r, row, column, done, stored, current)
  {
    var total := image.Length0 * image.Length1;
    RlePixelsStep(data, from, pixelSize, total - |before|);
    if r.Ok? {
      var k := PacketAt(data, from, pixelSize, total - |before|);
      var after := Flatten(stored) + current;
      FillingCount(image, row, column, done, stored, current);
      assert total - |before| - |k.value.value| == total - |after|;
      ChainTwice(before, k.value.value, RlePixels(data, k.value.next, pixelSize, total - |after|));
    }
  }

  /** One packet of a type 10 image, placed where decoding has got to. */
  method PlacePacket(data: seq<Byte>, cursor: nat, pixelSize: Byte, image: array2<Pixel>,
                     row: int, column: int, ghost stored: seq<seq<Pixel>>, ghost current: seq<Pixel>)
    returns (r: Result<nat, TgaError>, row': int, column': int, done: bool,
             ghost stored': seq<seq<Pixel>>, ghost current': seq<Pixel>)
    requires SupportedPixelSize(pixelSize)
    requires Filling(image, row, column, false, stored, current)
    modifies image
    ensures PacketPlaced(data, pixelSize, image, Flatten(stored) + current, cursor, r, row', column', done, stored', current')
  {
    FillingCount(image, row, column, false, stored, current);
    if cursor >= |data| {
      r, row', column', done, stored', current' := Err(Truncated), row, column, false, stored, current;
    } else if data[cursor] >= 0x80 {
      r, row', column', done, stored', current' := PlaceRunPacket(data, cursor, pixelSize, image, row, column, stored, current);
    } else {
      r, row', column', done, stored', current' := PlaceLiteralPacket(data, cursor, pixelSize, image, row, column, stored, current);
    }
    PacketReadPlaced(data, cursor, pixelSize, image, Flatten(stored) + current, r, row', column', done, stored', current');
  }

  /** A run packet: a header byte with the high bit set, then one pixel. */
  method PlaceRunPacket(data: seq<Byte>, cursor: nat, pixelSize: Byte, image: array2<Pixel>,
                        row: int, column: int, ghost stored: seq<seq<Pixel>>, ghost current: seq<Pixel>)
    returns (r: Result<nat, TgaError>, row': int, column': int, done: bool,
             ghost stored': seq<seq<Pixel>>, ghost current': seq<Pixel>)
    requires SupportedPixelSize(pixelSize)
    requires Filling(image, row, column, false, stored, current)
    requires |Flatten(stored) + current| < image.Length0 * image.Length1
    requires cursor < |data| && data[cursor] >= 0x80
    modifies image
    ensures PacketRead(data, cursor, pixelSize, image.Length0 * image.Length1, Flatten(stored) + current, r,
                       Flatten(stored') + current')
    ensures r.Ok? ==> Filling(image, row', column', done, stored', current')
  {
    ghost var need := image.Length0 * image.Length1 - |Flatten(stored) + current|;
    var packetSize := 1 + data[cursor] % 0x80;
    var p := PixelAt(data, cursor + 1, pixelSize);
    if p.Err? {
      return Err(p.error), row, column, false, stored, current;
    }
    assert PacketAt(data, cursor, pixelSize, need) == Ok(Parsed(Repeat(p.value.value, Min(packetSize, need)), p.value.next));
    row', column', done, stored', current' := PlaceRun(image, p.value.value, packetSize, row, column, stored, current);
    r := Ok(p.value.next);
  }

  /** A literal packet: a header byte with the high bit clear, then the pixels. */
  method PlaceLiteralPacket(data: seq<Byte>, cursor: nat, pixelSize: Byte, image: array2<Pixel>,
                            row: int, column: int, ghost stored: seq<seq<Pixel>>, ghost current: seq<Pixel>)
    returns (r: Result<nat, TgaError>, row': int, column': int, done: bool,
             ghost stored': seq<seq<Pixel>>, ghost current': seq<Pixel>)
    requires SupportedPixelSize(pixelSize)
    requires Filling(image, row, column, false, stored, current)
    requires |Flatten(stored) + current| < image.Length0 * image.Length1
    requires cursor < |data| && data[cursor] < 0x80
    modifies image
    ensures PacketRead(data, cursor, pixelSize, image.Length0 * image.Length1, Flatten(stored) + current, r,
                       Flatten(stored') + current')
    ensures r.Ok? ==> Filling(image, row', column', done, stored', current')
  {
    var packetSize := 1 + data[cursor] % 0x80;
    r, row', column', done, stored', current' :=
      PlaceLiterals(data, cursor + 1, pixelSize, packetSize, image, row, column, stored, current);
  }

  /** Type 10: packets in turn until every pixel is placed. */
  method ReadRunLength(data: seq<Byte>, at: nat, pixelSize: Byte, image: array2<Pixel>)
    returns (r: Result<(), TgaError>, ghost stored: seq<seq<Pixel>>)
    requires SupportedPixelSize(pixelSize)
    modifies image
    ensures var spec := RlePixels(data, at, pixelSize, image.Length0 * image.Length1);
            (&& (spec.Err? ==> r.Err? && r.error == spec.error)
             && (spec.Ok? ==> r.Ok? && Flatten(stored) == spec.value && BottomUp(image, stored)))
  {
    var rows, columns := image.Length0, image.Length1;
    ghost var total: nat := rows * columns;
    var row, column := rows - 1, 0;
    var done := rows == 0 || columns == 0;
    stored := if columns == 0 then seq(rows, _ => []) else [];
    ghost var current: seq<Pixel> := [];
    if columns == 0 {
      FlattenOfEmptyRows(stored);
    }
    var cursor: nat := at;
    FillingCount(image, row, column, done, stored, current);
    ChainNil(RlePixels(data, at, pixelSize, total));
    assert Flatten(stored) + current == [];
    while !done
      invariant Filling(image, row, column, done, stored, current)
      invariant StreamAt(data, at, pixelSize, total, Flatten(stored) + current, cursor)
      decreases total - |Flatten(stored) + current|
    {
      ghost var before := Flatten(stored) + current;
      var next;
      next, row, column, done, stored, current := PlacePacket(data, cursor, pixelSize, image, row, column, stored, current);
      StreamStep(data, at, pixelSize, image, before, cursor, next, row, column, done, stored, current);
      if next.Err? {
        r := Err(next.error);
        return;
      }
      cursor := next.value;
    }
    StreamDone(data, at, pixelSize, image, row, column, stored, current, cursor);
    r := Ok(());
  }

  /**
   * Decoding the whole stream from `at` gives the pixels placed so far,
   * then whatever the stream from `cursor` decodes to.
   */
  ghost predicate StreamAt(data: seq<Byte>, at: nat, pixelSize: Byte, total: nat, placed: seq<Pixel>, cursor: nat)
    requires SupportedPixelSize(pixelSize)
  {
    && |placed| <= total
    && RlePixels(data, at, pixelSize, total) == Chain(placed, RlePixels(data, cursor, pixelSize, total - |placed|))
  }

  /** A placed packet keeps `StreamAt`, or its failure is the whole stream's. */
  lemma StreamStep(data: seq<Byte>, at: nat, pixelSize: Byte, image: array2<Pixel>, before: seq<Pixel>, cursor: nat,
                   r: Result<nat, TgaError>, row: int, column: int, done: bool,
                   stored: seq<seq<Pixel>>, current: seq<Pixel>)
    requires SupportedPixelSize(pixelSize)
    requires StreamAt(data, at, pixelSize, image.Length0 * image.Length1, before, cursor)
    requires PacketPlaced(data, pixelSize, image, before, cursor, r, row, column, done, stored, current)
    ensures var spec := RlePixels(data, at, pixelSize, image.Length0 * image.Length1);
            r.Err? ==> spec.Err? && r.error == spec.error
    ensures r.Ok? ==>
              && Filling(image, row, column, done, stored, current)
              && |before| < |Flatten(stored) + current|
              && StreamAt(data, at, pixelSize, image.Length0 * image.Length1, Flatten(stored) + current, r.value)
  {
  }

  /** With every pixel placed, the stream decodes to exactly the stored rows. */
  lemma StreamDone(data: seq<Byte>, at: nat, pixelSize: Byte, image: array2<Pixel>, row: int, column: int,
                   stored: seq<seq<Pixel>>, current: seq<Pixel>, cursor: nat)
    requires SupportedPixelSize(pixelSize)
    requires Filling(image, row, column, true, stored, current)
    requires StreamAt(data, at, pixelSize, image.Length0 * image.Length1, Flatten(stored) + current, cursor)
    ensures RlePixels(data, at, pixelSize, image.Length0 * image.Length1) == Ok(Flatten(stored))
    ensures BottomUp(image, stored)
  {
    FillingCount(image, row, column, true, stored, current);
    assert Flatten(stored) + current == Flatten(stored) + [] == Flatten(stored);
  }

  /** Exchanges rows `a` and `b` pixel by pixel. */
  method SwapRows(image: array2<Pixel>, a: nat, b: nat)
    requires a < b < image.Length0
    modifies image
    ensures forall c :: 0 <= c < image.Length1 ==> image[a, c] == old(image[b, c]) && image[b, c] == old(image[a, c])
    ensures forall r, c :: 0 <= r < image.Length0 && r != a && r != b && 0 <= c < image.Length1 ==>
      image[r, c] == old(image[r, c])
  {
    var x := 0;
    while x < image.Length1
      invariant 0 <= x <= image.Length1
      invariant forall c :: 0 <= c < x ==> image[a, c] == old(image[b, c]) && image[b, c] == old(image[a, c])
      invariant forall r, c :: 0 <= r < image.Length0 && 0 <= c < image.Length1 && ((r != a && r != b) || c >= x) ==>
        image[r, c] == old(image[r, c])
    {
      image[a, x], image[b, x] := image[b, x], image[a, x];
      x := x + 1;
    }
  }

  /**
   * The first `y` rows and the last `y` rows already hold their stored
   * rows; the rows between still hold the stored rows bottom up.
   */
  ghost predicate FlippedUpTo(image: array2<Pixel>, stored: seq<seq<Pixel>>, y: nat)
    reads image
  {
    var rows, columns, maxY := image.Length0, image.Length1, image.Length0 - 1;
    && |stored| == rows
    && (forall s :: 0 <= s < rows ==> |stored[s]| == columns)
    && 2 * y <= rows
    && (forall r, x :: 0 <= r < y && 0 <= x < columns ==> image[r, x] == stored[r][x])
    && (forall r, x :: maxY - y < r < rows && 0 <= x < columns ==> image[r, x] == stored[r][x])
    && (forall r, x :: y <= r <= maxY - y && 0 <= x < columns ==> image[r, x] == stored[maxY - r][x])
  }

  /** Swaps row y with row height - 1 - y for every y in the top half. */
  method FlipVertically(image: array2<Pixel>, ghost stored: seq<seq<Pixel>>)
    requires BottomUp(image, stored)
    modifies image
    ensures RowsOf(image) == stored
  {
    var rows := image.Length0;
    var maxY := rows - 1;
    var halfHeight := rows / 2;
    var y := 0;
    while y < halfHeight
      invariant y <= halfHeight
      invariant FlippedUpTo(image, stored, y)
    {
      FlipStep(image, stored, y);
      y := y + 1;
    }
    FlipDone(image, stored, y);
    RowsOfMatches(image, stored);
  }

  /** One swap moves both rows to their final places. */
  method FlipStep(image: array2<Pixel>, ghost stored: seq<seq<Pixel>>, y: nat)
    requires FlippedUpTo(image, stored, y) && 2 * (y + 1) <= image.Length0
    modifies image
    ensures FlippedUpTo(image, stored, y + 1)
  {
    SwapRows(image, y, image.Length0 - 1 - y);
  }

  /** With the middle reached, every row holds its stored row. */
  lemma FlipDone(image: array2<Pixel>, stored: seq<seq<Pixel>>, y: nat)
    requires FlippedUpTo(image, stored, y) && y == image.Length0 / 2
    ensures forall r, x :: 0 <= r < image.Length0 && 0 <= x < image.Length1 ==> image[r, x] == stored[r][x]
  {
    assert image.Length0 - 1 - y <= y;
  }

  /** An image whose every pixel is the stored one has exactly the stored rows. */
  lemma RowsOfMatches(image: array2<Pixel>, stored: seq<seq<Pixel>>)
    requires |stored| == image.Length0
    requires forall s :: 0 <= s < |stored| ==> |stored[s]| == image.Length1
    requires forall r, x :: 0 <= r < image.Length0 && 0 <= x < image.Length1 ==> image[r, x] == stored[r][x]
    ensures RowsOf(image) == stored
  {
    forall r | 0 <= r < image.Length0
      ensures RowsOf(image)[r] == stored[r]
    {
    }
  }
}
