// The SNO (Siege Node) importer. A node file is an 88-byte header followed
// by its spots, doors, corners and surfaces, each list as long as the header
// says. The functions below specify the whole import on the file image;
// class SnoImporter reads it through the cursor and is proved to produce
// what they do.
module SnoImporting {
  import opened Wrappers
  import opened Bytes
  import opened HelperTypes
  import opened ModelReader

  // ---------------------------------------------------------------------
  // The header
  // ---------------------------------------------------------------------

  /** The only header version accepted, and newer ones. */
  const VersionExpected := 7

  const SNOD := FourCC('S' as int, 'N' as int, 'O' as int, 'D' as int)

  /** The packed 88-byte file header. */
  datatype Header = Header(
    magic: FourCC, version: U32, unused0: U32, doorCount: U32, spotCount: U32,
    cornerCount: U32, faceCount: U32, textureCount: U32, minBBox: Vec3, maxBBox: Vec3,
    unused1: U32, unused2: U32, unused3: U32, unused4: U32, unused5: U32, unused6: U32, unused7: U32,
    dataCrc32: U32)

  const HeaderSize := 88

  /** The header dispose leaves behind: every byte zero. */
  const NullHeader := Header(FourCC(0, 0, 0, 0), 0, 0, 0, 0, 0, 0, 0, Vec3(0, 0, 0), Vec3(0, 0, 0), 0, 0, 0, 0, 0, 0, 0, 0)

  /** Little-endian 32-bit words, back to back. */
  function DecodeWords(b: seq<Byte>): (ws: seq<U32>)
    requires |b| % 4 == 0
    ensures |ws| == |b| / 4
  {
    if b == [] then [] else [DecodeU32(b[..4])] + DecodeWords(b[4..])
  }

  function EncodeWords(ws: seq<U32>): (b: seq<Byte>)
    ensures |b| == 4 * |ws|
  {
    if ws == [] then [] else EncodeU32(ws[0]) + EncodeWords(ws[1..])
  }

  lemma {:induction false} DecodeEncodeWords(ws: seq<U32>)
    ensures DecodeWords(EncodeWords(ws)) == ws
  {
    if ws != [] {
      var b := EncodeWords(ws);
      assert b[..4] == EncodeU32(ws[0]) && b[4..] == EncodeWords(ws[1..]);
      DecodeEncodeU32(ws[0]);
      DecodeEncodeWords(ws[1..]);
    }
  }

  /** The 21 words after the magic, in file order. */
  function HeaderWords(h: Header): (ws: seq<U32>)
    ensures |ws| == 21
  {
    [h.version, h.unused0, h.doorCount, h.spotCount, h.cornerCount, h.faceCount, h.textureCount,
     h.minBBox.x, h.minBBox.y, h.minBBox.z, h.maxBBox.x, h.maxBBox.y, h.maxBBox.z,
     h.unused1, h.unused2, h.unused3, h.unused4, h.unused5, h.unused6, h.unused7, h.dataCrc32]
  }

  function HeaderOf(magic: FourCC, w: seq<U32>): Header
    requires |w| == 21
  {
    Header(magic, w[0], w[1], w[2], w[3], w[4], w[5], w[6], Vec3(w[7], w[8], w[9]), Vec3(w[10], w[11], w[12]),
           w[13], w[14], w[15], w[16], w[17], w[18], w[19], w[20])
  }

  /** The header as the packed struct lays it out: the magic bytes, then
      21 little-endian words. */
  function DecodeHeader(b: seq<Byte>): Header
    requires |b| == HeaderSize
  {
    HeaderOf(FourCCFromBytes(b[..4]), DecodeWords(b[4..]))
  }

  function EncodeHeader(h: Header): (b: seq<Byte>)
    ensures |b| == HeaderSize
  {
    [h.magic.c0, h.magic.c1, h.magic.c2, h.magic.c3] + EncodeWords(HeaderWords(h))
  }

  /** Every header survives being written and read back. */
  lemma HeaderRoundTrip(h: Header)
    ensures DecodeHeader(EncodeHeader(h)) == h
  {
    var b := EncodeHeader(h);
    assert b[..4] == [h.magic.c0, h.magic.c1, h.magic.c2, h.magic.c3];
    assert b[4..] == EncodeWords(HeaderWords(h));
    DecodeEncodeWords(HeaderWords(h));
  }

  /** The 88-byte header read. */
  function HeaderAt(data: seq<Byte>, at: nat): (r: Result<Parsed<Header>, ImportError>)
    ensures r.Ok? <==> CanRead(data, at, HeaderSize)
    ensures r.Ok? ==> r.value.next == at + HeaderSize
  {
    var b :- BytesAt(data, at, HeaderSize);
    Ok(Parsed(DecodeHeader(b.value), b.next))
  }

  /** readHeader: the header, refused unless it is a "SNOD" of version 7 or later. */
  function CheckedHeaderAt(data: seq<Byte>, at: nat): (r: Result<Parsed<Header>, ImportError>)
    ensures r.Ok? ==> r.value.value.magic == SNOD && r.value.value.version >= VersionExpected
    ensures r.Ok? ==> HeaderAt(data, at) == r
  {
    var h :- HeaderAt(data, at);
    if h.value.magic != SNOD then Err(BadMagic(h.value.magic))
    else if h.value.version < VersionExpected then Err(UnsupportedVersion(h.value.version))
    else Ok(h)
  }

  /** A written header passes the check exactly when it is a "SNOD" of
      version 7 or later. */
  lemma HeaderCheck(h: Header, rest: seq<Byte>)
    ensures var r := CheckedHeaderAt(EncodeHeader(h) + rest, 0);
      (r.Ok? <==> h.magic == SNOD && h.version >= VersionExpected) &&
      (r.Ok? ==> r.value == Parsed(h, HeaderSize)) &&
      (h.magic != SNOD ==> r == Err(BadMagic(h.magic))) &&
      (h.magic == SNOD && h.version < VersionExpected ==> r == Err(UnsupportedVersion(h.version)))
  {
    var data := EncodeHeader(h) + rest;
    assert data[0..HeaderSize] == EncodeHeader(h);
    HeaderRoundTrip(h);
  }

  // ---------------------------------------------------------------------
  // Spots, doors, corners and surfaces
  // ---------------------------------------------------------------------

  /** A 4x3 transform: three rotation rows and the translation, row-major. */
  datatype Xform = Xform(row0: Vec3, row1: Vec3, row2: Vec3, translation: Vec3)

  datatype SpotInfo = SpotInfo(xform: Xform, name: Text)

  datatype DoorInfo = DoorInfo(index: U32, xform: Xform, hotSpots: seq<U32>)

  /** A corner; the colour is stored R, B, G, A and held as R, G, B, A. */
  datatype CornerInfo = CornerInfo(pos: Vec3, normal: Vec3, color: Vec4b, texCoord: Vec2)

  /** Siege nodes index corners with 16 bits. */
  datatype TriIndex = TriIndex(i0: U16, i1: U16, i2: U16)

  datatype SurfaceInfo = SurfaceInfo(startCorner: U32, spanCorner: U32, cornerCount: U32, faces: seq<TriIndex>, textureName: Text)

  function XformAt(data: seq<Byte>, at: nat): (r: Result<Parsed<Xform>, ImportError>)
    ensures r.Ok? ==> r.value.next == at + 48
  {
    var row0 :- Vec3At(data, at);
    var row1 :- Vec3At(data, row0.next);
    var row2 :- Vec3At(data, row1.next);
    var translation :- Vec3At(data, row2.next);
    Ok(Parsed(Xform(row0.value, row1.value, row2.value, translation.value), translation.next))
  }

  function SpotAt(data: seq<Byte>, at: nat): (r: Result<Parsed<SpotInfo>, ImportError>)
    ensures r.Ok? ==> r.value.next == at + 48 + |r.value.value.name| + 1
  {
    var xform :- XformAt(data, at);
    var name :- CStringAt(data, xform.next);
    Ok(Parsed(SpotInfo(xform.value, name.value), name.next))
  }

  function DoorAt(data: seq<Byte>, at: nat): (r: Result<Parsed<DoorInfo>, ImportError>)
    ensures r.Ok? ==> r.value.next >= at + 56
  {
    var index :- U32At(data, at);
    var xform :- XformAt(data, index.next);
    var hotSpotCount :- U32At(data, xform.next);
    U32AtAdvances();
    var hotSpots :- Items(data, hotSpotCount.next, hotSpotCount.value, U32At);
    Ok(Parsed(DoorInfo(index.value, xform.value, hotSpots.value), hotSpots.next))
  }

  /** A corner: position, normal, the colour bytes R, B, G, A, texture coordinate. */
  function CornerAt(data: seq<Byte>, at: nat): (r: Result<Parsed<CornerInfo>, ImportError>)
    ensures r.Ok? ==> r.value.next == at + 36
  {
    var pos :- Vec3At(data, at);
    var normal :- Vec3At(data, pos.next);
    var red :- U8At(data, normal.next);
    var blue :- U8At(data, red.next);
    var green :- U8At(data, blue.next);
    var alpha :- U8At(data, green.next);
    var texCoord :- Vec2At(data, alpha.next);
    Ok(Parsed(CornerInfo(pos.value, normal.value, Vec4b(red.value, green.value, blue.value, alpha.value), texCoord.value), texCoord.next))
  }

  function FaceAt(data: seq<Byte>, at: nat): (r: Result<Parsed<TriIndex>, ImportError>)
    ensures r.Ok? ==> r.value.next == at + 6
  {
    var i0 :- U16At(data, at);
    var i1 :- U16At(data, i0.next);
    var i2 :- U16At(data, i1.next);
    Ok(Parsed(TriIndex(i0.value, i1.value, i2.value), i2.next))
  }

  /** A surface: its texture name, corner range and count, then one
      triangle per whole three corners. */
  function SurfaceAt(data: seq<Byte>, at: nat): (r: Result<Parsed<SurfaceInfo>, ImportError>)
    ensures r.Ok? ==> |r.value.value.faces| == r.value.value.cornerCount / 3
    ensures r.Ok? ==> r.value.next > at
  {
    var name :- CStringAt(data, at);
    var start :- U32At(data, name.next);
    var span :- U32At(data, start.next);
    var cornerCount :- U32At(data, span.next);
    FaceAtAdvances();
    var faces :- Items(data, cornerCount.next, cornerCount.value / 3, FaceAt);
    Ok(Parsed(SurfaceInfo(start.value, span.value, cornerCount.value, faces.value, name.value), faces.next))
  }

  function EncodeVec3(v: Vec3): (b: seq<Byte>)
    ensures |b| == 12
  {
    EncodeU32(v.x) + EncodeU32(v.y) + EncodeU32(v.z)
  }

  function EncodeVec2(v: Vec2): (b: seq<Byte>)
    ensures |b| == 8
  {
    EncodeU32(v.x) + EncodeU32(v.y)
  }

  lemma DecodeEncodeVec3(v: Vec3)
    ensures DecodeVec3(EncodeVec3(v)) == v
  {
    var b := EncodeVec3(v);
    assert b[..4] == EncodeU32(v.x) && b[4..8] == EncodeU32(v.y) && b[8..] == EncodeU32(v.z);
    DecodeEncodeU32(v.x);
    DecodeEncodeU32(v.y);
    DecodeEncodeU32(v.z);
  }

  lemma DecodeEncodeVec2(v: Vec2)
    ensures DecodeVec2(EncodeVec2(v)) == v
  {
    var b := EncodeVec2(v);
    assert b[..4] == EncodeU32(v.x) && b[4..] == EncodeU32(v.y);
    DecodeEncodeU32(v.x);
    DecodeEncodeU32(v.y);
  }

  /** A corner as the exporter writes it, colour bytes in R, B, G, A order. */
  function EncodeCorner(c: CornerInfo): (b: seq<Byte>)
    ensures |b| == 36
  {
    EncodeVec3(c.pos) + EncodeVec3(c.normal) + [c.color.x, c.color.z, c.color.y, c.color.w] + EncodeVec2(c.texCoord)
  }

  /** Every corner reads back from its encoding, the swizzle undone. */
  lemma CornerRoundTrip(c: CornerInfo, rest: seq<Byte>)
    ensures CornerAt(EncodeCorner(c) + rest, 0) == Ok(Parsed(c, 36))
  {
    var data := EncodeCorner(c) + rest;
    assert data[0..12] == EncodeVec3(c.pos);
    assert data[12..24] == EncodeVec3(c.normal);
    assert data[24..25] == [c.color.x] && data[25..26] == [c.color.z];
    assert data[26..27] == [c.color.y] && data[27..28] == [c.color.w];
    assert data[28..36] == EncodeVec2(c.texCoord);
    DecodeEncodeVec3(c.pos);
    DecodeEncodeVec3(c.normal);
    DecodeEncodeVec2(c.texCoord);
  }

  lemma XformAtAdvances() ensures Advancing(XformAt) {}
  lemma SpotAtAdvances() ensures Advancing(SpotAt) {}
  lemma DoorAtAdvances() ensures Advancing(DoorAt) {}
  lemma CornerAtAdvances() ensures Advancing(CornerAt) {}
  lemma FaceAtAdvances() ensures Advancing(FaceAt) {}
  lemma SurfaceAtAdvances() ensures Advancing(SurfaceAt) {}

  // ---------------------------------------------------------------------
  // The import
  // ---------------------------------------------------------------------

  /** Everything a node file holds. */
  datatype SnoData = SnoData(header: Header, spots: seq<SpotInfo>, doors: seq<DoorInfo>,
                             corners: seq<CornerInfo>, surfaces: seq<SurfaceInfo>)

  /** importSnoModel: the header, then the four lists in file order, each
      as long as the header says. */
  function SnoImport(data: seq<Byte>): (r: Result<SnoData, ImportError>)
    ensures r.Ok? ==> r.value.header.magic == SNOD && r.value.header.version >= VersionExpected
    ensures r.Ok? ==> |r.value.spots| == r.value.header.spotCount && |r.value.doors| == r.value.header.doorCount
    ensures r.Ok? ==> |r.value.corners| == r.value.header.cornerCount && |r.value.surfaces| == r.value.header.textureCount
  {
    var header :- CheckedHeaderAt(data, 0);
    var h := header.value;
    SpotAtAdvances();
    DoorAtAdvances();
    CornerAtAdvances();
    SurfaceAtAdvances();
    var spots :- Items(data, header.next, h.spotCount, SpotAt);
    var doors :- Items(data, spots.next, h.doorCount, DoorAt);
    var corners :- Items(data, doors.next, h.cornerCount, CornerAt);
    var surfaces :- Items(data, corners.next, h.textureCount, SurfaceAt);
    Ok(SnoData(h, spots.value, doors.value, corners.value, surfaces.value))
  }

  // ---------------------------------------------------------------------
  // The importer
  // ---------------------------------------------------------------------

  /** The importer: its cursor and the model parts it fills. */
  class SnoImporter {
    const cursor: ByteCursor
    var header: Header
    var spots: seq<SpotInfo>
    var doors: seq<DoorInfo>
    var corners: seq<CornerInfo>
    var surfaces: seq<SurfaceInfo>

    ghost predicate Valid()
      reads this, cursor
    {
      cursor.Valid()
    }

    function Parts(): SnoData
      reads this
    {
      SnoData(header, spots, doors, corners, surfaces)
    }

    /** The source asserts that the file image is not empty. */
    constructor (fileData: seq<Byte>)
      requires |fileData| > 0
      ensures Valid() && fresh(cursor)
      ensures cursor.fileContents == fileData && cursor.readPosition == 0
      ensures Parts() == SnoData(NullHeader, [], [], [], [])
    {
      cursor := new ByteCursor(fileData);
      header := NullHeader;
      spots := [];
      doors := [];
      corners := [];
      surfaces := [];
    }

    /** readHeader: the header is stored as read, then checked. */
    method ReadHeader() returns (r: Result<Header, ImportError>)
      requires Valid()
      modifies this`header, cursor
      ensures Valid()
      ensures Matches(r, cursor.readPosition, CheckedHeaderAt(cursor.fileContents, old(cursor.readPosition)))
      ensures var h := HeaderAt(cursor.fileContents, old(cursor.readPosition));
        header == if h.Ok? then h.value.value else old(header)
    {
      var b :- cursor.ReadBytes(HeaderSize);
      header := DecodeHeader(b);
      if header.magic != SNOD {
        return Err(BadMagic(header.magic));
      }
      if header.version < VersionExpected {
        return Err(UnsupportedVersion(header.version));
      }
      r := Ok(header);
    }

    /** readFloat4x3: three rotation rows, then the translation. */
    method ReadXform() returns (r: Result<Xform, ImportError>)
      requires Valid()
      modifies cursor
      ensures Valid()
      ensures Matches(r, cursor.readPosition, XformAt(cursor.fileContents, old(cursor.readPosition)))
    {
      var row0 :- cursor.ReadVec3();
      var row1 :- cursor.ReadVec3();
      var row2 :- cursor.ReadVec3();
      var translation :- cursor.ReadVec3();
      r := Ok(Xform(row0, row1, row2, translation));
    }

    method ReadSpot() returns (r: Result<SpotInfo, ImportError>)
      requires Valid()
      modifies cursor
      ensures Valid()
      ensures Matches(r, cursor.readPosition, SpotAt(cursor.fileContents, old(cursor.readPosition)))
    {
      var xform :- ReadXform();
      var name :- cursor.ReadString();
      r := Ok(SpotInfo(xform, name));
    }

    method ReadDoor() returns (r: Result<DoorInfo, ImportError>)
      requires Valid()
      modifies cursor
      ensures Valid()
      ensures Matches(r, cursor.readPosition, DoorAt(cursor.fileContents, old(cursor.readPosition)))
    {
      var index :- cursor.ReadU32();
      var xform :- ReadXform();
      var hotSpotCount :- cursor.ReadU32();
      var hotSpots :- ReadHotSpots(hotSpotCount);
      r := Ok(DoorInfo(index, xform, hotSpots));
    }

    /** A corner, with its colour swizzled from R, B, G, A to R, G, B, A. */
    method ReadCorner() returns (r: Result<CornerInfo, ImportError>)
      requires Valid()
      modifies cursor
      ensures Valid()
      ensures Matches(r, cursor.readPosition, CornerAt(cursor.fileContents, old(cursor.readPosition)))
    {
      var pos :- cursor.ReadVec3();
      var normal :- cursor.ReadVec3();
      var red :- cursor.ReadU8();
      var blue :- cursor.ReadU8();
      var green :- cursor.ReadU8();
      var alpha :- cursor.ReadU8();
      var texCoord :- cursor.ReadTexCoord();
      r := Ok(CornerInfo(pos, normal, Vec4b(red, green, blue, alpha), texCoord));
    }

    method ReadFace() returns (r: Result<TriIndex, ImportError>)
      requires Valid()
      modifies cursor
      ensures Valid()
      ensures Matches(r, cursor.readPosition, FaceAt(cursor.fileContents, old(cursor.readPosition)))
    {
      var i0 :- cursor.ReadU16();
      var i1 :- cursor.ReadU16();
      var i2 :- cursor.ReadU16();
      r := Ok(TriIndex(i0, i1, i2));
    }

    method ReadSurface() returns (r: Result<SurfaceInfo, ImportError>)
      requires Valid()
      modifies cursor
      ensures Valid()
      ensures Matches(r, cursor.readPosition, SurfaceAt(cursor.fileContents, old(cursor.readPosition)))
    {
      var textureName :- cursor.ReadString();
      var startCorner :- cursor.ReadU32();
      var spanCorner :- cursor.ReadU32();
      var cornerCount :- cursor.ReadU32();
      var faces :- ReadFaces(cornerCount / 3);
      r := Ok(SurfaceInfo(startCorner, spanCorner, cornerCount, faces, textureName));
    }

    /** One more item after `items` extends them, or fails the whole list. */
    method ReadHotSpotsStep(ghost at: nat, ghost i: nat, ghost n: nat, ghost items: seq<U32>)
      returns (r: Result<U32, ImportError>)
      requires Valid() && i < n
      requires Items(cursor.fileContents, at, i, U32At) == Ok(Parsed(items, cursor.readPosition))
      modifies cursor
      ensures Valid()
      ensures r.Ok? ==> Items(cursor.fileContents, at, i + 1, U32At) == Ok(Parsed(items + [r.value], cursor.readPosition))
      ensures r.Err? ==> Items(cursor.fileContents, at, n, U32At) == Err(r.error)
    {
      U32AtAdvances();
      ItemsNext(cursor.fileContents, at, i, U32At, items, cursor.readPosition);
      r := cursor.ReadU32();
      if r.Err? {
        ItemsFailurePersists(cursor.fileContents, at, i + 1, n, U32At);
      }
    }

    /** A door's hot-spot words. */
    method ReadHotSpots(n: nat) returns (r: Result<seq<U32>, ImportError>)
      requires Valid()
      modifies cursor
      ensures Valid()
      ensures Matches(r, cursor.readPosition, Items(cursor.fileContents, old(cursor.readPosition), n, U32At))
    {
      ghost var at := cursor.readPosition;
      U32AtAdvances();
      var items: seq<U32> := [];
      var i := 0;
      while i < n
        invariant Valid() && i <= n
        invariant Items(cursor.fileContents, at, i, U32At) == Ok(Parsed(items, cursor.readPosition))
      {
        var x := ReadHotSpotsStep(at, i, n, items);
        if x.Err? {
          return Err(x.error);
        }
        items := items + [x.value];
        i := i + 1;
      }
      r := Ok(items);
    }

    /** One more item after `items` extends them, or fails the whole list. */
    method ReadFacesStep(ghost at: nat, ghost i: nat, ghost n: nat, ghost items: seq<TriIndex>)
      returns (r: Result<TriIndex, ImportError>)
      requires Valid() && i < n
      requires Items(cursor.fileContents, at, i, FaceAt) == Ok(Parsed(items, cursor.readPosition))
      modifies cursor
      ensures Valid()
      ensures r.Ok? ==> Items(cursor.fileContents, at, i + 1, FaceAt) == Ok(Parsed(items + [r.value], cursor.readPosition))
      ensures r.Err? ==> Items(cursor.fileContents, at, n, FaceAt) == Err(r.error)
    {
      FaceAtAdvances();
      ItemsNext(cursor.fileContents, at, i, FaceAt, items, cursor.readPosition);
      r := ReadFace();
      if r.Err? {
        ItemsFailurePersists(cursor.fileContents, at, i + 1, n, FaceAt);
      }
    }

    /** A surface's triangles. */
    method ReadFaces(n: nat) returns (r: Result<seq<TriIndex>, ImportError>)
      requires Valid()
      modifies cursor
      ensures Valid()
      ensures Matches(r, cursor.readPosition, Items(cursor.fileContents, old(cursor.readPosition), n, FaceAt))
    {
      ghost var at := cursor.readPosition;
      FaceAtAdvances();
      var items: seq<TriIndex> := [];
      var i := 0;
      while i < n
        invariant Valid() && i <= n
        invariant Items(cursor.fileContents, at, i, FaceAt) == Ok(Parsed(items, cursor.readPosition))
      {
        var x := ReadFacesStep(at, i, n, items);
        if x.Err? {
          return Err(x.error);
        }
        items := items + [x.value];
        i := i + 1;
      }
      r := Ok(items);
    }

    /** One more item after `items` extends them, or fails the whole list. */
    method ReadSpotsStep(ghost at: nat, ghost i: nat, ghost n: nat, ghost items: seq<SpotInfo>)
      returns (r: Result<SpotInfo, ImportError>)
      requires Valid() && i < n
      requires Items(cursor.fileContents, at, i, SpotAt) == Ok(Parsed(items, cursor.readPosition))
      modifies cursor
      ensures Valid()
      ensures r.Ok? ==> Items(cursor.fileContents, at, i + 1, SpotAt) == Ok(Parsed(items + [r.value], cursor.readPosition))
      ensures r.Err? ==> Items(cursor.fileContents, at, n, SpotAt) == Err(r.error)
    {
      SpotAtAdvances();
      ItemsNext(cursor.fileContents, at, i, SpotAt, items, cursor.readPosition);
      r := ReadSpot();
      if r.Err? {
        ItemsFailurePersists(cursor.fileContents, at, i + 1, n, SpotAt);
      }
    }

    /** readSpots: as many spots as the header says. */
    method ReadSpots(n: nat) returns (r: Result<seq<SpotInfo>, ImportError>)
      requires Valid()
      modifies cursor
      ensures Valid()
      ensures Matches(r, cursor.readPosition, Items(cursor.fileContents, old(cursor.readPosition), n, SpotAt))
    {
      ghost var at := cursor.readPosition;
      SpotAtAdvances();
      var items: seq<SpotInfo> := [];
      var i := 0;
      while i < n
        invariant Valid() && i <= n
        invariant Items(cursor.fileContents, at, i, SpotAt) == Ok(Parsed(items, cursor.readPosition))
      {
        var x := ReadSpotsStep(at, i, n, items);
        if x.Err? {
          return Err(x.error);
        }
        items := items + [x.value];
        i := i + 1;
      }
      r := Ok(items);
    }

    /** One more item after `items` extends them, or fails the whole list. */
    method ReadDoorsStep(ghost at: nat, ghost i: nat, ghost n: nat, ghost items: seq<DoorInfo>)
      returns (r: Result<DoorInfo, ImportError>)
      requires Valid() && i < n
      requires Items(cursor.fileContents, at, i, DoorAt) == Ok(Parsed(items, cursor.readPosition))
      modifies cursor
      ensures Valid()
      ensures r.Ok? ==> Items(cursor.fileContents, at, i + 1, DoorAt) == Ok(Parsed(items + [r.value], cursor.readPosition))
      ensures r.Err? ==> Items(cursor.fileContents, at, n, DoorAt) == Err(r.error)
    {
      DoorAtAdvances();
      ItemsNext(cursor.fileContents, at, i, DoorAt, items, cursor.readPosition);
      r := ReadDoor();
      if r.Err? {
        ItemsFailurePersists(cursor.fileContents, at, i + 1, n, DoorAt);
      }
    }

    /** readDoors: as many doors as the header says. */
    method ReadDoors(n: nat) returns (r: Result<seq<DoorInfo>, ImportError>)
      requires Valid()
      modifies cursor
      ensures Valid()
      ensures Matches(r, cursor.readPosition, Items(cursor.fileContents, old(cursor.readPosition), n, DoorAt))
    {
      ghost var at := cursor.readPosition;
      DoorAtAdvances();
      var items: seq<DoorInfo> := [];
      var i := 0;
      while i < n
        invariant Valid() && i <= n
        invariant Items(cursor.fileContents, at, i, DoorAt) == Ok(Parsed(items, cursor.readPosition))
      {
        var x := ReadDoorsStep(at, i, n, items);
        if x.Err? {
          return Err(x.error);
        }
        items := items + [x.value];
        i := i + 1;
      }
      r := Ok(items);
    }

    /** One more item after `items` extends them, or fails the whole list. */
    method ReadCornersStep(ghost at: nat, ghost i: nat, ghost n: nat, ghost items: seq<CornerInfo>)
      returns (r: Result<CornerInfo, ImportError>)
      requires Valid() && i < n
      requires Items(cursor.fileContents, at, i, CornerAt) == Ok(Parsed(items, cursor.readPosition))
      modifies cursor
      ensures Valid()
      ensures r.Ok? ==> Items(cursor.fileContents, at, i + 1, CornerAt) == Ok(Parsed(items + [r.value], cursor.readPosition))
      ensures r.Err? ==> Items(cursor.fileContents, at, n, CornerAt) == Err(r.error)
    {
      CornerAtAdvances();
      ItemsNext(cursor.fileContents, at, i, CornerAt, items, cursor.readPosition);
      r := ReadCorner();
      if r.Err? {
        ItemsFailurePersists(cursor.fileContents, at, i + 1, n, CornerAt);
      }
    }

    /** readCorners: as many corners as the header says. */
    method ReadCorners(n: nat) returns (r: Result<seq<CornerInfo>, ImportError>)
      requires Valid()
      modifies cursor
      ensures Valid()
      ensures Matches(r, cursor.readPosition, Items(cursor.fileContents, old(cursor.readPosition), n, CornerAt))
    {
      ghost var at := cursor.readPosition;
      CornerAtAdvances();
      var items: seq<CornerInfo> := [];
      var i := 0;
      while i < n
        invariant Valid() && i <= n
        invariant Items(cursor.fileContents, at, i, CornerAt) == Ok(Parsed(items, cursor.readPosition))
      {
        var x := ReadCornersStep(at, i, n, items);
        if x.Err? {
          return Err(x.error);
        }
        items := items + [x.value];
        i := i + 1;
      }
      r := Ok(items);
    }

    /** One more item after `items` extends them, or fails the whole list. */
    method ReadSurfacesStep(ghost at: nat, ghost i: nat, ghost n: nat, ghost items: seq<SurfaceInfo>)
      returns (r: Result<SurfaceInfo, ImportError>)
      requires Valid() && i < n
      requires Items(cursor.fileContents, at, i, SurfaceAt) == Ok(Parsed(items, cursor.readPosition))
      modifies cursor
      ensures Valid()
      ensures r.Ok? ==> Items(cursor.fileContents, at, i + 1, SurfaceAt) == Ok(Parsed(items + [r.value], cursor.readPosition))
      ensures r.Err? ==> Items(cursor.fileContents, at, n, SurfaceAt) == Err(r.error)
    {
      SurfaceAtAdvances();
      ItemsNext(cursor.fileContents, at, i, SurfaceAt, items, cursor.readPosition);
      r := ReadSurface();
      if r.Err? {
        ItemsFailurePersists(cursor.fileContents, at, i + 1, n, SurfaceAt);
      }
    }

    /** readSurfaces: one surface per texture. */
    method ReadSurfaces(n: nat) returns (r: Result<seq<SurfaceInfo>, ImportError>)
      requires Valid()
      modifies cursor
      ensures Valid()
      ensures Matches(r, cursor.readPosition, Items(cursor.fileContents, old(cursor.readPosition), n, SurfaceAt))
    {
      ghost var at := cursor.readPosition;
      SurfaceAtAdvances();
      var items: seq<SurfaceInfo> := [];
      var i := 0;
      while i < n
        invariant Valid() && i <= n
        invariant Items(cursor.fileContents, at, i, SurfaceAt) == Ok(Parsed(items, cursor.readPosition))
      {
        var x := ReadSurfacesStep(at, i, n, items);
        if x.Err? {
          return Err(x.error);
        }
        items := items + [x.value];
        i := i + 1;
      }
      r := Ok(items);
    }

    /** importSnoModel: the header, spots, doors, corners and surfaces. */
    method ImportSnoModel() returns (r: Result<(), ImportError>)
      requires Valid() && cursor.readPosition == 0
      modifies this, cursor
      ensures Valid()
      ensures r.Ok? <==> SnoImport(cursor.fileContents).Ok?
      ensures r.Ok? ==> Parts() == SnoImport(cursor.fileContents).value
      ensures r.Err? ==> r.error == SnoImport(cursor.fileContents).error
      ensures HeaderAt(cursor.fileContents, 0).Ok? ==> header == HeaderAt(cursor.fileContents, 0).value.value
    {
      var h :- ReadHeader();
      spots :- ReadSpots(h.spotCount);
      doors :- ReadDoors(h.doorCount);
      corners :- ReadCorners(h.cornerCount);
      surfaces :- ReadSurfaces(h.textureCount);
      r := Ok(());
    }
  }
}
