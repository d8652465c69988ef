// The Tank archive's on-disk records and the pure helpers declared with them:
// enum conversions, entry predicates, chunk arithmetic and constants.
module TankFormat {
  import opened Wrappers
  import opened Bytes
  import opened HelperTypes

  // ---------------------------------------------------------------------
  // Constants
  // ---------------------------------------------------------------------

  /** Offset sentinel: "null" in an offset-addressed index. */
  const InvalidOffset: U32 := 0xFFFF_FFFF
  /** Bit 15 of a file entry's flags marks a resource built with errors. */
  const FileFlagInvalid: U16 := 0x8000
  const DataSectionAlignment: U32 := 4096
  const DataAlignment: U32 := 8
  const InvalidChecksum: U32 := 0

  /** Header version of the original game's archives, version word 1.0.2. */
  const ExpectedVersion: bv32 := MakeVersionWord(1, 0, 2)

  lemma ExpectedVersionValue()
    ensures ExpectedVersion == 0x1_0002
    ensures VersionWordFields(ExpectedVersion) == VersionFields(1, 0, 2)
  {
    VersionWordRoundTrip(1, 0, 2);
  }

  /** 'DSig', 'Tank', '!GPG' and 'USER' as stored, first character first. */
  const ProductId := FourCC(0x44, 0x53, 0x69, 0x67)
  const TankId := FourCC(0x54, 0x61, 0x6E, 0x6B)
  const CreatorIdGpg := FourCC(0x21, 0x47, 0x50, 0x47)
  const CreatorIdUser := FourCC(0x55, 0x53, 0x45, 0x52)

  /** Everything the reader can fail with; the source throws TankFile::Error. */
  datatype TankError =
    | AlreadyOpen
    | NoFilename
    | OpenFailed
    | NotOpen
    | NotReadable
    | SeekFailed
    | ReadFailed
    | StringOverflow
    | BadProductId
    | BadTankId
    | InvalidDirOffset
    | InvalidDirParentOffset
    | InvalidDirChildOffset
    | InvalidFileOffset
    | InvalidFileParentOffset
    | OrphanDir
    | OrphanFile
    | ParentCycle
    | ResourceNotFound
    | NotAFile
    | MissingCompressedHeader
    | ChunkSizeOverflow
    | DecompressFailed(code: int)
    | CrcMismatch
    | InvalidPriority
    | InvalidDataFormat

  // ---------------------------------------------------------------------
  // Priority and DataFormat
  // ---------------------------------------------------------------------

  // The header holds the priority as a raw 32-bit value cast to the enum, and
  // a file entry holds its format as a raw 16-bit value: any value can occur.
  const PriorityFactory: U32 := 0x0000
  const PriorityLanguage: U32 := 0x1000
  const PriorityExpansion: U32 := 0x2000
  const PriorityPatch: U32 := 0x3000
  const PriorityUser: U32 := 0x4000

  predicate IsPriority(p: U32)
  {
    p in {PriorityFactory, PriorityLanguage, PriorityExpansion, PriorityPatch, PriorityUser}
  }

  function PriorityToString(p: U32): (r: Result<string, TankError>)
    ensures r.Ok? <==> IsPriority(p)
    ensures r.Err? ==> r.error == InvalidPriority
  {
    if p == PriorityFactory then Ok("Factory")
    else if p == PriorityLanguage then Ok("Language")
    else if p == PriorityExpansion then Ok("Expansion")
    else if p == PriorityPatch then Ok("Patch")
    else if p == PriorityUser then Ok("User")
    else Err(InvalidPriority)
  }

  function PriorityFromString(s: string): (r: Result<U32, TankError>)
    ensures r.Ok? ==> IsPriority(r.value)
    ensures r.Err? ==> r.error == InvalidPriority
  {
    if s == "Factory" then Ok(PriorityFactory)
    else if s == "Language" then Ok(PriorityLanguage)
    else if s == "Expansion" then Ok(PriorityExpansion)
    else if s == "Patch" then Ok(PriorityPatch)
    else if s == "User" then Ok(PriorityUser)
    else Err(InvalidPriority)
  }

  /** The two priority conversions are inverse on their domains. */
  lemma PriorityRoundTrip(p: U32, s: string)
    ensures PriorityToString(p).Ok? ==> PriorityFromString(PriorityToString(p).value) == Ok(p)
    ensures PriorityFromString(s).Ok? ==> PriorityToString(PriorityFromString(s).value) == Ok(s)
  {
  }

  const FormatRaw: U16 := 0
  const FormatZlib: U16 := 1
  const FormatLzo: U16 := 2

  function DataFormatToString(f: U16): (r: Result<string, TankError>)
    ensures r.Ok? <==> f <= FormatLzo
    ensures r.Err? ==> r.error == InvalidDataFormat
  {
    if f == FormatRaw then Ok("Raw")
    else if f == FormatZlib then Ok("Zlib")
    else if f == FormatLzo then Ok("Lzo")
    else Err(InvalidDataFormat)
  }

  function DataFormatFromString(s: string): (r: Result<U16, TankError>)
    ensures r.Ok? ==> r.value <= FormatLzo
    ensures r.Err? ==> r.error == InvalidDataFormat
  {
    if s == "Raw" then Ok(FormatRaw)
    else if s == "Zlib" then Ok(FormatZlib)
    else if s == "Lzo" then Ok(FormatLzo)
    else Err(InvalidDataFormat)
  }

  lemma DataFormatRoundTrip(f: U16, s: string)
    ensures DataFormatToString(f).Ok? ==> DataFormatFromString(DataFormatToString(f).value) == Ok(f)
    ensures DataFormatFromString(s).Ok? ==> DataFormatToString(DataFormatFromString(s).value) == Ok(s)
  {
  }

  predicate IsDataFormatCompressed(f: U16)
  {
    f != FormatRaw
  }

  /** A format is compressed exactly when it does not print as "Raw". */
  lemma CompressedIffNotRaw(f: U16)
    ensures IsDataFormatCompressed(f) <==> DataFormatToString(f) != Ok("Raw")
  {
  }

  // ---------------------------------------------------------------------
  // Index records
  // ---------------------------------------------------------------------

  datatype ChunkHeader = ChunkHeader(uncompressedSize: U32, compressedSize: U32, extraBytes: U32, offset: U32)
  {
    /** A stored chunk has equal sizes; any difference means it was compressed. */
    predicate IsCompressed()
    {
      uncompressedSize != compressedSize
    }
  }

  datatype CompressedHeader = CompressedHeader(
    compressedSize: U32,
    chunkSize: U32,
    numChunks: U32,
    chunkHeaders: seq<ChunkHeader>)

  /**
   * ceil(fileSize / chunkSize) when both are nonzero, else 0. The source takes
   * the ceiling of a double quotient; for 32-bit operands that is exact.
   */
  function NumChunks(fileSize: U32, chunkSize: U32): (n: U32)
    ensures chunkSize == 0 || fileSize == 0 ==> n == 0
    ensures chunkSize != 0 && fileSize != 0 ==>
      n >= 1 && (n - 1) * chunkSize < fileSize <= n * chunkSize
  {
    if chunkSize != 0 && fileSize != 0 then (fileSize + chunkSize - 1) / chunkSize else 0
  }

  datatype FileEntry = FileEntry(
    parentOffset: U32,
    size: U32,
    offset: U32,
    crc32: U32,
    fileTime: FileTime,
    format: U16,
    flags: U16,
    name: string,
    compressedHeader: Option<CompressedHeader>)
  {
    predicate IsInvalidFile()
    {
      (flags / FileFlagInvalid) % 2 == 1
    }

    predicate IsCompressed()
    {
      IsDataFormatCompressed(format)
    }

    function UncompressedSize(): U32
    {
      size
    }

    /** The source asserts a compressed entry carries its header. */
    function CompressedSize(): (r: U32)
      requires IsCompressed() ==> compressedHeader.Some?
      ensures !IsCompressed() ==> r == size
      ensures IsCompressed() ==> r == compressedHeader.value.compressedSize
    {
      if IsCompressed() then compressedHeader.value.compressedSize else size
    }

    function ChunkSize(): (r: U32)
      requires IsCompressed() ==> compressedHeader.Some?
      ensures !IsCompressed() ==> r == 0
      ensures IsCompressed() ==> r == compressedHeader.value.chunkSize
    {
      if IsCompressed() then compressedHeader.value.chunkSize else 0
    }

    /** The chunk holding uncompressed byte `offs`. */
    function ChunkIndex(offs: U32): (i: U32)
      requires IsCompressed() ==> compressedHeader.Some?
      requires ChunkSize() != 0
      ensures i * ChunkSize() <= offs < (i + 1) * ChunkSize()
    {
      offs / ChunkSize()
    }
  }

  /** Flags are 16 bits wide, so bit 15 is set exactly from 0x8000 up. */
  lemma InvalidFileIffHighBit(e: FileEntry)
    ensures e.IsInvalidFile() <==> e.flags >= 0x8000
  {
  }

  datatype DirEntry = DirEntry(
    parentOffset: U32,
    childCount: U32,
    fileTime: FileTime,
    name: string,
    childOffsets: seq<U32>)
  {
    predicate IsRoot()
    {
      parentOffset == 0
    }
  }

  datatype DirSet = DirSet(numDirs: U32, dirOffsets: seq<U32>, dirEntries: seq<DirEntry>)

  datatype FileSet = FileSet(numFiles: U32, fileOffsets: seq<U32>, fileEntries: seq<FileEntry>)

  /** A path-table value: the index of a directory or of a file entry. */
  datatype TankEntry = Dir(index: nat) | File(index: nat)

  /** An offset field is usable when it is not the sentinel and base+offset,
      summed in 32 bits, stays within the archive. */
  predicate ValidOffset(base: U32, off: U32, fileSize: nat)
  {
    off != InvalidOffset && Wrap32(base + off) <= fileSize
  }

  // ---------------------------------------------------------------------
  // Header
  // ---------------------------------------------------------------------

  datatype Header = Header(
    productId: FourCC,
    tankId: FourCC,
    headerVersion: U32,
    dirsetOffset: U32,
    filesetOffset: U32,
    indexSize: U32,
    dataOffset: U32,
    productVersion: seq<Byte>,   // 12 raw bytes
    minimumVersion: seq<Byte>,   // 12 raw bytes
    priority: U32,
    flags: U32,
    creatorId: FourCC,
    guid: seq<Byte>,             // 16 raw bytes
    indexCrc32: U32,
    dataCrc32: U32,
    utcBuildTime: seq<Byte>,     // 16 raw bytes
    copyrightText: seq<Byte>,    // 100 UTF-16 units, 200 raw bytes
    buildText: seq<Byte>,        // 200 raw bytes
    titleText: seq<Byte>,        // 200 raw bytes
    authorText: seq<Byte>,       // 40 UTF-16 units, 80 raw bytes
    descriptionText: seq<U16>)

  function Zeros(n: nat): (z: seq<Byte>)
    ensures |z| == n && forall i :: 0 <= i < n ==> z[i] == 0
  {
    seq(n, _ => 0)
  }

  const NullFourCC := FourCC(0, 0, 0, 0)

  /** The values Header::setDefaults assigns. */
  const DefaultHeader := Header(
    NullFourCC, NullFourCC, 0, 0, 0, 0, 0, Zeros(12), Zeros(12), PriorityFactory, 0,
    NullFourCC, Zeros(16), 0, 0, Zeros(16), Zeros(200), Zeros(200), Zeros(200), Zeros(80), [])
}
