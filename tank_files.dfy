// A Tank archive opened for reading: the file is an immutable byte sequence
// read through a cursor, with the input stream's fail state. Little-endian
// fixed-size reads, the dword-padded length-prefixed strings and the header.
module TankFiles {
  import opened Wrappers
  import opened Bytes
  import opened HelperTypes
  import opened TankFormat
  import UtilsCommon

  // ---------------------------------------------------------------------
  // Dword alignment and string sizes
  // ---------------------------------------------------------------------

  /** alignToDword as written: the sum is truncated to 16 bits on return. */
  function AlignToDword(size: U16): (r: U16)
  {
    Wrap16(size + (4 - size % 4))
  }

  /** alignToDword without the 16-bit truncation. */
  function AlignUp(size: nat): (r: nat)
    ensures r % 4 == 0 && size < r <= size + 4
  {
    size + (4 - size % 4)
  }

  /** Below 0xFFFC the next multiple of four fits in 16 bits; from there the
      sum wraps to a value below four. */
  lemma AlignToDwordBounds(size: U16)
    ensures size <= 0xFFFB ==> AlignToDword(size) == AlignUp(size)
    ensures size <= 0xFFFB ==> AlignToDword(size) % 4 == 0 && size < AlignToDword(size) <= size + 4
    ensures size > 0xFFFB ==> AlignToDword(size) == 0
  {
  }

  /** GetDwordAlignUp of the engine's reference header: round up to a multiple of four. */
  function DwordAlignUp(n: nat): (r: nat)
    ensures r % 4 == 0 && n <= r < n + 4
  {
    (n + 3) / 4 * 4
  }

  /** NSTRING::GetSize: length word, text and terminator, dword aligned. */
  function NStringSize(len: nat): nat
  {
    DwordAlignUp(2 + len + 1)
  }

  /** WNSTRING::GetSize: length word, UTF-16 text and terminator, dword aligned. */
  function WNStringSize(len: nat): nat
  {
    DwordAlignUp(2 + (len + 1) * 2)
  }

  /** Padded text length after a nonzero length word, as written: every step in
      16-bit arithmetic. */
  function PaddedLengthAsWritten(len: U16): U16
  {
    Wrap16(AlignToDword(Wrap16(len + 2)) - 2)
  }

  /** Padded text length after a nonzero length word, without truncation: the
      characters that follow the length word up to the next dword boundary. */
  function PaddedLength(len: U16): (n: nat)
    ensures (n + 2) % 4 == 0 && len < n <= len + 4
  {
    AlignUp(len + 2) - 2
  }

  /** The two agree on every length below 0xFFFE. */
  lemma PaddedLengthAsWrittenAgrees(len: U16)
    requires len <= 0xFFFD
    ensures PaddedLengthAsWritten(len) == PaddedLength(len)
  {
    if len + 2 <= 0xFFFB {
      AlignToDwordBounds(len + 2);
    } else {
      AlignToDwordBounds(len + 2);
      assert AlignUp(len + 2) == 0x1_0000;
    }
  }

  /** Lengths 0xFFFE and 0xFFFF wrap to a padded length of 2, which passes the
      2048-byte overflow check; the untruncated length is rejected. */
  lemma PaddedLengthWraps(len: U16)
    requires len >= 0xFFFE
    ensures PaddedLengthAsWritten(len) == 2 < UtilsCommon.MaxTempStringLen
    ensures PaddedLength(len) >= UtilsCommon.MaxTempStringLen
  {
    assert Wrap16(len + 2) == len + 2 - 0x1_0000;
  }

  /** A length word and its padded text occupy exactly NSTRING::GetSize bytes. */
  lemma PaddedLengthIsNStringSize(len: U16)
    ensures 2 + PaddedLength(len) == NStringSize(len)
  {
  }

  /** The padded length overflows the 2048-byte buffer exactly from 2046 on. */
  lemma PaddedLengthOverflowIff(len: U16)
    ensures PaddedLength(len) >= UtilsCommon.MaxTempStringLen <==> len >= 2046
  {
  }

  // ---------------------------------------------------------------------
  // Reads as functions of the bytes and a position
  // ---------------------------------------------------------------------


  function BytesAt(data: seq<Byte>, at: nat, n: nat): (r: Result<Parsed<seq<Byte>>, TankError>)
    ensures r.Ok? <==> at + n <= |data|
    ensures r.Ok? ==> r.value.next == at + n && |r.value.value| == n
  {
    if at + n <= |data| then Ok(Parsed(data[at..at + n], at + n)) else Err(ReadFailed)
  }

  function U16At(data: seq<Byte>, at: nat): (r: Result<Parsed<U16>, TankError>)
    ensures r.Ok? <==> at + 2 <= |data|
  {
    if at + 2 <= |data| then Ok(Parsed(DecodeU16(data[at..at + 2]), at + 2)) else Err(ReadFailed)
  }

  function U32At(data: seq<Byte>, at: nat): (r: Result<Parsed<U32>, TankError>)
    ensures r.Ok? <==> at + 4 <= |data|
  {
    if at + 4 <= |data| then Ok(Parsed(DecodeU32(data[at..at + 4]), at + 4)) else Err(ReadFailed)
  }

  /** A FILETIME: low 32 bits, then high 32 bits. */
  function FileTimeAt(data: seq<Byte>, at: nat): (r: Result<Parsed<FileTime>, TankError>)
    ensures r.Ok? <==> at + 8 <= |data|
  {
    if at + 8 <= |data| then
      Ok(Parsed(FileTime(DecodeU32(data[at..at + 4]), DecodeU32(data[at + 4..at + 8])), at + 8))
    else Err(ReadFailed)
  }

  /** UTF-16 code units of a little-endian byte buffer. */
  function DecodeWide(b: seq<Byte>): (w: seq<U16>)
    requires |b| % 2 == 0
    ensures |w| == |b| / 2
  {
    seq(|b| / 2, i requires 0 <= i < |b| / 2 => DecodeU16(b[2 * i..2 * i + 2]))
  }

  /** The code units of `s` up to, not including, its first zero. */
  function WideUntilNul(s: seq<U16>): (r: seq<U16>)
    ensures |r| <= |s| && r == s[..|r|]
    ensures forall i :: 0 <= i < |r| ==> r[i] != 0
    ensures |r| == |s| || s[|r|] == 0
  {
    if |s| == 0 || s[0] == 0 then [] else [s[0]] + WideUntilNul(s[1..])
  }

  /** readNString, with the padded length in the source's 16-bit arithmetic. */
  function NStringAt(data: seq<Byte>, at: nat): (r: Result<Parsed<string>, TankError>)
  {
    var len :- U16At(data, at);
    if len.value == 0 then
      var pad :- U16At(data, len.next);
      Ok(Parsed("", pad.next))
    else
      var padded := PaddedLengthAsWritten(len.value);
      if padded >= UtilsCommon.MaxTempStringLen then Err(StringOverflow)
      else
        var text :- BytesAt(data, len.next, padded);
        Ok(Parsed(BytesToString(UntilNul(text.value)), text.next))
  }

  /** readWNString: aligned like readNString by characters, then reads two
      bytes per character. */
  function WNStringAt(data: seq<Byte>, at: nat): (r: Result<Parsed<seq<U16>>, TankError>)
  {
    var len :- U16At(data, at);
    if len.value == 0 then
      var pad :- U16At(data, len.next);
      Ok(Parsed([], pad.next))
    else
      var padded := PaddedLengthAsWritten(len.value);
      if padded >= UtilsCommon.MaxTempStringLen then Err(StringOverflow)
      else
        var text :- BytesAt(data, len.next, 2 * padded);
        Ok(Parsed(WideUntilNul(DecodeWide(text.value)), text.next))
  }

  /** The 16-bit padded length is the untruncated one below 0xFFFE and 2 for
      the two lengths that wrap; either way it completes a dword. */
  lemma PaddedLengthAsWrittenCases(len: U16)
    ensures len <= 0xFFFD ==> PaddedLengthAsWritten(len) == PaddedLength(len)
    ensures len >= 0xFFFE ==> PaddedLengthAsWritten(len) == 2
    ensures (PaddedLengthAsWritten(len) + 2) % 4 == 0
  {
    if len <= 0xFFFD {
      PaddedLengthAsWrittenAgrees(len);
    } else {
      PaddedLengthWraps(len);
    }
  }

  /** A string read consumes exactly NSTRING::GetSize(len) bytes, so whatever
      follows the name (a compressed header) is read from the right place;
      only the two wrapping lengths take 4 bytes instead. */
  lemma NStringConsumesGetSize(data: seq<Byte>, at: nat)
    requires NStringAt(data, at).Ok?
    ensures at + 2 <= |data|
    ensures var len := DecodeU16(data[at..at + 2]);
      && (len <= 0xFFFD ==> NStringAt(data, at).value.next == at + NStringSize(len))
      && (len >= 0xFFFE ==> NStringAt(data, at).value.next == at + 4)
    ensures NStringAt(data, at).value.next <= |data|
  {
    var len := DecodeU16(data[at..at + 2]);
    PaddedLengthIsNStringSize(len);
    PaddedLengthAsWrittenCases(len);
  }

  /** A string read succeeds exactly when its length is below 2046, or is one
      of the two lengths whose padding wraps to 2, and all its padded bytes are
      present; every other length is reported as overflow. */
  lemma NStringAcceptedIff(data: seq<Byte>, at: nat)
    requires at + 2 <= |data|
    ensures var len := DecodeU16(data[at..at + 2]);
      && (NStringAt(data, at).Ok? <==>
            (len < 2046 && at + NStringSize(len) <= |data|) || (len >= 0xFFFE && at + 4 <= |data|))
      && (NStringAt(data, at) == Err(StringOverflow) <==> 2046 <= len <= 0xFFFD)
  {
    var len := DecodeU16(data[at..at + 2]);
    PaddedLengthIsNStringSize(len);
    PaddedLengthOverflowIff(len);
    PaddedLengthAsWrittenCases(len);
  }

  /** The text stops at the first NUL of the padded bytes, so it is never longer
      than the padded length, and no longer than the declared length when the
      stored terminator is in place. */
  lemma NStringTextLength(data: seq<Byte>, at: nat)
    requires NStringAt(data, at).Ok?
    ensures at + 2 <= |data|
    ensures var len := DecodeU16(data[at..at + 2]);
      && |NStringAt(data, at).value.value| <= PaddedLengthAsWritten(len)
      && (at + 2 + len < |data| && data[at + 2 + len] == 0 ==> |NStringAt(data, at).value.value| <= len)
      && 0 as char !in NStringAt(data, at).value.value
  {
    var len := DecodeU16(data[at..at + 2]);
    if len != 0 {
      var text := data[at + 2..at + 2 + PaddedLengthAsWritten(len)];
      var u := UntilNul(text);
      PaddedLengthAsWrittenCases(len);
      if at + 2 + len < |data| && data[at + 2 + len] == 0 && len < |text| {
        assert text[len] == 0;
      }
      assert forall i :: 0 <= i < |u| ==> BytesToString(u)[i] as int == u[i] != 0;
    }
  }

  /** A wide string read consumes 2 + 2 * padded bytes. That is 2 modulo 4, so
      for a nonempty string it never equals WNSTRING::GetSize, which is a
      multiple of 4; an empty one takes 4 bytes, as GetSize(0) says. */
  lemma WNStringConsumption(data: seq<Byte>, at: nat)
    requires WNStringAt(data, at).Ok?
    ensures at + 2 <= |data|
    ensures var len := DecodeU16(data[at..at + 2]);
      var used := WNStringAt(data, at).value.next - at;
      && (len == 0 ==> used == 4 == WNStringSize(0))
      && (len != 0 ==> used == 2 + 2 * PaddedLengthAsWritten(len) && used % 4 == 2 && used != WNStringSize(len))
  {
    var len := DecodeU16(data[at..at + 2]);
    PaddedLengthAsWrittenCases(len);
  }

  // ---------------------------------------------------------------------
  // Header
  // ---------------------------------------------------------------------

  /** Bytes of the header before its trailing description string. */
  const HeaderFixedSize := 784

  function U32Field(data: seq<Byte>, at: nat): U32
    requires at + 4 <= |data|
  {
    DecodeU32(data[at..at + 4])
  }

  /** The header fields in their order on disk, starting at offset 0. */
  function HeaderAt(data: seq<Byte>): (r: Result<Header, TankError>)
    ensures r.Ok? ==> |data| >= HeaderFixedSize
  {
    if |data| < HeaderFixedSize then Err(ReadFailed)
    else
      var desc :- WNStringAt(data, HeaderFixedSize);
      Ok(FixedHeader(data, desc.value))
  }

  /** The fixed-size fields at their offsets, with the given description. */
  function FixedHeader(data: seq<Byte>, desc: seq<U16>): Header
    requires |data| >= HeaderFixedSize
  {
    Header(
      FourCCFromBytes(data[0..4]), FourCCFromBytes(data[4..8]),
      U32Field(data, 8), U32Field(data, 12), U32Field(data, 16), U32Field(data, 20), U32Field(data, 24),
      data[28..40], data[40..52], U32Field(data, 52), U32Field(data, 56),
      FourCCFromBytes(data[60..64]), data[64..80], U32Field(data, 80), U32Field(data, 84),
      data[88..104], data[104..304], data[304..504], data[504..704], data[704..784],
      desc)
  }

  /** The two fatal checks; the creator id and version only warn. */
  function ValidateHeader(h: Header): (r: Result<Header, TankError>)
  {
    if FourCCNotEqual(h.productId, ProductId) then Err(BadProductId)
    else if FourCCNotEqual(h.tankId, TankId) then Err(BadTankId)
    else Ok(h)
  }

  function CheckedHeaderAt(data: seq<Byte>): Result<Header, TankError>
  {
    var h :- HeaderAt(data);
    ValidateHeader(h)
  }

  /** A header is accepted exactly when the archive starts with 'DSig' 'Tank',
      is long enough for the fixed part, and holds a readable description. */
  lemma HeaderAcceptedIff(data: seq<Byte>)
    ensures CheckedHeaderAt(data).Ok? <==>
      && |data| >= HeaderFixedSize
      && data[0..4] == [0x44, 0x53, 0x69, 0x67]
      && data[4..8] == [0x54, 0x61, 0x6E, 0x6B]
      && WNStringAt(data, HeaderFixedSize).Ok?
    ensures CheckedHeaderAt(data).Ok? ==> CheckedHeaderAt(data).value.dirsetOffset == DecodeU32(data[12..16])
    ensures CheckedHeaderAt(data).Ok? ==> CheckedHeaderAt(data).value.filesetOffset == DecodeU32(data[16..20])
  {
    if |data| >= HeaderFixedSize && WNStringAt(data, HeaderFixedSize).Ok? {
      var h := HeaderAt(data).value;
      FourCCEqualIsIdentity(h.productId, ProductId);
      FourCCEqualIsIdentity(h.tankId, TankId);
      assert h.productId == ProductId <==> data[0..4] == [0x44, 0x53, 0x69, 0x67];
      assert h.tankId == TankId <==> data[4..8] == [0x54, 0x61, 0x6E, 0x6B];
    }
  }

  // ---------------------------------------------------------------------
  // TankFile
  // ---------------------------------------------------------------------

  class TankFile {
    /** file.is_open() */
    var isOpen: bool
    var fileName: string
    /** fileOpenMode: the model only opens for reading, so the mode is either
        0 or in|binary. */
    var openForInput: bool
    var fileSizeBytes: nat
    var header: Header
    /** What the open file holds. */
    var contents: seq<Byte>
    /** The stream's read position and its good/fail state. */
    var pos: nat
    var good: bool

    constructor ()
      ensures !isOpen && fileName == [] && !openForInput && fileSizeBytes == 0
      ensures header == DefaultHeader && contents == [] && pos == 0 && good
    {
      isOpen, fileName, openForInput, fileSizeBytes := false, [], false, 0;
      header, contents, pos, good := DefaultHeader, [], 0, true;
    }

    predicate IsReadOnly()
      reads this
    {
      openForInput
    }

    predicate IsReadWrite()
      reads this
    {
      openForInput
    }

    /** How a read method's result and the new cursor follow from the read's
        function on the bytes: on success the value and the position after it;
        on failure an error, the function's own when the stream was good. */
    predicate ReadAs<T(==)>(good0: bool, s: Result<Parsed<T>, TankError>, r: Result<T, TankError>)
      reads this
    {
      if good0 && s.Ok? then r == Ok(s.value.value) && pos == s.value.next && good
      else r.Err? && (good0 ==> r.error == s.error)
    }

    /**
     * `disk` is what opening `filename` yields: the file's bytes, or None when
     * it cannot be opened. The header is read and validated right away; when
     * that fails the file stays open, as in the source.
     */
    method OpenForReading(filename: string, disk: Option<seq<Byte>>) returns (r: Result<(), TankError>)
      modifies this
      ensures old(isOpen) ==> r == Err(AlreadyOpen) && unchanged(this)
      ensures !old(isOpen) && filename == [] ==> r == Err(NoFilename) && unchanged(this)
      ensures !old(isOpen) && filename != [] && disk.None? ==> r == Err(OpenFailed) && unchanged(this)
      ensures !old(isOpen) && filename != [] && disk.Some? ==>
        && isOpen && openForInput && fileName == filename
        && contents == disk.value && fileSizeBytes == |disk.value|
        && (HeaderAt(contents).Ok? ==> header == HeaderAt(contents).value)
        && (r.Ok? <==> CheckedHeaderAt(contents).Ok?)
        && (r.Err? ==> r.error == CheckedHeaderAt(contents).error)
    {
      if isOpen {
        return Err(AlreadyOpen);
      }
      if filename == [] {
        return Err(NoFilename);
      }
      if disk.None? {
        return Err(OpenFailed);
      }
      isOpen, contents, pos, good := true, disk.value, 0, true;
      fileName := filename;
      openForInput := true;
      fileSizeBytes := |contents|;
      r := ReadAndValidateHeader();
    }

    method Close()
      modifies this
      ensures !isOpen && fileSizeBytes == 0 && !openForInput && fileName == [] && header == DefaultHeader
      ensures contents == old(contents) && pos == old(pos) && good == old(good)
    {
      isOpen := false;
      fileSizeBytes := 0;
      openForInput := false;
      fileName := [];
      header := DefaultHeader;
    }

    /** Seeking only fails once an earlier read has failed. */
    method SeekAbsoluteOffset(offset: nat) returns (r: Result<(), TankError>)
      requires isOpen
      modifies this`pos
      ensures old(good) ==> r == Ok(()) && pos == offset
      ensures !old(good) ==> r == Err(SeekFailed)
    {
      if !good {
        return Err(SeekFailed);
      }
      pos := offset;
      r := Ok(());
    }

    /** A short read fails and leaves the stream failed. */
    method ReadBytes(n: nat) returns (r: Result<seq<Byte>, TankError>)
      requires isOpen
      modifies this`pos, this`good
      ensures ReadAs(old(good), BytesAt(contents, old(pos), n), r)
      ensures r.Ok? ==> r.value == contents[old(pos)..old(pos) + n]
      ensures r.Err? ==> r.error == ReadFailed && !good
    {
      if good && pos + n <= |contents| {
        r := Ok(contents[pos..pos + n]);
        pos := pos + n;
      } else {
        r := Err(ReadFailed);
        good := false;
      }
    }

    method ReadU16() returns (r: Result<U16, TankError>)
      requires isOpen
      modifies this`pos, this`good
      ensures ReadAs(old(good), U16At(contents, old(pos)), r)
    {
      var b :- ReadBytes(2);
      r := Ok(DecodeU16(b));
    }

    method ReadU32() returns (r: Result<U32, TankError>)
      requires isOpen
      modifies this`pos, this`good
      ensures ReadAs(old(good), U32At(contents, old(pos)), r)
    {
      var b :- ReadBytes(4);
      r := Ok(DecodeU32(b));
    }

    method ReadFileTime() returns (r: Result<FileTime, TankError>)
      requires isOpen
      modifies this`pos, this`good
      ensures ReadAs(old(good), FileTimeAt(contents, old(pos)), r)
    {
      var b :- ReadBytes(8);
      r := Ok(FileTime(DecodeU32(b[..4]), DecodeU32(b[4..])));
    }

    method ReadFourCC() returns (r: Result<FourCC, TankError>)
      requires isOpen
      modifies this`pos, this`good
      ensures old(good) && old(pos) + 4 <= |contents| ==>
        r == Ok(FourCCFromBytes(contents[old(pos)..old(pos) + 4])) && pos == old(pos) + 4 && good
      ensures !(old(good) && old(pos) + 4 <= |contents|) ==> r == Err(ReadFailed)
    {
      var b :- ReadBytes(4);
      r := Ok(FourCCFromBytes(b));
    }

    method ReadNString() returns (r: Result<string, TankError>)
      requires isOpen
      modifies this`pos, this`good
      ensures ReadAs(old(good), NStringAt(contents, old(pos)), r)
    {
      var len :- ReadU16();
      if len == 0 {
        var pad :- ReadU16();  // the unused word that completes the dword
        return Ok("");
      }
      var padded := PaddedLengthAsWritten(len);
      if padded >= UtilsCommon.MaxTempStringLen {
        return Err(StringOverflow);
      }
      var text :- ReadBytes(padded);
      r := Ok(BytesToString(UntilNul(text)));
    }

    method ReadWNString() returns (r: Result<seq<U16>, TankError>)
      requires isOpen
      modifies this`pos, this`good
      ensures ReadAs(old(good), WNStringAt(contents, old(pos)), r)
    {
      var len :- ReadU16();
      if len == 0 {
        var pad :- ReadU16();
        return Ok([]);
      }
      var padded := PaddedLengthAsWritten(len);
      if padded >= UtilsCommon.MaxTempStringLen {
        return Err(StringOverflow);
      }
      var text :- ReadBytes(2 * padded);
      r := Ok(WideUntilNul(DecodeWide(text)));
    }

    /** The identifiers, version and offsets: bytes 0 to 28. */
    method ReadHeaderBase() returns (r: Result<(), TankError>)
      requires isOpen && good && pos == 0
      modifies this`pos, this`good, this`header
      ensures r.Ok? ==> good && pos == 28 && |contents| >= 28 && header == old(header).(
        productId := FourCCFromBytes(contents[0..4]), tankId := FourCCFromBytes(contents[4..8]),
        headerVersion := U32Field(contents, 8), dirsetOffset := U32Field(contents, 12),
        filesetOffset := U32Field(contents, 16), indexSize := U32Field(contents, 20),
        dataOffset := U32Field(contents, 24))
      ensures r.Err? ==> r.error == ReadFailed && |contents| < 28
    {
      var productId :- ReadFourCC();
      header := header.(productId := productId);
      var tankId :- ReadFourCC();
      header := header.(tankId := tankId);
      var headerVersion :- ReadU32();
      header := header.(headerVersion := headerVersion);
      var dirsetOffset :- ReadU32();
      header := header.(dirsetOffset := dirsetOffset);
      var filesetOffset :- ReadU32();
      header := header.(filesetOffset := filesetOffset);
      var indexSize :- ReadU32();
      header := header.(indexSize := indexSize);
      var dataOffset :- ReadU32();
      header := header.(dataOffset := dataOffset);
      r := Ok(());
    }

    /** Versions, priority, flags, creator, GUID, checksums and build time:
        bytes 28 to 104. */
    method ReadHeaderExtra() returns (r: Result<(), TankError>)
      requires isOpen && good && pos == 28
      modifies this`pos, this`good, this`header
      ensures r.Ok? ==> good && pos == 104 && |contents| >= 104 && header == old(header).(
        productVersion := contents[28..40], minimumVersion := contents[40..52],
        priority := U32Field(contents, 52), flags := U32Field(contents, 56),
        creatorId := FourCCFromBytes(contents[60..64]), guid := contents[64..80],
        indexCrc32 := U32Field(contents, 80), dataCrc32 := U32Field(contents, 84),
        utcBuildTime := contents[88..104])
      ensures r.Err? ==> r.error == ReadFailed && |contents| < 104
    {
      var versions :- ReadHeaderVersions();
      r := ReadHeaderStamps();
    }

    /** Versions, priority, flags and creator: bytes 28 to 64. */
    method ReadHeaderVersions() returns (r: Result<(), TankError>)
      requires isOpen && good && pos == 28
      modifies this`pos, this`good, this`header
      ensures r.Ok? ==> good && pos == 64 && |contents| >= 64 && header == old(header).(
        productVersion := contents[28..40], minimumVersion := contents[40..52],
        priority := U32Field(contents, 52), flags := U32Field(contents, 56),
        creatorId := FourCCFromBytes(contents[60..64]))
      ensures r.Err? ==> r.error == ReadFailed && |contents| < 64
    {
      var productVersion :- ReadBytes(12);
      header := header.(productVersion := productVersion);
      var minimumVersion :- ReadBytes(12);
      header := header.(minimumVersion := minimumVersion);
      var priority :- ReadU32();
      header := header.(priority := priority);
      var flags :- ReadU32();
      header := header.(flags := flags);
      var creatorId :- ReadFourCC();
      header := header.(creatorId := creatorId);
      r := Ok(());
    }

    /** GUID, checksums and build time: bytes 64 to 104. */
    method ReadHeaderStamps() returns (r: Result<(), TankError>)
      requires isOpen && good && pos == 64
      modifies this`pos, this`good, this`header
      ensures r.Ok? ==> good && pos == 104 && |contents| >= 104 && header == old(header).(
        guid := contents[64..80], indexCrc32 := U32Field(contents, 80),
        dataCrc32 := U32Field(contents, 84), utcBuildTime := contents[88..104])
      ensures r.Err? ==> r.error == ReadFailed && |contents| < 104
    {
      var guid :- ReadBytes(16);
      header := header.(guid := guid);
      var indexCrc32 :- ReadU32();
      header := header.(indexCrc32 := indexCrc32);
      var dataCrc32 :- ReadU32();
      header := header.(dataCrc32 := dataCrc32);
      var utcBuildTime :- ReadBytes(16);
      header := header.(utcBuildTime := utcBuildTime);
      r := Ok(());
    }

    /** The four fixed-size UTF-16 texts: bytes 104 to 784. */
    method ReadHeaderTexts() returns (r: Result<(), TankError>)
      requires isOpen && good && pos == 104
      modifies this`pos, this`good, this`header
      ensures r.Ok? ==> good && pos == HeaderFixedSize && |contents| >= HeaderFixedSize && header == old(header).(
        copyrightText := contents[104..304], buildText := contents[304..504],
        titleText := contents[504..704], authorText := contents[704..784])
      ensures r.Err? ==> r.error == ReadFailed && |contents| < HeaderFixedSize
    {
      var copyrightText :- ReadBytes(200);
      header := header.(copyrightText := copyrightText);
      var buildText :- ReadBytes(200);
      header := header.(buildText := buildText);
      var titleText :- ReadBytes(200);
      header := header.(titleText := titleText);
      var authorText :- ReadBytes(80);
      header := header.(authorText := authorText);
      r := Ok(());
    }

    /** Every fixed-size field, in order: bytes 0 to 784. */
    method ReadHeaderFixed() returns (r: Result<(), TankError>)
      requires isOpen && good && pos == 0
      modifies this`pos, this`good, this`header
      ensures r.Ok? ==> good && pos == HeaderFixedSize && |contents| >= HeaderFixedSize
      ensures r.Ok? ==> header == FixedHeader(contents, old(header).descriptionText)
      ensures r.Err? ==> r.error == ReadFailed && |contents| < HeaderFixedSize
    {
      var base :- ReadHeaderBase();
      var extra :- ReadHeaderExtra();
      r := ReadHeaderTexts();
    }

    /** Reads the header field by field from the start of the file, then
        rejects a wrong product or tank id. */
    method ReadAndValidateHeader() returns (r: Result<(), TankError>)
      requires isOpen && good && pos == 0
      modifies this`pos, this`good, this`header
      ensures HeaderAt(contents).Ok? ==> header == HeaderAt(contents).value
      ensures r.Ok? <==> CheckedHeaderAt(contents).Ok?
      ensures r.Err? ==> r.error == CheckedHeaderAt(contents).error
    {
      var fixed :- ReadHeaderFixed();
      var descriptionText :- ReadWNString();
      header := header.(descriptionText := descriptionText);
      if FourCCNotEqual(header.productId, ProductId) {
        return Err(BadProductId);
      }
      if FourCCNotEqual(header.tankId, TankId) {
        return Err(BadTankId);
      }
      r := Ok(());
    }
  }
}
