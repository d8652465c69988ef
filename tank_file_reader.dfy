// TankFile::Reader: indexes an open Tank archive into a directory set, a
// file set and a path table, and extracts resources from it. Every method
// performs the source's reads on the TankFile stream and is proved to
// compute exactly the corresponding function of TankIndex.
module TankFileReader {
  import opened Wrappers
  import opened Bytes
  import opened TankFormat
  import opened TankFiles
  import opened TankIndex
  import UtilsCommon

  // ---------------------------------------------------------------------
  // Reads that do not touch the reader's own state
  // ---------------------------------------------------------------------

  /** `count` offsets, each checked against the sentinel and the archive
      size as soon as it is read. */
  method ReadOffsets(tank: TankFile, count: U32, base: U32, err: TankError) returns (r: Result<seq<U32>, TankError>)
    requires tank.isOpen && tank.good
    modifies tank`pos, tank`good
    ensures tank.ReadAs(true, OffsetsAt(tank.contents, old(tank.pos), count, base, tank.fileSizeBytes, err), r)
  {
    ghost var at := tank.pos;
    ghost var rs := OffsetResults(tank.contents, at, count, base, tank.fileSizeBytes, err);
    var offsets := [];
    var i := 0;
    while i < count
      invariant 0 <= i <= count
      invariant tank.good && tank.pos == at + 4 * i
      invariant Collect(rs, i) == Ok(offsets)
    {
      var off := tank.ReadU32();
      var checked := if off.Err? then Err(off.error)
                     else if ValidOffset(base, off.value, tank.fileSizeBytes) then Ok(off.value)
                     else Err(err);
      CollectNext(rs, count, i, offsets, checked);
      if checked.Err? {
        return Err(checked.error);
      }
      offsets := offsets + [checked.value];
      i := i + 1;
    }
    r := Ok(offsets);
  }

  /** One directory entry, read where the stream stands. */
  method ReadDirEntry(tank: TankFile, base: U32) returns (r: Result<DirEntry, TankError>)
    requires tank.isOpen && tank.good
    modifies tank`pos, tank`good
    ensures r == ValueOf(DirEntryAt(tank.contents, old(tank.pos), base, tank.fileSizeBytes))
    ensures r.Ok? ==> tank.good
  {
    var e :- ReadDirEntryHead(tank);
    if !ValidOffset(base, e.parentOffset, tank.fileSizeBytes) {
      return Err(InvalidDirParentOffset);
    }
    if e.parentOffset == 0 && e.name == [] {
      e := e.(name := "/");  // the root directory
    }
    var children :- ReadOffsets(tank, e.childCount, base, InvalidDirChildOffset);
    r := Ok(e.(childOffsets := children));
  }

  method ReadDirEntryHead(tank: TankFile) returns (r: Result<DirEntry, TankError>)
    requires tank.isOpen && tank.good
    modifies tank`pos, tank`good
    ensures tank.ReadAs(true, DirEntryHeadAt(tank.contents, old(tank.pos)), r)
  {
    var parent :- tank.ReadU32();
    var childCount :- tank.ReadU32();
    var fileTime :- tank.ReadFileTime();
    var name :- tank.ReadNString();
    r := Ok(DirEntry(parent, childCount, fileTime, name, []));
  }

  /** `count` chunk headers of four words each, in stored order. */
  method ReadChunkHeaders(tank: TankFile, count: nat) returns (r: Result<seq<ChunkHeader>, TankError>)
    requires tank.isOpen && tank.good
    modifies tank`pos, tank`good
    ensures tank.ReadAs(true, ChunkHeadersAt(tank.contents, old(tank.pos), count), r)
  {
    ghost var at := tank.pos;
    ghost var rs := ChunkHeaderResults(tank.contents, at, count);
    var headers := [];
    var c := 0;
    while c < count
      invariant 0 <= c <= count
      invariant tank.good && tank.pos == at + 16 * c
      invariant Collect(rs, c) == Ok(headers)
    {
      var header := ReadChunkHeader(tank);
      CollectNext(rs, count, c, headers, header);
      if header.Err? {
        return Err(header.error);
      }
      headers := headers + [header.value];
      c := c + 1;
    }
    r := Ok(headers);
  }

  method ReadChunkHeader(tank: TankFile) returns (r: Result<ChunkHeader, TankError>)
    requires tank.isOpen && tank.good
    modifies tank`pos, tank`good
    ensures r == ChunkHeaderAt(tank.contents, old(tank.pos))
    ensures r.Ok? ==> tank.good && tank.pos == old(tank.pos) + 16
  {
    var uncompressedSize :- tank.ReadU32();
    var compressedSize :- tank.ReadU32();
    var extraBytes :- tank.ReadU32();
    var offset :- tank.ReadU32();
    r := Ok(ChunkHeader(uncompressedSize, compressedSize, extraBytes, offset));
  }

  /** The compressed header that follows a compressed entry's name. */
  method ReadCompressedHeader(tank: TankFile, size: U32) returns (r: Result<CompressedHeader, TankError>)
    requires tank.isOpen && tank.good
    modifies tank`pos, tank`good
    ensures tank.ReadAs(true, CompressedHeaderAt(tank.contents, old(tank.pos), size), r)
  {
    var compressedSize :- tank.ReadU32();
    var chunkSize :- tank.ReadU32();
    var numChunks := NumChunks(size, chunkSize);
    var headers :- ReadChunkHeaders(tank, numChunks);
    r := Ok(CompressedHeader(compressedSize, chunkSize, numChunks, headers));
  }

  /** One file entry, read where the stream stands: the fixed fields and the
      name, then the compressed header of a compressed, non-empty file. */
  method ReadFileEntry(tank: TankFile, base: U32) returns (r: Result<FileEntry, TankError>)
    requires tank.isOpen && tank.good
    modifies tank`pos, tank`good
    ensures r == ValueOf(FileEntryAt(tank.contents, old(tank.pos), base, tank.fileSizeBytes))
    ensures r.Ok? ==> tank.good
  {
    var e :- ReadFileEntryHead(tank);
    if !ValidOffset(base, e.parentOffset, tank.fileSizeBytes) {
      return Err(InvalidFileParentOffset);
    }
    if IsDataFormatCompressed(e.format) && e.size != 0 {
      var header :- ReadCompressedHeader(tank, e.size);
      e := e.(compressedHeader := Some(header));
    }
    r := Ok(e);
  }

  method ReadFileEntryHead(tank: TankFile) returns (r: Result<FileEntry, TankError>)
    requires tank.isOpen && tank.good
    modifies tank`pos, tank`good
    ensures tank.ReadAs(true, FileEntryHeadAt(tank.contents, old(tank.pos)), r)
  {
    var parent :- tank.ReadU32();
    var size :- tank.ReadU32();
    var offset :- tank.ReadU32();
    var crc :- tank.ReadU32();
    var fileTime :- tank.ReadFileTime();
    var format :- tank.ReadU16();
    var flags :- tank.ReadU16();
    var name :- tank.ReadNString();
    r := Ok(FileEntry(parent, size, offset, crc, fileTime, format, flags, name, None));
  }

  // ---------------------------------------------------------------------
  // Paths
  // ---------------------------------------------------------------------

  /** buildPathRecursive: appends to `path` the chain of parent names of
      directory i, root first, each after a separator. */
  method AppendDirPath(ds: DirSet, i: nat, fuel: nat, path: string) returns (r: Result<string, TankError>)
    requires DirSetShaped(ds) && i < |ds.dirEntries|
    ensures DirPath(ds, i, fuel).Ok? ==> r == Ok(path + DirPath(ds, i, fuel).value)
    ensures DirPath(ds, i, fuel).Err? ==> r == Err(DirPath(ds, i, fuel).error)
    decreases fuel
  {
    var entry := ds.dirEntries[i];
    if entry.parentOffset == 0 {
      assert path + "" == path;
      return Ok(path);
    }
    var parent := FindOffset(ds.dirOffsets, entry.parentOffset);
    if parent.None? {
      return Err(OrphanDir);
    }
    if fuel == 0 {
      return Err(ParentCycle);
    }
    var full :- AppendDirPath(ds, parent.value, fuel - 1, path);
    ghost var p := DirPath(ds, parent.value, fuel - 1).value;
    assert full + "/" + entry.name == path + (p + "/" + entry.name);
    r := Ok(full + "/" + entry.name);
  }

  // ---------------------------------------------------------------------
  // The reader
  // ---------------------------------------------------------------------

  class Reader {
    var dirSet: Option<DirSet>
    var fileSet: Option<FileSet>
    var fileTable: map<string, TankEntry>

    /** The sets hold one entry per offset, and every table entry points at
        an entry of the set it names. */
    ghost predicate Valid()
      reads this
    {
      && (dirSet.Some? ==> DirSetShaped(dirSet.value))
      && (fileSet.Some? ==> FileSetShaped(fileSet.value))
      && forall k :: k in fileTable ==> match fileTable[k]
           case Dir(d) => dirSet.Some? && d < |dirSet.value.dirEntries|
           case File(f) => fileSet.Some? && f < |fileSet.value.fileEntries|
    }

    /** A reader that has indexed nothing. */
    constructor ()
      ensures Valid()
      ensures dirSet == None && fileSet == None && fileTable == map[]
    {
      dirSet, fileSet, fileTable := None, None, map[];
    }

    /** getDirectoryCount: 0 before indexing, else numDirs; every directory
        the table names is below it. */
    function DirectoryCount(): (n: nat)
      reads this
      requires Valid()
      ensures dirSet.None? ==> n == 0
      ensures dirSet.Some? ==> n == |dirSet.value.dirEntries|
      ensures forall k :: k in fileTable && fileTable[k].Dir? ==> fileTable[k].index < n
    {
      if dirSet.Some? then dirSet.value.numDirs else 0
    }

    /** getFileCount: 0 before indexing, else numFiles; every file the table
        names is below it. */
    function FileCount(): (n: nat)
      reads this
      requires Valid()
      ensures fileSet.None? ==> n == 0
      ensures fileSet.Some? ==> n == |fileSet.value.fileEntries|
      ensures forall k :: k in fileTable && fileTable[k].File? ==> fileTable[k].index < n
    {
      if fileSet.Some? then fileSet.value.numFiles else 0
    }

    /**
     * indexFile: fails on a tank that is not open for reading, leaving the
     * reader as it was; otherwise discards the previous index and reads the
     * DirSet and FileSet. On success the reader holds exactly the index the
     * archive's bytes describe.
     */
    method IndexFile(tank: TankFile) returns (r: Result<(), TankError>)
      requires Valid()
      modifies this, tank`pos, tank`good
      ensures Valid()
      ensures !tank.isOpen ==> r == Err(NotOpen) && unchanged(this) && unchanged(tank)
      ensures tank.isOpen && !(tank.IsReadWrite() || tank.IsReadOnly()) ==>
        r == Err(NotReadable) && unchanged(this) && unchanged(tank)
      ensures tank.isOpen && (tank.IsReadWrite() || tank.IsReadOnly()) ==>
        var ix := IndexAt(tank.contents, old(tank.good), tank.header, tank.fileSizeBytes);
        && (ix.Ok? ==> (&& r.Ok? && dirSet == Some(ix.value.dirSet) && fileSet == Some(ix.value.fileSet)
                        && fileTable == ix.value.table))
        && (ix.Err? ==> r == Err(ix.error))
    {
      if !tank.isOpen {
        return Err(NotOpen);
      }
      if !tank.IsReadWrite() && !tank.IsReadOnly() {
        return Err(NotReadable);
      }
      dirSet, fileSet, fileTable := None, None, map[];
      r := ReadDirSet(tank);
      if r.Err? {
        return;
      }
      r := ReadFileSet(tank);
    }

    /** readDirSet: the count at the DirSet offset, the offset table, every
        entry at base + its offset, then the directory paths. */
    method ReadDirSet(tank: TankFile) returns (r: Result<(), TankError>)
      requires tank.isOpen && Valid() && dirSet.None? && fileSet.None? && fileTable == map[]
      modifies this`dirSet, this`fileTable, tank`pos, tank`good
      ensures Valid() && fileSet.None?
      ensures !old(tank.good) ==> r == Err(SeekFailed)
      ensures old(tank.good) ==> match DirSetAt(tank.contents, tank.header, tank.fileSizeBytes)
        case Err(e) => r == Err(e)
        case Ok(ds) =>
          && dirSet == Some(ds)
          && (DirTable(ds).Ok? ==> r == Ok(()) && fileTable == DirTable(ds).value && tank.good)
          && (DirTable(ds).Err? ==> r == Err(DirTable(ds).error))
    {
      var base := tank.header.dirsetOffset;
      var sought :- tank.SeekAbsoluteOffset(base);
      var num :- tank.ReadU32();
      var offsets :- ReadOffsets(tank, num, base, InvalidDirOffset);
      var entries := ReadDirEntries(tank, base, offsets);
      if entries.Err? {
        return Err(entries.error);
      }
      dirSet := Some(DirSet(num, offsets, entries.value));
      r := BuildDirPaths();
    }

    /** The loop over the directory entries. */
    method ReadDirEntries(tank: TankFile, base: U32, offsets: seq<U32>) returns (r: Result<seq<DirEntry>, TankError>)
      requires tank.isOpen && tank.good
      modifies tank`pos, tank`good
      ensures r == Collect(DirEntryResults(tank.contents, base, offsets, tank.fileSizeBytes), |offsets|)
      ensures r.Ok? ==> tank.good
    {
      ghost var data, size := tank.contents, tank.fileSizeBytes;
      var entries := [];
      var d := 0;
      while d < |offsets|
        invariant 0 <= d <= |offsets|
        invariant tank.good && tank.contents == data && tank.fileSizeBytes == size
        invariant Collect(DirEntryResults(data, base, offsets, size), d) == Ok(entries)
      {
        var entry := SeekDirEntry(tank, base, offsets, d, data, size, entries);
        if entry.Err? {
          return Err(entry.error);
        }
        entries := entries + [entry.value];
        d := d + 1;
      }
      r := Ok(entries);
    }

    /** Entry d of the loop: a seek to base + offsets[d], then the entry,
        which extends the entries read so far or fails the whole loop. */
    static method SeekDirEntry(tank: TankFile, base: U32, offsets: seq<U32>, d: nat,
                               ghost data: seq<Byte>, ghost size: nat, ghost entries: seq<DirEntry>)
      returns (r: Result<DirEntry, TankError>)
      requires tank.isOpen && tank.good && d < |offsets|
      requires tank.contents == data && tank.fileSizeBytes == size
      requires Collect(DirEntryResults(data, base, offsets, size), d) == Ok(entries)
      modifies tank`pos, tank`good
      ensures r.Ok? ==> tank.good && Collect(DirEntryResults(data, base, offsets, size), d + 1) == Ok(entries + [r.value])
      ensures r.Err? ==> Collect(DirEntryResults(data, base, offsets, size), |offsets|) == Err(r.error)
    {
      var sought := tank.SeekAbsoluteOffset(Wrap32(base + offsets[d]));
      r := ReadDirEntry(tank, base);
      DirEntryResultAt(data, base, offsets, size, d);
      CollectNext(DirEntryResults(data, base, offsets, size), |offsets|, d, entries, r);
    }

    /** buildDirPaths: emplaces every directory's path plus "/" in turn. */
    method BuildDirPaths() returns (r: Result<(), TankError>)
      requires Valid() && dirSet.Some?
      modifies this`fileTable
      ensures Valid()
      ensures var keys := Collect(DirKeyResults(dirSet.value), |dirSet.value.dirEntries|);
        && (keys.Ok? ==> r == Ok(()) && fileTable == Emplaced(old(fileTable), keys.value, true))
        && (keys.Err? ==> r == Err(keys.error))
    {
      var ds := dirSet.value;
      ghost var keys: seq<string> := [];
      var d := 0;
      while d < ds.numDirs
        invariant 0 <= d <= ds.numDirs && Valid()
        invariant Collect(DirKeyResults(ds), d) == Ok(keys) && |keys| == d
        invariant fileTable == Emplaced(old(fileTable), keys, true)
      {
        var key := DirKeyStep(ds, d, keys);
        if key.Err? {
          return Err(key.error);
        }
        EmplacedStep(old(fileTable), keys, key.value, true);
        EmplaceEntry(key.value, Dir(d));
        keys := keys + [key.value];
        d := d + 1;
      }
      r := Ok(());
    }

    /** fileTable.emplace: adds the entry unless the key is already there. */
    method EmplaceEntry(key: string, entry: TankEntry)
      requires Valid()
      requires entry.Dir? ==> dirSet.Some? && entry.index < |dirSet.value.dirEntries|
      requires entry.File? ==> fileSet.Some? && entry.index < |fileSet.value.fileEntries|
      modifies this`fileTable
      ensures Valid()
      ensures fileTable == Emplace(old(fileTable), key, entry)
    {
      if key !in fileTable {
        fileTable := fileTable[key := entry];
      }
    }

    /** One step of buildDirPaths: directory d's path plus "/", which extends
        the keys so far or fails the whole loop. */
    static method DirKeyStep(ds: DirSet, d: nat, ghost keys: seq<string>) returns (key: Result<string, TankError>)
      requires DirSetShaped(ds) && d < ds.numDirs
      requires Collect(DirKeyResults(ds), d) == Ok(keys)
      ensures key.Ok? ==> Collect(DirKeyResults(ds), d + 1) == Ok(keys + [key.value])
      ensures key.Err? ==> Collect(DirKeyResults(ds), ds.numDirs) == Err(key.error)
    {
      var path := AppendDirPath(ds, d, PathFuel(ds), "");
      key := if path.Ok? then Ok(path.value + "/") else Err(path.error);
      if path.Ok? {
        assert "" + DirPath(ds, d, PathFuel(ds)).value == DirPath(ds, d, PathFuel(ds)).value;
      }
      DirKeyResultAt(ds, ds.numDirs, d);
      CollectNext(DirKeyResults(ds), ds.numDirs, d, keys, key);
    }

    /** readFileSet: the count at the FileSet offset, the offset table, every
        entry at base + its offset, then the file paths. */
    method ReadFileSet(tank: TankFile) returns (r: Result<(), TankError>)
      requires tank.isOpen && Valid() && dirSet.Some? && fileSet.None?
      modifies this`fileSet, this`fileTable, tank`pos, tank`good
      ensures Valid()
      ensures !old(tank.good) ==> r == Err(SeekFailed)
      ensures old(tank.good) ==> match FileSetAt(tank.contents, tank.header, tank.fileSizeBytes)
        case Err(e) => r == Err(e)
        case Ok(fs) =>
          && fileSet == Some(fs)
          && (FileTable(dirSet.value, fs, old(fileTable)).Ok? ==> r == Ok(()) && fileTable == FileTable(dirSet.value, fs, old(fileTable)).value)
          && (FileTable(dirSet.value, fs, old(fileTable)).Err? ==> r == Err(FileTable(dirSet.value, fs, old(fileTable)).error))
    {
      var base := tank.header.filesetOffset;
      var sought :- tank.SeekAbsoluteOffset(base);
      var num :- tank.ReadU32();
      var offsets :- ReadOffsets(tank, num, base, InvalidFileOffset);
      var entries := ReadFileEntries(tank, base, offsets);
      if entries.Err? {
        return Err(entries.error);
      }
      ghost var rs := FileEntryResults(tank.contents, base, offsets, tank.fileSizeBytes);
      CollectValues(rs, num);
      fileSet := Some(FileSet(num, offsets, entries.value));
      r := BuildFilePaths();
    }

    /** The loop over the file entries. */
    method ReadFileEntries(tank: TankFile, base: U32, offsets: seq<U32>) returns (r: Result<seq<FileEntry>, TankError>)
      requires tank.isOpen && tank.good
      modifies tank`pos, tank`good
      ensures r == Collect(FileEntryResults(tank.contents, base, offsets, tank.fileSizeBytes), |offsets|)
    {
      ghost var data, size := tank.contents, tank.fileSizeBytes;
      var entries := [];
      var f := 0;
      while f < |offsets|
        invariant 0 <= f <= |offsets|
        invariant tank.good && tank.contents == data && tank.fileSizeBytes == size
        invariant Collect(FileEntryResults(data, base, offsets, size), f) == Ok(entries)
      {
        var entry := SeekFileEntry(tank, base, offsets, f, data, size, entries);
        if entry.Err? {
          return Err(entry.error);
        }
        entries := entries + [entry.value];
        f := f + 1;
      }
      r := Ok(entries);
    }

    /** Entry f of the loop: a seek to base + offsets[f], then the entry,
        which extends the entries read so far or fails the whole loop. */
    static method SeekFileEntry(tank: TankFile, base: U32, offsets: seq<U32>, f: nat,
                                ghost data: seq<Byte>, ghost size: nat, ghost entries: seq<FileEntry>)
      returns (r: Result<FileEntry, TankError>)
      requires tank.isOpen && tank.good && f < |offsets|
      requires tank.contents == data && tank.fileSizeBytes == size
      requires Collect(FileEntryResults(data, base, offsets, size), f) == Ok(entries)
      modifies tank`pos, tank`good
      ensures r.Ok? ==> tank.good && Collect(FileEntryResults(data, base, offsets, size), f + 1) == Ok(entries + [r.value])
      ensures r.Err? ==> Collect(FileEntryResults(data, base, offsets, size), |offsets|) == Err(r.error)
    {
      var sought := tank.SeekAbsoluteOffset(Wrap32(base + offsets[f]));
      r := ReadFileEntry(tank, base);
      FileEntryResultAt(data, base, offsets, size, f);
      CollectNext(FileEntryResults(data, base, offsets, size), |offsets|, f, entries, r);
    }

    /** buildFilePaths: emplaces every file under its parent directory's path,
        or under "/" when its parent offset is 0. */
    method BuildFilePaths() returns (r: Result<(), TankError>)
      requires Valid() && dirSet.Some? && fileSet.Some?
      modifies this`fileTable
      ensures Valid()
      ensures var keys := Collect(FileKeyResults(dirSet.value, fileSet.value), |fileSet.value.fileEntries|);
        && (keys.Ok? ==> r == Ok(()) && fileTable == Emplaced(old(fileTable), keys.value, false))
        && (keys.Err? ==> r == Err(keys.error))
    {
      var ds := dirSet.value;
      var fs := fileSet.value;
      ghost var keys: seq<string> := [];
      var f := 0;
      while f < fs.numFiles
        invariant 0 <= f <= fs.numFiles && Valid()
        invariant Collect(FileKeyResults(ds, fs), f) == Ok(keys) && |keys| == f
        invariant fileTable == Emplaced(old(fileTable), keys, false)
      {
        var key := FileKeyStep(ds, fs, f, keys);
        if key.Err? {
          return Err(key.error);
        }
        EmplacedStep(old(fileTable), keys, key.value, false);
        EmplaceEntry(key.value, File(f));
        keys := keys + [key.value];
        f := f + 1;
      }
      r := Ok(());
    }

    /** One step of buildFilePaths: file f's key, which extends the keys so
        far or fails the whole loop. */
    static method FileKeyStep(ds: DirSet, fs: FileSet, f: nat, ghost keys: seq<string>) returns (key: Result<string, TankError>)
      requires DirSetShaped(ds) && FileSetShaped(fs) && f < fs.numFiles
      requires Collect(FileKeyResults(ds, fs), f) == Ok(keys)
      ensures key.Ok? ==> Collect(FileKeyResults(ds, fs), f + 1) == Ok(keys + [key.value])
      ensures key.Err? ==> Collect(FileKeyResults(ds, fs), fs.numFiles) == Err(key.error)
    {
      key := FileKeyOf(ds, fs.fileEntries[f]);
      FileKeyResultAt(ds, fs.fileEntries, fs.numFiles, f);
      CollectNext(FileKeyResults(ds, fs), fs.numFiles, f, keys, key);
    }

    /** One step of buildFilePaths: the parent's path, when there is a
        parent, then a separator and the name. */
    static method FileKeyOf(ds: DirSet, entry: FileEntry) returns (r: Result<string, TankError>)
      requires DirSetShaped(ds)
      ensures r == FileKey(ds, entry)
    {
      var path := "";
      if entry.parentOffset != 0 {
        var parent := FindOffset(ds.dirOffsets, entry.parentOffset);
        if parent.None? {
          return Err(OrphanFile);
        }
        ghost var dirPath := DirPath(ds, parent.value, PathFuel(ds));
        if dirPath.Ok? {
          assert "" + dirPath.value == dirPath.value;
        }
        path :- AppendDirPath(ds, parent.value, PathFuel(ds), path);
      } else {
        assert path + "/" + entry.name == "/" + entry.name;
      }
      r := Ok(path + "/" + entry.name);
    }

    // -------------------------------------------------------------------
    // Extraction
    // -------------------------------------------------------------------

    /**
     * extractResourceToMemory: the tank must be open for reading and the
     * path must name a file of the table; the file's content is then
     * exactly ExtractAt of the archive's bytes.
     */
    method ExtractResourceToMemory(tank: TankFile, resourcePath: string, validate: bool,
                                   decompress: (seq<Byte>, nat) -> Decompressed) returns (r: Result<seq<Byte>, TankError>)
      requires Valid()
      modifies tank`pos, tank`good
      ensures !tank.isOpen ==> r == Err(NotOpen)
      ensures tank.isOpen && !(tank.IsReadWrite() || tank.IsReadOnly()) ==> r == Err(NotReadable)
      ensures tank.isOpen && (tank.IsReadWrite() || tank.IsReadOnly()) ==>
        if resourcePath !in fileTable then r == Err(ResourceNotFound)
        else match fileTable[resourcePath]
          case Dir(_) => r == Err(NotAFile)
          case File(f) => r == ExtractAt(tank.contents, old(tank.good), tank.header.dataOffset,
                                         fileSet.value.fileEntries[f], validate, decompress)
    {
      if !tank.isOpen {
        return Err(NotOpen);
      }
      if !tank.IsReadWrite() && !tank.IsReadOnly() {
        return Err(NotReadable);
      }
      if resourcePath !in fileTable {
        return Err(ResourceNotFound);
      }
      var entry := fileTable[resourcePath];
      if entry.Dir? {
        return Err(NotAFile);
      }
      var file := fileSet.value.fileEntries[entry.index];
      var content :- ReadContent(tank, file, decompress);
      if validate && content != [] {
        var crc := UtilsCommon.ComputeCrc32(content);
        if crc as int != file.crc32 {
          return Err(CrcMismatch);
        }
      }
      r := Ok(content);
    }

    /** The stored bytes of one file entry, before the CRC check. */
    static method ReadContent(tank: TankFile, file: FileEntry, decompress: (seq<Byte>, nat) -> Decompressed)
      returns (r: Result<seq<Byte>, TankError>)
      requires tank.isOpen && FileEntryShaped(file)
      modifies tank`pos, tank`good
      ensures r == ContentAt(tank.contents, old(tank.good), tank.header.dataOffset, file, decompress)
    {
      var dataOffset := tank.header.dataOffset;
      if !file.IsCompressed() {
        if file.size == 0 {
          return Ok([]);
        }
        var sought :- tank.SeekAbsoluteOffset(Wrap32(dataOffset + file.offset));
        r := tank.ReadBytes(file.size);
        return;
      }
      if file.compressedHeader.None? {
        return Err(MissingCompressedHeader);
      }
      var header := file.compressedHeader.value;
      if header.numChunks == 0 {
        return Ok([]);
      }
      if !tank.good {
        return Err(SeekFailed);
      }
      r := ReadChunks(tank, Wrap32(dataOffset + file.offset), header.chunkHeaders, decompress);
    }

    /** The chunk loop: each chunk's output appended in stored order. */
    static method ReadChunks(tank: TankFile, base: U32, chunks: seq<ChunkHeader>,
                             decompress: (seq<Byte>, nat) -> Decompressed) returns (r: Result<seq<Byte>, TankError>)
      requires tank.isOpen && tank.good
      modifies tank`pos, tank`good
      ensures r == ChunksAt(tank.contents, base, chunks, |chunks|, decompress)
    {
      var content := [];
      var c := 0;
      while c < |chunks|
        invariant 0 <= c <= |chunks|
        invariant tank.good
        invariant ChunksAt(tank.contents, base, chunks, c, decompress) == Ok(content)
      {
        var out := ReadChunk(tank, Wrap32(base + chunks[c].offset), chunks[c], decompress);
        if out.Err? {
          ChunkFailureIsFinal(tank.contents, base, chunks, c, content, decompress);
          return Err(out.error);
        }
        ChunksAtNext(tank.contents, base, chunks, c, content, decompress);
        content := content + out.value;
        c := c + 1;
      }
      r := Ok(content);
    }

    /** One chunk: seek, read, and for a compressed chunk decompress the
        compressed part and keep the extra bytes as stored. */
    static method ReadChunk(tank: TankFile, at: nat, chunk: ChunkHeader,
                            decompress: (seq<Byte>, nat) -> Decompressed) returns (r: Result<seq<Byte>, TankError>)
      requires tank.isOpen && tank.good
      modifies tank`pos, tank`good
      ensures r == ChunkAt(tank.contents, at, chunk, decompress)
      ensures r.Ok? ==> tank.good
    {
      var sought := tank.SeekAbsoluteOffset(at);
      if chunk.IsCompressed() {
        var stored :- tank.ReadBytes(Wrap32(chunk.compressedSize + chunk.extraBytes));
        if chunk.compressedSize + chunk.extraBytes >= 0x1_0000_0000 {
          return Err(ChunkSizeOverflow);
        }
        var d := decompress(stored[..chunk.compressedSize], Wrap32(chunk.uncompressedSize + chunk.extraBytes));
        if d.code != 0 {
          return Err(DecompressFailed(d.code));
        }
        r := Ok(d.output + stored[chunk.compressedSize..]);
      } else {
        r := tank.ReadBytes(chunk.uncompressedSize);
      }
    }

    // -------------------------------------------------------------------
    // Listings
    // -------------------------------------------------------------------

    /** getFileList: every file key of the table once, in no particular
        order, and no directory key. */
    method GetFileList() returns (list: seq<string>)
      ensures forall k :: k in list <==> k in fileTable && fileTable[k].File?
      ensures forall i, j :: 0 <= i < j < |list| ==> list[i] != list[j]
    {
      list := [];
      var rest := fileTable.Keys;
      while rest != {}
        invariant rest <= fileTable.Keys
        invariant forall k :: k in list <==> k in fileTable && k !in rest && fileTable[k].File?
        invariant forall i, j :: 0 <= i < j < |list| ==> list[i] != list[j]
        decreases |rest|
      {
        var key :| key in rest;
        if fileTable[key].File? {
          list := list + [key];
        }
        rest := rest - {key};
      }
    }

    /** getDirectoryList: every directory key of the table once, in no
        particular order, and no file key. */
    method GetDirectoryList() returns (list: seq<string>)
      ensures forall k :: k in list <==> k in fileTable && fileTable[k].Dir?
      ensures forall i, j :: 0 <= i < j < |list| ==> list[i] != list[j]
    {
      list := [];
      var rest := fileTable.Keys;
      while rest != {}
        invariant rest <= fileTable.Keys
        invariant forall k :: k in list <==> k in fileTable && k !in rest && fileTable[k].Dir?
        invariant forall i, j :: 0 <= i < j < |list| ==> list[i] != list[j]
        decreases |rest|
      {
        var key :| key in rest;
        if fileTable[key].Dir? {
          list := list + [key];
        }
        rest := rest - {key};
      }
    }
  }
}
