// What TankFile::Reader computes, as functions of the archive's bytes: the
// directory and file sets read from their offset tables, the path table
// built from them, and a resource's extracted contents. The Reader class
// in TankFileReader performs the same reads on the stream and is proved to
// produce exactly these values.
module TankIndex {
  import opened Wrappers
  import opened Bytes
  import opened HelperTypes
  import opened TankFormat
  import opened TankFiles
  import UtilsCommon

  // ---------------------------------------------------------------------
  // Reading a list of independent items
  // ---------------------------------------------------------------------

  /** The value of a read, without the position after it. */
  function ValueOf<T>(r: Result<Parsed<T>, TankError>): (v: Result<T, TankError>)
    ensures v.Ok? <==> r.Ok?
    ensures v.Ok? ==> v.value == r.value.value
    ensures v.Err? ==> v.error == r.error
  {
    if r.Ok? then Ok(r.value.value) else Err(r.error)
  }

  /**
   * The reader's loops read item 0, 1, ... in turn and stop at the first
   * failure. When each item's outcome does not depend on the others (each is
   * read at its own position), the loop's result is this fold over the
   * items' outcomes.
   */
  function Collect<T>(rs: seq<Result<T, TankError>>, n: nat): (r: Result<seq<T>, TankError>)
    requires n <= |rs|
    ensures r.Ok? ==> |r.value| == n
    decreases n
  {
    if n == 0 then Ok([])
    else
      var prev :- Collect(rs, n - 1);
      var x :- rs[n - 1];
      Ok(prev + [x])
  }

  /** A successful fold holds each item's value, in order. */
  lemma {:induction false} CollectValues<T>(rs: seq<Result<T, TankError>>, n: nat)
    requires n <= |rs| && Collect(rs, n).Ok?
    ensures forall i :: 0 <= i < n ==> rs[i] == Ok(Collect(rs, n).value[i])
    decreases n
  {
    if n > 0 {
      CollectValues(rs, n - 1);
    }
  }

  /** The fold succeeds exactly when every item does, and otherwise fails
      with the error of the first item that fails. */
  lemma {:induction false} CollectFirstFailure<T>(rs: seq<Result<T, TankError>>, n: nat)
    requires n <= |rs|
    ensures Collect(rs, n).Ok? <==> forall i :: 0 <= i < n ==> rs[i].Ok?
    ensures Collect(rs, n).Err? ==>
      exists i :: 0 <= i < n && rs[i].Err? && Collect(rs, n).error == rs[i].error && forall j :: 0 <= j < i ==> rs[j].Ok?
    decreases n
  {
    if n > 0 {
      CollectFirstFailure(rs, n - 1);
      if Collect(rs, n - 1).Ok? && rs[n - 1].Err? {
        assert forall j :: 0 <= j < n - 1 ==> rs[j].Ok?;
      }
    }
  }

  /** Once an item fails, reading more items fails the same way. */
  lemma {:induction false} CollectErrorPersists<T>(rs: seq<Result<T, TankError>>, k: nat, n: nat)
    requires k <= n <= |rs| && Collect(rs, k).Err?
    ensures Collect(rs, n).Err? && Collect(rs, n).error == Collect(rs, k).error
    decreases n
  {
    if k < n {
      CollectErrorPersists(rs, k, n - 1);
    }
  }

  /** One step of a reading loop: a successful item extends the fold, and a
      failed one is the outcome of the whole fold. */
  lemma CollectNext<T>(rs: seq<Result<T, TankError>>, n: nat, d: nat, acc: seq<T>, x: Result<T, TankError>)
    requires d < n <= |rs| && Collect(rs, d) == Ok(acc) && rs[d] == x
    ensures x.Ok? ==> Collect(rs, d + 1) == Ok(acc + [x.value])
    ensures x.Err? ==> Collect(rs, n) == Err(x.error)
  {
    if x.Err? {
      CollectErrorPersists(rs, d + 1, n);
    }
  }

  // ---------------------------------------------------------------------
  // Offset tables
  // ---------------------------------------------------------------------

  /** One offset read at `at`, rejected with `err` when it is the sentinel or
      points past the archive from `base`. */
  function OffsetAt(data: seq<Byte>, at: nat, base: U32, fileSize: nat, err: TankError): (r: Result<U32, TankError>)
    ensures r.Ok? ==> at + 4 <= |data| && r.value == DecodeU32(data[at..at + 4]) && ValidOffset(base, r.value, fileSize)
    ensures at + 4 <= |data| ==> (r.Ok? <==> ValidOffset(base, DecodeU32(data[at..at + 4]), fileSize))
    ensures r.Err? ==> r.error == if at + 4 <= |data| then err else ReadFailed
  {
    var off :- U32At(data, at);
    if ValidOffset(base, off.value, fileSize) then Ok(off.value) else Err(err)
  }

  function OffsetResults(data: seq<Byte>, at: nat, count: nat, base: U32, fileSize: nat, err: TankError)
    : (rs: seq<Result<U32, TankError>>)
    ensures |rs| == count
  {
    seq(count, i requires 0 <= i < count => OffsetAt(data, at + 4 * i, base, fileSize, err))
  }

  /** `count` offsets from `at`, each read and checked in turn, so an early
      bad offset wins over a later short read. */
  function OffsetsAt(data: seq<Byte>, at: nat, count: nat, base: U32, fileSize: nat, err: TankError)
    : (r: Result<Parsed<seq<U32>>, TankError>)
  {
    var offsets :- Collect(OffsetResults(data, at, count, base, fileSize, err), count);
    Ok(Parsed(offsets, at + 4 * count))
  }

  /** Every offset of an accepted table is read from its own four bytes and
      is usable. */
  lemma OffsetsAccepted(data: seq<Byte>, at: nat, count: nat, base: U32, fileSize: nat, err: TankError)
    ensures var r := OffsetsAt(data, at, count, base, fileSize, err);
      r.Ok? ==> (&& |r.value.value| == count && r.value.next == at + 4 * count
        && forall i :: 0 <= i < count ==>
             (&& at + 4 * i + 4 <= |data|
              && r.value.value[i] == DecodeU32(data[at + 4 * i..at + 4 * i + 4])
              && ValidOffset(base, r.value.value[i], fileSize)))
  {
    var rs := OffsetResults(data, at, count, base, fileSize, err);
    if Collect(rs, count).Ok? {
      CollectValues(rs, count);
      forall i | 0 <= i < count
        ensures at + 4 * i + 4 <= |data|
      {
        assert rs[i].Ok?;
      }
    }
  }

  /** With the bytes present, a table is accepted exactly when all its offsets
      are usable, and otherwise rejected with `err`. */
  lemma OffsetsCheckedIff(data: seq<Byte>, at: nat, count: nat, base: U32, fileSize: nat, err: TankError)
    requires at + 4 * count <= |data|
    ensures OffsetsAt(data, at, count, base, fileSize, err).Ok? <==>
      forall i :: 0 <= i < count ==> ValidOffset(base, DecodeU32(data[at + 4 * i..at + 4 * i + 4]), fileSize)
    ensures OffsetsAt(data, at, count, base, fileSize, err).Err? ==>
      OffsetsAt(data, at, count, base, fileSize, err).error == err
  {
    var rs := OffsetResults(data, at, count, base, fileSize, err);
    CollectFirstFailure(rs, count);
    forall i | 0 <= i < count
      ensures at + 4 * i + 4 <= |data|
      ensures rs[i].Ok? <==> ValidOffset(base, DecodeU32(data[at + 4 * i..at + 4 * i + 4]), fileSize)
      ensures rs[i].Err? ==> rs[i].error == err
    {
      assert at + 4 * i + 4 <= at + 4 * count;
    }
  }

  // ---------------------------------------------------------------------
  // DirSet
  // ---------------------------------------------------------------------

  /** The stored root entry has an empty name; it is shown as "/". */
  function EntryName(parentOffset: U32, name: string): string
  {
    if parentOffset == 0 && name == [] then "/" else name
  }

  /**
   * One DirEntry at `at`: parent offset, child count, file time and name, then
   * the parent check, then the child offsets. Offsets are relative to the
   * DirSet base.
   */
  function DirEntryAt(data: seq<Byte>, at: nat, base: U32, fileSize: nat): (r: Result<Parsed<DirEntry>, TankError>)
  {
    var head :- DirEntryHeadAt(data, at);
    var e := head.value;
    if !ValidOffset(base, e.parentOffset, fileSize) then Err(InvalidDirParentOffset)
    else
      var children :- OffsetsAt(data, head.next, e.childCount, base, fileSize, InvalidDirChildOffset);
      Ok(Parsed(e.(name := EntryName(e.parentOffset, e.name), childOffsets := children.value), children.next))
  }

  /** The fixed part of a DirEntry: parent offset, child count, file time and
      the stored name, with no children yet. */
  function DirEntryHeadAt(data: seq<Byte>, at: nat): (r: Result<Parsed<DirEntry>, TankError>)
    ensures r.Ok? ==> r.value.value.childOffsets == []
  {
    var parent :- U32At(data, at);
    var childCount :- U32At(data, parent.next);
    var fileTime :- FileTimeAt(data, childCount.next);
    var name :- NStringAt(data, fileTime.next);
    Ok(Parsed(DirEntry(parent.value, childCount.value, fileTime.value, name.value, []), name.next))
  }

  /** An accepted entry has a usable parent offset and one usable child
      offset per child, and only the root may have an empty stored name, which
      is then shown as "/". */
  lemma DirEntryAccepted(data: seq<Byte>, at: nat, base: U32, fileSize: nat)
    requires DirEntryAt(data, at, base, fileSize).Ok?
    ensures var e := DirEntryAt(data, at, base, fileSize).value.value;
      && ValidOffset(base, e.parentOffset, fileSize)
      && |e.childOffsets| == e.childCount
      && (forall c :: 0 <= c < |e.childOffsets| ==> ValidOffset(base, e.childOffsets[c], fileSize))
      && (e.IsRoot() ==> e.name != [])
  {
    var head := DirEntryHeadAt(data, at).value;
    OffsetsAccepted(data, head.next, head.value.childCount, base, fileSize, InvalidDirChildOffset);
  }

  /** The root entry, stored with parent offset 0 and no name, is named "/". */
  lemma RootEntryNamed(data: seq<Byte>, at: nat, base: U32, fileSize: nat)
    requires DirEntryAt(data, at, base, fileSize).Ok?
    requires DecodeU32(data[at..at + 4]) == 0
    requires NStringAt(data, at + 16).Ok? && NStringAt(data, at + 16).value.value == []
    ensures DirEntryAt(data, at, base, fileSize).value.value.name == "/"
  {
  }

  /** Entry d is read at base + offsets[d], summed in 32 bits. */
  function DirEntryResults(data: seq<Byte>, base: U32, offsets: seq<U32>, fileSize: nat)
    : (rs: seq<Result<DirEntry, TankError>>)
    ensures |rs| == |offsets|
    decreases |offsets|
  {
    if offsets == [] then []
    else
      DirEntryResults(data, base, offsets[..|offsets| - 1], fileSize)
        + [ValueOf(DirEntryAt(data, Wrap32(base + offsets[|offsets| - 1]), base, fileSize))]
  }

  /** Entry d of the loop is the entry at base + offsets[d]. */
  lemma {:induction false} DirEntryResultAt(data: seq<Byte>, base: U32, offsets: seq<U32>, fileSize: nat, d: nat)
    requires d < |offsets|
    ensures DirEntryResults(data, base, offsets, fileSize)[d]
         == ValueOf(DirEntryAt(data, Wrap32(base + offsets[d]), base, fileSize))
    decreases |offsets|
  {
    var pre := offsets[..|offsets| - 1];
    var last := ValueOf(DirEntryAt(data, Wrap32(base + offsets[|offsets| - 1]), base, fileSize));
    var rs := DirEntryResults(data, base, pre, fileSize);
    assert DirEntryResults(data, base, offsets, fileSize) == rs + [last];
    if d < |offsets| - 1 {
      DirEntryResultAt(data, base, pre, fileSize, d);
      assert pre[d] == offsets[d];
      assert (rs + [last])[d] == rs[d];
    }
  }

  /** A DirSet as the reader holds it: one offset and one entry per directory. */
  predicate DirSetShaped(ds: DirSet)
  {
    |ds.dirOffsets| == ds.numDirs && |ds.dirEntries| == ds.numDirs
  }

  /** readDirSet: the count at the DirSet offset, the offset table, the entries. */
  function DirSetAt(data: seq<Byte>, header: Header, fileSize: nat): (r: Result<DirSet, TankError>)
    ensures r.Ok? ==> DirSetShaped(r.value)
  {
    var num :- U32At(data, header.dirsetOffset);
    var offsets :- OffsetsAt(data, num.next, num.value, header.dirsetOffset, fileSize, InvalidDirOffset);
    var entries :- Collect(DirEntryResults(data, header.dirsetOffset, offsets.value, fileSize), num.value);
    Ok(DirSet(num.value, offsets.value, entries))
  }

  // ---------------------------------------------------------------------
  // FileSet
  // ---------------------------------------------------------------------

  /** One chunk header: four u32 words. */
  function ChunkHeaderAt(data: seq<Byte>, at: nat): (r: Result<ChunkHeader, TankError>)
    ensures r.Ok? <==> at + 16 <= |data|
    ensures r.Err? ==> r.error == ReadFailed
  {
    var u :- U32At(data, at);
    var c :- U32At(data, u.next);
    var e :- U32At(data, c.next);
    var o :- U32At(data, e.next);
    Ok(ChunkHeader(u.value, c.value, e.value, o.value))
  }

  function ChunkHeaderResults(data: seq<Byte>, at: nat, count: nat): (rs: seq<Result<ChunkHeader, TankError>>)
    ensures |rs| == count
  {
    seq(count, c requires 0 <= c < count => ChunkHeaderAt(data, at + 16 * c))
  }

  /** `count` chunk headers, kept in stored order. */
  function ChunkHeadersAt(data: seq<Byte>, at: nat, count: nat): (r: Result<Parsed<seq<ChunkHeader>>, TankError>)
    ensures r.Ok? ==> |r.value.value| == count && r.value.next == at + 16 * count
  {
    var headers :- Collect(ChunkHeaderResults(data, at, count), count);
    Ok(Parsed(headers, at + 16 * count))
  }

  /** The header read fails, with ReadFailed, exactly when the bytes run out. */
  lemma ChunkHeadersOutcome(data: seq<Byte>, at: nat, count: nat)
    ensures ChunkHeadersAt(data, at, count).Ok? <==> count == 0 || at + 16 * count <= |data|
    ensures ChunkHeadersAt(data, at, count).Err? ==> ChunkHeadersAt(data, at, count).error == ReadFailed
  {
    var rs := ChunkHeaderResults(data, at, count);
    CollectFirstFailure(rs, count);
    if Collect(rs, count).Ok? {
      if count > 0 {
        assert rs[count - 1].Ok?;
      }
    } else {
      var i :| 0 <= i < count && rs[i].Err?;
    }
  }

  /** Header c is decoded from the c-th 16 bytes. */
  lemma ChunkHeadersValues(data: seq<Byte>, at: nat, count: nat)
    ensures var r := ChunkHeadersAt(data, at, count);
      r.Ok? ==> forall c :: 0 <= c < count ==> var p := at + 16 * c;
        r.value.value[c] == ChunkHeader(DecodeU32(data[p..p + 4]), DecodeU32(data[p + 4..p + 8]),
          DecodeU32(data[p + 8..p + 12]), DecodeU32(data[p + 12..p + 16]))
  {
    var rs := ChunkHeaderResults(data, at, count);
    if Collect(rs, count).Ok? {
      CollectValues(rs, count);
    }
  }

  /** Exactly `count` headers are read, 16 bytes each, header c from the c-th
      16 bytes; the read fails only when the bytes run out. */
  lemma ChunkHeadersRead(data: seq<Byte>, at: nat, count: nat)
    ensures ChunkHeadersAt(data, at, count).Ok? <==> count == 0 || at + 16 * count <= |data|
    ensures ChunkHeadersAt(data, at, count).Err? ==> ChunkHeadersAt(data, at, count).error == ReadFailed
    ensures var r := ChunkHeadersAt(data, at, count);
      r.Ok? ==> forall c :: 0 <= c < count ==> var p := at + 16 * c;
        r.value.value[c] == ChunkHeader(DecodeU32(data[p..p + 4]), DecodeU32(data[p + 4..p + 8]),
          DecodeU32(data[p + 8..p + 12]), DecodeU32(data[p + 12..p + 16]))
  {
    ChunkHeadersOutcome(data, at, count);
    ChunkHeadersValues(data, at, count);
  }

  /** A compressed entry's header follows its name: compressed size, chunk
      size, then ceil(size / chunkSize) chunk headers. */
  function CompressedHeaderAt(data: seq<Byte>, at: nat, size: U32): (r: Result<Parsed<CompressedHeader>, TankError>)
    ensures r.Ok? ==> var h := r.value.value;
      h.numChunks == NumChunks(size, h.chunkSize) && |h.chunkHeaders| == h.numChunks
    ensures r.Err? ==> r.error == ReadFailed
  {
    var compressedSize :- U32At(data, at);
    var chunkSize :- U32At(data, compressedSize.next);
    var numChunks := NumChunks(size, chunkSize.value);
    ChunkHeadersRead(data, chunkSize.next, numChunks);
    var headers :- ChunkHeadersAt(data, chunkSize.next, numChunks);
    Ok(Parsed(CompressedHeader(compressedSize.value, chunkSize.value, numChunks, headers.value), headers.next))
  }

  /** A FileEntry carries a compressed header exactly when it is compressed
      and not empty, with one chunk header per chunk. */
  predicate FileEntryShaped(f: FileEntry)
  {
    && (f.compressedHeader.Some? <==> f.IsCompressed() && f.size != 0)
    && (f.compressedHeader.Some? ==> |f.compressedHeader.value.chunkHeaders| == f.compressedHeader.value.numChunks)
  }

  /**
   * One FileEntry at `at`: parent, size, data offset, CRC, file time, format,
   * flags and name; then the parent check (against the FileSet base, as the
   * source does); then the compressed header of a compressed, non-empty file.
   */
  function FileEntryAt(data: seq<Byte>, at: nat, base: U32, fileSize: nat): (r: Result<Parsed<FileEntry>, TankError>)
    ensures r.Ok? ==> FileEntryShaped(r.value.value) && ValidOffset(base, r.value.value.parentOffset, fileSize)
    ensures r.Err? ==> r.error in {ReadFailed, StringOverflow, InvalidFileParentOffset}
  {
    var head :- FileEntryHeadAt(data, at);
    var e := head.value;
    if !ValidOffset(base, e.parentOffset, fileSize) then Err(InvalidFileParentOffset)
    else if IsDataFormatCompressed(e.format) && e.size != 0 then
      var header :- CompressedHeaderAt(data, head.next, e.size);
      Ok(Parsed(e.(compressedHeader := Some(header.value)), header.next))
    else
      Ok(head)
  }

  /** The fixed part of a FileEntry: parent, size, data offset, CRC, file
      time, format, flags and name, with no compressed header yet. */
  function FileEntryHeadAt(data: seq<Byte>, at: nat): (r: Result<Parsed<FileEntry>, TankError>)
    ensures r.Ok? ==> r.value.value.compressedHeader.None?
    ensures r.Err? ==> r.error in {ReadFailed, StringOverflow}
  {
    var parent :- U32At(data, at);
    var size :- U32At(data, parent.next);
    var offset :- U32At(data, size.next);
    var crc :- U32At(data, offset.next);
    var fileTime :- FileTimeAt(data, crc.next);
    var format :- U16At(data, fileTime.next);
    var flags :- U16At(data, format.next);
    var name :- NStringAt(data, flags.next);
    Ok(Parsed(FileEntry(parent.value, size.value, offset.value, crc.value, fileTime.value,
      format.value, flags.value, name.value, None), name.next))
  }

  function FileEntryResults(data: seq<Byte>, base: U32, offsets: seq<U32>, fileSize: nat)
    : (rs: seq<Result<FileEntry, TankError>>)
    ensures |rs| == |offsets|
    ensures forall f :: 0 <= f < |rs| && rs[f].Ok? ==> FileEntryShaped(rs[f].value)
    decreases |offsets|
  {
    if offsets == [] then []
    else
      FileEntryResults(data, base, offsets[..|offsets| - 1], fileSize)
        + [ValueOf(FileEntryAt(data, Wrap32(base + offsets[|offsets| - 1]), base, fileSize))]
  }

  /** Entry f of the loop is the entry at base + offsets[f]. */
  lemma {:induction false} FileEntryResultAt(data: seq<Byte>, base: U32, offsets: seq<U32>, fileSize: nat, f: nat)
    requires f < |offsets|
    ensures FileEntryResults(data, base, offsets, fileSize)[f]
         == ValueOf(FileEntryAt(data, Wrap32(base + offsets[f]), base, fileSize))
    decreases |offsets|
  {
    var pre := offsets[..|offsets| - 1];
    var last := ValueOf(FileEntryAt(data, Wrap32(base + offsets[|offsets| - 1]), base, fileSize));
    var rs := FileEntryResults(data, base, pre, fileSize);
    assert FileEntryResults(data, base, offsets, fileSize) == rs + [last];
    if f < |offsets| - 1 {
      FileEntryResultAt(data, base, pre, fileSize, f);
      assert pre[f] == offsets[f];
      assert (rs + [last])[f] == rs[f];
    }
  }

  predicate FileSetShaped(fs: FileSet)
  {
    && |fs.fileOffsets| == fs.numFiles && |fs.fileEntries| == fs.numFiles
    && forall f :: 0 <= f < |fs.fileEntries| ==> FileEntryShaped(fs.fileEntries[f])
  }

  /** readFileSet: the count at the FileSet offset, the offset table, the entries. */
  function FileSetAt(data: seq<Byte>, header: Header, fileSize: nat): (r: Result<FileSet, TankError>)
    ensures r.Ok? ==> FileSetShaped(r.value)
  {
    var num :- U32At(data, header.filesetOffset);
    var offsets :- OffsetsAt(data, num.next, num.value, header.filesetOffset, fileSize, InvalidFileOffset);
    var rs := FileEntryResults(data, header.filesetOffset, offsets.value, fileSize);
    var entries :- Collect(rs, num.value);
    CollectValues(rs, num.value);
    Ok(FileSet(num.value, offsets.value, entries))
  }

  // ---------------------------------------------------------------------
  // Paths
  // ---------------------------------------------------------------------

  /** std::find over the offset table: the first index holding `value`. */
  function FindOffset(offsets: seq<U32>, value: U32): (r: Option<nat>)
    ensures r.None? <==> value !in offsets
    ensures r.Some? ==> r.value < |offsets| && offsets[r.value] == value && value !in offsets[..r.value]
  {
    if |offsets| == 0 then None
    else if offsets[0] == value then Some(0)
    else match FindOffset(offsets[1..], value)
      case None => None
      case Some(i) =>
        assert offsets[..i + 1] == [offsets[0]] + offsets[1..][..i];
        Some(i + 1)
  }

  /**
   * buildPathRecursive: "" for an entry whose parent offset is 0, otherwise
   * the parent's path, "/" and the entry's name, the parent being the first
   * entry whose offset matches. The source recurses without bound; here a
   * chain of more than `fuel` parents reports ParentCycle.
   */
  function DirPath(ds: DirSet, i: nat, fuel: nat): (r: Result<string, TankError>)
    requires DirSetShaped(ds) && i < |ds.dirEntries|
    ensures ds.dirEntries[i].IsRoot() ==> r == Ok("")
    ensures !ds.dirEntries[i].IsRoot() && ds.dirEntries[i].parentOffset !in ds.dirOffsets ==> r == Err(OrphanDir)
    ensures r.Ok? && !ds.dirEntries[i].IsRoot() ==> |r.value| > 0 && r.value[0] == '/'
    ensures r.Err? ==> r.error == OrphanDir || r.error == ParentCycle
    decreases fuel
  {
    var e := ds.dirEntries[i];
    if e.parentOffset == 0 then Ok("")
    else match FindOffset(ds.dirOffsets, e.parentOffset)
      case None => Err(OrphanDir)
      case Some(j) =>
        if fuel == 0 then Err(ParentCycle)
        else
          var parent :- DirPath(ds, j, fuel - 1);
          Ok(parent + "/" + e.name)
  }

  /** A path found with some depth budget is found the same with more. */
  lemma {:induction false} DirPathFuelMonotone(ds: DirSet, i: nat, fuel: nat)
    requires DirSetShaped(ds) && i < |ds.dirEntries| && DirPath(ds, i, fuel).Ok?
    ensures DirPath(ds, i, fuel + 1) == DirPath(ds, i, fuel)
    decreases fuel
  {
    var e := ds.dirEntries[i];
    if e.parentOffset != 0 {
      var j := FindOffset(ds.dirOffsets, e.parentOffset).value;
      DirPathFuelMonotone(ds, j, fuel - 1);
    }
  }

  /** The depth budget used for the table: one step per directory. */
  function PathFuel(ds: DirSet): nat
  {
    |ds.dirEntries|
  }

  /** buildDirPaths' key for directory i: its path and a trailing "/". */
  function DirKey(ds: DirSet, i: nat): (r: Result<string, TankError>)
    requires DirSetShaped(ds) && i < |ds.dirEntries|
    ensures r.Ok? ==> |r.value| > 0 && r.value[|r.value| - 1] == '/'
  {
    var path :- DirPath(ds, i, PathFuel(ds));
    Ok(path + "/")
  }

  /** Every entry with parent offset 0, the root among them, is keyed "/". */
  lemma RootKey(ds: DirSet, i: nat)
    requires DirSetShaped(ds) && i < |ds.dirEntries| && ds.dirEntries[i].IsRoot()
    ensures DirKey(ds, i) == Ok("/")
  {
    assert "" + "/" == "/";
  }

  /** A resolved directory's key is its parent's key, its name and "/". */
  lemma ChildKey(ds: DirSet, i: nat)
    requires DirSetShaped(ds) && i < |ds.dirEntries| && !ds.dirEntries[i].IsRoot()
    requires DirKey(ds, i).Ok?
    ensures FindOffset(ds.dirOffsets, ds.dirEntries[i].parentOffset).Some?
    ensures var j := FindOffset(ds.dirOffsets, ds.dirEntries[i].parentOffset).value;
      DirKey(ds, j).Ok? && DirKey(ds, i).value == DirKey(ds, j).value + ds.dirEntries[i].name + "/"
  {
    var j := FindOffset(ds.dirOffsets, ds.dirEntries[i].parentOffset).value;
    DirPathFuelMonotone(ds, j, PathFuel(ds) - 1);
  }

  /** buildFilePaths' key: under the parent directory's path, or "/" + name
      for a file whose parent offset is 0. */
  function FileKey(ds: DirSet, f: FileEntry): (r: Result<string, TankError>)
    requires DirSetShaped(ds)
    ensures f.parentOffset == 0 ==> r == Ok("/" + f.name)
    ensures f.parentOffset != 0 && f.parentOffset !in ds.dirOffsets ==> r == Err(OrphanFile)
    ensures r.Err? ==> r.error in {OrphanFile, OrphanDir, ParentCycle}
  {
    if f.parentOffset != 0 then
      match FindOffset(ds.dirOffsets, f.parentOffset)
      case None => Err(OrphanFile)
      case Some(j) =>
        var path :- DirPath(ds, j, PathFuel(ds));
        Ok(path + "/" + f.name)
    else Ok("/" + f.name)
  }

  /** A file's key is its parent directory's key followed by its name. */
  lemma FileKeyUnderParent(ds: DirSet, f: FileEntry)
    requires DirSetShaped(ds) && f.parentOffset != 0 && FileKey(ds, f).Ok?
    ensures FindOffset(ds.dirOffsets, f.parentOffset).Some?
    ensures var j := FindOffset(ds.dirOffsets, f.parentOffset).value;
      DirKey(ds, j).Ok? && FileKey(ds, f).value == DirKey(ds, j).value + f.name
  {
  }

  /** std::map::emplace: a key already present keeps its first value. */
  function Emplace(t: map<string, TankEntry>, key: string, v: TankEntry): map<string, TankEntry>
  {
    if key in t then t else t[key := v]
  }

  /** The table entry for the i-th directory or the i-th file. */
  function Tag(dirs: bool, i: nat): TankEntry
  {
    if dirs then Dir(i) else File(i)
  }

  /** `t0` after emplacing keys[i] -> Tag(dirs, i) for each i in order. */
  function Emplaced(t0: map<string, TankEntry>, keys: seq<string>, dirs: bool): map<string, TankEntry>
    decreases |keys|
  {
    if keys == [] then t0
    else Emplace(Emplaced(t0, keys[..|keys| - 1], dirs), keys[|keys| - 1], Tag(dirs, |keys| - 1))
  }

  /** One more emplace extends the fold by one key. */
  lemma EmplacedStep(t0: map<string, TankEntry>, keys: seq<string>, key: string, dirs: bool)
    ensures Emplaced(t0, keys + [key], dirs) == Emplace(Emplaced(t0, keys, dirs), key, Tag(dirs, |keys|))
  {
    assert (keys + [key])[..|keys|] == keys;
  }

  /** Emplacing in order keeps the entries of `t0` and adds exactly the keys. */
  lemma {:induction false} EmplacedDomain(t0: map<string, TankEntry>, keys: seq<string>, dirs: bool)
    ensures var t := Emplaced(t0, keys, dirs);
      && (forall i :: 0 <= i < |keys| ==> keys[i] in t)
      && (forall k :: k in t0 ==> k in t && t[k] == t0[k])
      && (forall k :: k in t ==> k in t0 || k in keys)
    decreases |keys|
  {
    if keys != [] {
      var pre := keys[..|keys| - 1];
      EmplacedDomain(t0, pre, dirs);
      assert forall i :: 0 <= i < |pre| ==> pre[i] == keys[i];
    }
  }

  /** A key that was not in `t0` maps to the first position holding it. */
  lemma {:induction false} EmplacedFirstIndex(t0: map<string, TankEntry>, keys: seq<string>, dirs: bool)
    ensures var t := Emplaced(t0, keys, dirs);
      forall k :: k in t && k !in t0 ==>
        t[k].index < |keys| && t[k] == Tag(dirs, t[k].index) && keys[t[k].index] == k && k !in keys[..t[k].index]
    decreases |keys|
  {
    if keys != [] {
      var pre := keys[..|keys| - 1];
      EmplacedFirstIndex(t0, pre, dirs);
      EmplacedDomain(t0, pre, dirs);
      var t := Emplaced(t0, keys, dirs);
      var tp := Emplaced(t0, pre, dirs);
      forall k | k in t && k !in t0
        ensures t[k].index < |keys| && t[k] == Tag(dirs, t[k].index) && keys[t[k].index] == k && k !in keys[..t[k].index]
      {
        if k in tp {
          assert keys[..tp[k].index] == pre[..tp[k].index];
        } else {
          assert keys[..|keys| - 1] == pre;
        }
      }
    }
  }

  /** Emplacing in order: every key ends up in the table, entries already in
      `t0` are kept, and a new key maps to the first position holding it. */
  lemma EmplacedFirstWins(t0: map<string, TankEntry>, keys: seq<string>, dirs: bool)
    ensures var t := Emplaced(t0, keys, dirs);
      && (forall i :: 0 <= i < |keys| ==> keys[i] in t)
      && (forall k :: k in t0 ==> k in t && t[k] == t0[k])
      && (forall k :: k in t && k !in t0 ==>
            t[k].index < |keys| && t[k] == Tag(dirs, t[k].index) && keys[t[k].index] == k && k !in keys[..t[k].index])
      && (forall k :: k in t ==> k in t0 || k in keys)
  {
    EmplacedDomain(t0, keys, dirs);
    EmplacedFirstIndex(t0, keys, dirs);
  }

  /** buildDirPaths computes the key of every directory in turn. */
  function DirKeyResults(ds: DirSet): (rs: seq<Result<string, TankError>>)
    requires DirSetShaped(ds)
    ensures |rs| == |ds.dirEntries|
  {
    DirKeysUpTo(ds, |ds.dirEntries|)
  }

  /** The keys of the first n directories. */
  function DirKeysUpTo(ds: DirSet, n: nat): (rs: seq<Result<string, TankError>>)
    requires DirSetShaped(ds) && n <= |ds.dirEntries|
    ensures |rs| == n
  {
    if n == 0 then [] else DirKeysUpTo(ds, n - 1) + [DirKey(ds, n - 1)]
  }

  /** Result d of buildDirPaths is the key of directory d. */
  lemma {:induction false} DirKeyResultAt(ds: DirSet, n: nat, d: nat)
    requires DirSetShaped(ds) && d < n <= |ds.dirEntries|
    ensures DirKeysUpTo(ds, n)[d] == DirKey(ds, d)
  {
    var rs := DirKeysUpTo(ds, n - 1);
    assert DirKeysUpTo(ds, n) == rs + [DirKey(ds, n - 1)];
    if d < n - 1 {
      DirKeyResultAt(ds, n - 1, d);
      assert (rs + [DirKey(ds, n - 1)])[d] == rs[d];
    }
  }

  /** The path table after buildDirPaths, starting from an empty table. */
  function DirTable(ds: DirSet): (r: Result<map<string, TankEntry>, TankError>)
    requires DirSetShaped(ds)
  {
    var keys :- Collect(DirKeyResults(ds), |ds.dirEntries|);
    Ok(Emplaced(map[], keys, true))
  }

  /** Every directory is in the table under its key; a key maps to the first
      directory that has it; nothing else is in the table. */
  lemma DirTableFirstWins(ds: DirSet)
    requires DirSetShaped(ds) && DirTable(ds).Ok?
    ensures Collect(DirKeyResults(ds), |ds.dirEntries|).Ok?
    ensures var keys := Collect(DirKeyResults(ds), |ds.dirEntries|).value; var t := DirTable(ds).value;
      && (forall d :: 0 <= d < |keys| ==> DirKeyResults(ds)[d] == Ok(keys[d]) && keys[d] in t)
      && (forall k :: k in t ==>
            t[k] == Dir(t[k].index) && t[k].index < |keys| && keys[t[k].index] == k && k !in keys[..t[k].index])
  {
    var keys := Collect(DirKeyResults(ds), |ds.dirEntries|).value;
    CollectValues(DirKeyResults(ds), |ds.dirEntries|);
    EmplacedFirstWins(map[], keys, true);
  }

  /** buildFilePaths computes the key of every file in turn. */
  function FileKeyResults(ds: DirSet, fs: FileSet): (rs: seq<Result<string, TankError>>)
    requires DirSetShaped(ds)
    ensures |rs| == |fs.fileEntries|
  {
    FileKeysUpTo(ds, fs.fileEntries, |fs.fileEntries|)
  }

  /** The keys of the first n files. */
  function FileKeysUpTo(ds: DirSet, files: seq<FileEntry>, n: nat): (rs: seq<Result<string, TankError>>)
    requires DirSetShaped(ds) && n <= |files|
    ensures |rs| == n
  {
    if n == 0 then [] else FileKeysUpTo(ds, files, n - 1) + [FileKey(ds, files[n - 1])]
  }

  /** Result f of buildFilePaths is the key of file f. */
  lemma {:induction false} FileKeyResultAt(ds: DirSet, files: seq<FileEntry>, n: nat, f: nat)
    requires DirSetShaped(ds) && f < n <= |files|
    ensures FileKeysUpTo(ds, files, n)[f] == FileKey(ds, files[f])
  {
    var rs := FileKeysUpTo(ds, files, n - 1);
    assert FileKeysUpTo(ds, files, n) == rs + [FileKey(ds, files[n - 1])];
    if f < n - 1 {
      FileKeyResultAt(ds, files, n - 1, f);
      assert (rs + [FileKey(ds, files[n - 1])])[f] == rs[f];
    }
  }

  /** The table after buildFilePaths has added every file to `t0`. */
  function FileTable(ds: DirSet, fs: FileSet, t0: map<string, TankEntry>): (r: Result<map<string, TankEntry>, TankError>)
    requires DirSetShaped(ds)
  {
    var keys :- Collect(FileKeyResults(ds, fs), |fs.fileEntries|);
    Ok(Emplaced(t0, keys, false))
  }

  /** Every file is in the table; entries already there (the directories)
      keep their values; a key a file adds maps to the first file with it. */
  lemma FileTableFirstWins(ds: DirSet, fs: FileSet, t0: map<string, TankEntry>)
    requires DirSetShaped(ds) && FileTable(ds, fs, t0).Ok?
    ensures Collect(FileKeyResults(ds, fs), |fs.fileEntries|).Ok?
    ensures var keys := Collect(FileKeyResults(ds, fs), |fs.fileEntries|).value; var t := FileTable(ds, fs, t0).value;
      && (forall f :: 0 <= f < |keys| ==> FileKeyResults(ds, fs)[f] == Ok(keys[f]) && keys[f] in t)
      && (forall k :: k in t0 ==> k in t && t[k] == t0[k])
      && (forall k :: k in t && k !in t0 ==>
            t[k] == File(t[k].index) && t[k].index < |keys| && keys[t[k].index] == k && k !in keys[..t[k].index])
  {
    var keys := Collect(FileKeyResults(ds, fs), |fs.fileEntries|).value;
    CollectValues(FileKeyResults(ds, fs), |fs.fileEntries|);
    EmplacedFirstWins(t0, keys, false);
  }

  // ---------------------------------------------------------------------
  // The whole index
  // ---------------------------------------------------------------------

  datatype Index = Index(dirSet: DirSet, fileSet: FileSet, table: map<string, TankEntry>)

  /** A table entry names an existing directory or file. */
  predicate TableInRange(ds: DirSet, fs: FileSet, t: map<string, TankEntry>)
  {
    forall k :: k in t ==> match t[k]
      case Dir(d) => d < |ds.dirEntries|
      case File(f) => f < |fs.fileEntries|
  }

  /**
   * indexFile on an archive already open for reading: the DirSet and its
   * paths, then the FileSet and its paths. The first seek fails when the
   * stream has failed before; later ones cannot, since any failed read ends
   * the indexing.
   */
  function IndexAt(data: seq<Byte>, good: bool, header: Header, fileSize: nat): (r: Result<Index, TankError>)
    ensures r.Ok? ==> DirSetShaped(r.value.dirSet) && FileSetShaped(r.value.fileSet)
    ensures !good ==> r == Err(SeekFailed)
  {
    if !good then Err(SeekFailed)
    else
      var ds :- DirSetAt(data, header, fileSize);
      var dirTable :- DirTable(ds);
      var fs :- FileSetAt(data, header, fileSize);
      var table :- FileTable(ds, fs, dirTable);
      Ok(Index(ds, fs, table))
  }

  /** Every key of the indexed table names an existing directory or file. */
  lemma IndexTableInRange(data: seq<Byte>, good: bool, header: Header, fileSize: nat)
    requires IndexAt(data, good, header, fileSize).Ok?
    ensures var ix := IndexAt(data, good, header, fileSize).value; TableInRange(ix.dirSet, ix.fileSet, ix.table)
  {
    var ix := IndexAt(data, good, header, fileSize).value;
    var dirTable := DirTable(ix.dirSet).value;
    DirTableFirstWins(ix.dirSet);
    FileTableFirstWins(ix.dirSet, ix.fileSet, dirTable);
  }

  // ---------------------------------------------------------------------
  // Extraction
  // ---------------------------------------------------------------------

  /** What utils::compression::decompress reports: an error code and the
      bytes it wrote. */
  datatype Decompressed = Decompressed(code: int, output: seq<Byte>)

  /** The decompressor never writes more than the capacity it is given. */
  ghost predicate DecompressorBounded(decompress: (seq<Byte>, nat) -> Decompressed)
  {
    forall src, cap :: |decompress(src, cap).output| <= cap
  }

  /**
   * One chunk read at `at`. A compressed chunk reads compressedSize +
   * extraBytes bytes (a 32-bit sum), decompresses the first compressedSize of
   * them into a buffer of uncompressedSize + extraBytes, and yields the
   * reported output followed by the extra bytes as stored. A stored chunk
   * yields its uncompressedSize bytes.
   */
  function ChunkAt(data: seq<Byte>, at: nat, chunk: ChunkHeader, decompress: (seq<Byte>, nat) -> Decompressed)
    : (r: Result<seq<Byte>, TankError>)
  {
    if chunk.IsCompressed() then
      var stored :- BytesAt(data, at, Wrap32(chunk.compressedSize + chunk.extraBytes));
      if chunk.compressedSize + chunk.extraBytes >= 0x1_0000_0000 then Err(ChunkSizeOverflow)
      else
        var d := decompress(stored.value[..chunk.compressedSize], Wrap32(chunk.uncompressedSize + chunk.extraBytes));
        if d.code != 0 then Err(DecompressFailed(d.code))
        else Ok(d.output + stored.value[chunk.compressedSize..])
    else
      var raw :- BytesAt(data, at, chunk.uncompressedSize);
      Ok(raw.value)
  }

  /** A chunk's output: for a compressed chunk, exactly what the decompressor
      reported followed by the extraBytes stored after the compressed data;
      for a stored one, exactly uncompressedSize bytes of the archive. */
  lemma ChunkShape(data: seq<Byte>, at: nat, chunk: ChunkHeader, decompress: (seq<Byte>, nat) -> Decompressed)
    requires ChunkAt(data, at, chunk, decompress).Ok?
    ensures var out := ChunkAt(data, at, chunk, decompress).value;
      if chunk.IsCompressed() then
        var c, e := chunk.compressedSize, chunk.extraBytes;
        var d := decompress(data[at..at + c], Wrap32(chunk.uncompressedSize + e));
        && at + c + e <= |data| && d.code == 0
        && out == d.output + data[at + c..at + c + e]
      else
        at + chunk.uncompressedSize <= |data| && out == data[at..at + chunk.uncompressedSize]
  {
    if chunk.IsCompressed() {
      var c, e := chunk.compressedSize, chunk.extraBytes;
      var stored := data[at..at + c + e];
      assert stored[..c] == data[at..at + c];
      assert stored[c..] == data[at + c..at + c + e];
    }
  }

  /** The most a chunk can yield: a compressed chunk fills at most its output
      buffer of uncompressedSize + extraBytes (a 32-bit sum) and then appends
      its extra bytes; a stored chunk yields exactly uncompressedSize. */
  function ChunkBound(chunk: ChunkHeader): nat
  {
    if chunk.IsCompressed() then Wrap32(chunk.uncompressedSize + chunk.extraBytes) + chunk.extraBytes
    else chunk.uncompressedSize
  }

  lemma ChunkOutputBound(data: seq<Byte>, at: nat, chunk: ChunkHeader, decompress: (seq<Byte>, nat) -> Decompressed)
    requires DecompressorBounded(decompress)
    requires ChunkAt(data, at, chunk, decompress).Ok?
    ensures |ChunkAt(data, at, chunk, decompress).value| <= ChunkBound(chunk)
  {
    ChunkShape(data, at, chunk, decompress);
  }

  /** The first n chunks, in stored order, chunk c read at base + c.offset
      summed in 32 bits, their outputs concatenated. */
  function ChunksAt(data: seq<Byte>, base: U32, chunks: seq<ChunkHeader>, n: nat, decompress: (seq<Byte>, nat) -> Decompressed)
    : (r: Result<seq<Byte>, TankError>)
    requires n <= |chunks|
    decreases n
  {
    if n == 0 then Ok([])
    else
      var prev :- ChunksAt(data, base, chunks, n - 1, decompress);
      var out :- ChunkAt(data, Wrap32(base + chunks[n - 1].offset), chunks[n - 1], decompress);
      Ok(prev + out)
  }

  /** One more chunk: its output is appended, or its failure is the result. */
  lemma ChunksAtNext(data: seq<Byte>, base: U32, chunks: seq<ChunkHeader>, n: nat, prev: seq<Byte>,
                     decompress: (seq<Byte>, nat) -> Decompressed)
    requires n < |chunks| && ChunksAt(data, base, chunks, n, decompress) == Ok(prev)
    ensures var out := ChunkAt(data, Wrap32(base + chunks[n].offset), chunks[n], decompress);
      ChunksAt(data, base, chunks, n + 1, decompress) == if out.Err? then Err(out.error) else Ok(prev + out.value)
  {
  }

  /** A failing chunk is the failure of the whole chunk list. */
  lemma ChunkFailureIsFinal(data: seq<Byte>, base: U32, chunks: seq<ChunkHeader>, n: nat, prev: seq<Byte>,
                            decompress: (seq<Byte>, nat) -> Decompressed)
    requires n < |chunks| && ChunksAt(data, base, chunks, n, decompress) == Ok(prev)
    requires ChunkAt(data, Wrap32(base + chunks[n].offset), chunks[n], decompress).Err?
    ensures ChunksAt(data, base, chunks, |chunks|, decompress)
         == Err(ChunkAt(data, Wrap32(base + chunks[n].offset), chunks[n], decompress).error)
  {
    ChunksAtNext(data, base, chunks, n, prev, decompress);
    ChunksInOrder(data, base, chunks, n + 1, |chunks|, decompress);
  }

  /** Chunks are appended in order: the output of the first k chunks is a
      prefix of the output of the first n, and a failure among the first k
      is the failure of all n. */
  lemma {:induction false} ChunksInOrder(data: seq<Byte>, base: U32, chunks: seq<ChunkHeader>, k: nat, n: nat,
                                         decompress: (seq<Byte>, nat) -> Decompressed)
    requires k <= n <= |chunks|
    ensures ChunksAt(data, base, chunks, n, decompress).Ok? ==>
      var pre := ChunksAt(data, base, chunks, k, decompress);
      pre.Ok? && pre.value <= ChunksAt(data, base, chunks, n, decompress).value
    ensures ChunksAt(data, base, chunks, k, decompress).Err? ==>
      ChunksAt(data, base, chunks, n, decompress) == ChunksAt(data, base, chunks, k, decompress)
    decreases n
  {
    if k < n {
      ChunksInOrder(data, base, chunks, k, n - 1, decompress);
    }
  }

  function ChunksBound(chunks: seq<ChunkHeader>, n: nat): nat
    requires n <= |chunks|
  {
    if n == 0 then 0 else ChunksBound(chunks, n - 1) + ChunkBound(chunks[n - 1])
  }

  lemma {:induction false} ChunksOutputBound(data: seq<Byte>, base: U32, chunks: seq<ChunkHeader>, n: nat,
                                             decompress: (seq<Byte>, nat) -> Decompressed)
    requires n <= |chunks| && DecompressorBounded(decompress)
    requires ChunksAt(data, base, chunks, n, decompress).Ok?
    ensures |ChunksAt(data, base, chunks, n, decompress).value| <= ChunksBound(chunks, n)
    decreases n
  {
    if n > 0 {
      ChunksOutputBound(data, base, chunks, n - 1, decompress);
      ChunkOutputBound(data, Wrap32(base + chunks[n - 1].offset), chunks[n - 1], decompress);
    }
  }

  /**
   * The stored bytes of a file entry before any CRC check. A raw entry of
   * size 0 is empty without touching the stream; otherwise the raw data is
   * `size` bytes at dataOffset + offset. A compressed entry is its chunks in
   * order; one that never got a compressed header (a compressed entry of
   * size 0) is an error rather than a null dereference.
   */
  function ContentAt(data: seq<Byte>, good: bool, dataOffset: U32, f: FileEntry,
                     decompress: (seq<Byte>, nat) -> Decompressed): (r: Result<seq<Byte>, TankError>)
    requires FileEntryShaped(f)
  {
    if !f.IsCompressed() then
      if f.size == 0 then Ok([])
      else if !good then Err(SeekFailed)
      else
        var raw :- BytesAt(data, Wrap32(dataOffset + f.offset), f.size);
        Ok(raw.value)
    else match f.compressedHeader
      case None => Err(MissingCompressedHeader)
      case Some(h) =>
        if h.numChunks == 0 then Ok([])
        else if !good then Err(SeekFailed)
        else ChunksAt(data, Wrap32(dataOffset + f.offset), h.chunkHeaders, h.numChunks, decompress)
  }

  /** A raw entry yields exactly its `size` bytes from dataOffset + offset, or
      nothing at all when its size is 0. */
  lemma RawContent(data: seq<Byte>, good: bool, dataOffset: U32, f: FileEntry,
                   decompress: (seq<Byte>, nat) -> Decompressed)
    requires FileEntryShaped(f) && !f.IsCompressed()
    ensures f.size == 0 ==> ContentAt(data, good, dataOffset, f, decompress) == Ok([])
    ensures f.size != 0 ==> var at := Wrap32(dataOffset + f.offset);
      ContentAt(data, good, dataOffset, f, decompress) ==
        if !good then Err(SeekFailed)
        else if at + f.size <= |data| then Ok(data[at..at + f.size])
        else Err(ReadFailed)
  {
  }

  /** A compressed entry whose chunk size is 0 has no chunks and extracts as
      empty content. */
  lemma UnchunkedIsEmpty(data: seq<Byte>, good: bool, dataOffset: U32, f: FileEntry,
                         decompress: (seq<Byte>, nat) -> Decompressed)
    requires FileEntryShaped(f) && f.IsCompressed() && f.compressedHeader.Some?
    requires f.compressedHeader.value.numChunks == NumChunks(f.size, f.compressedHeader.value.chunkSize)
    requires f.compressedHeader.value.chunkSize == 0
    ensures ContentAt(data, good, dataOffset, f, decompress) == Ok([])
  {
  }

  /** extractResourceToMemory once the entry is found: the content, then the
      CRC check when validation is asked for and there is content. */
  function ExtractAt(data: seq<Byte>, good: bool, dataOffset: U32, f: FileEntry, validate: bool,
                     decompress: (seq<Byte>, nat) -> Decompressed): (r: Result<seq<Byte>, TankError>)
    requires FileEntryShaped(f)
  {
    var content :- ContentAt(data, good, dataOffset, f, decompress);
    if validate && content != [] && UtilsCommon.Crc32(content) as int != f.crc32 then Err(CrcMismatch)
    else Ok(content)
  }

  /** The CRC only matters when validation is on: without it extraction is
      the content; with it, non-empty content must carry the stored CRC, and
      empty content is never checked. */
  lemma CrcValidation(data: seq<Byte>, good: bool, dataOffset: U32, f: FileEntry,
                      decompress: (seq<Byte>, nat) -> Decompressed)
    requires FileEntryShaped(f)
    ensures ExtractAt(data, good, dataOffset, f, false, decompress) == ContentAt(data, good, dataOffset, f, decompress)
    ensures var c := ContentAt(data, good, dataOffset, f, decompress);
      ExtractAt(data, good, dataOffset, f, true, decompress) ==
        if c.Ok? && c.value != [] && UtilsCommon.Crc32(c.value) as int != f.crc32 then Err(CrcMismatch) else c
    ensures ExtractAt(data, good, dataOffset, f, true, decompress).Ok? ==>
      var out := ExtractAt(data, good, dataOffset, f, true, decompress).value;
      out == [] || UtilsCommon.Crc32(out) as int == f.crc32
  {
  }
}
