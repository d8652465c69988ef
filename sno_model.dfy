// The SNO model object: the header and lists of one imported Siege Node
// file, and the name of the file it came from.
module SnoModels {
  import opened Wrappers
  import opened Bytes
  import opened ModelReader
  import opened SnoImporting

  /** isValid on the model's parts: at least one surface, and a "SNOD"
      header of version 7 or later. */
  predicate ValidParts(d: SnoData)
  {
    |d.surfaces| > 0 && d.header.magic == SNOD && d.header.version >= VersionExpected
  }

  /** A node that imported is valid exactly when its header names at least
      one texture (one surface per texture). */
  lemma ImportedValidIff(data: seq<Byte>)
    requires SnoImport(data).Ok?
    ensures ValidParts(SnoImport(data).value) <==> SnoImport(data).value.header.textureCount > 0
  {
  }

  /** A disposed model is never valid: its header is all zero bytes. */
  lemma NullHeaderInvalid(spots: seq<SpotInfo>, doors: seq<DoorInfo>, corners: seq<CornerInfo>, surfaces: seq<SurfaceInfo>)
    ensures !ValidParts(SnoData(NullHeader, spots, doors, corners, surfaces))
  {
  }

  class SnoModel {
    var header: Header
    var spots: seq<SpotInfo>
    var doors: seq<DoorInfo>
    var corners: seq<CornerInfo>
    var surfaces: seq<SurfaceInfo>
    var srcFileName: string

    function Parts(): SnoData
      reads this
    {
      SnoData(header, spots, doors, corners, surfaces)
    }

    predicate IsValid()
      reads this
    {
      ValidParts(Parts())
    }

    /** An empty model. */
    constructor ()
      ensures Parts() == SnoData(NullHeader, [], [], [], []) && srcFileName == []
      ensures !IsValid()
    {
      header := NullHeader;
      spots := [];
      doors := [];
      corners := [];
      surfaces := [];
      srcFileName := [];
    }

    /** Zeroes the header and drops everything else. */
    method Dispose()
      modifies this
      ensures Parts() == SnoData(NullHeader, [], [], [], []) && srcFileName == []
      ensures !IsValid()
    {
      header := NullHeader;
      spots := [];
      doors := [];
      corners := [];
      surfaces := [];
      srcFileName := [];
    }

    /** initFromMemory: dispose, then import. The file name is recorded only
        once the import succeeded; the header is kept as read even when the
        import then fails. */
    method InitFromMemory(fileContents: seq<Byte>, filename: string) returns (r: Result<(), ImportError>)
      requires |fileContents| > 0
      modifies this
      ensures r.Ok? <==> SnoImport(fileContents).Ok?
      ensures r.Ok? ==> Parts() == SnoImport(fileContents).value && srcFileName == filename
      ensures r.Ok? ==> (IsValid() <==> header.textureCount > 0)
      ensures r.Err? ==> r.error == SnoImport(fileContents).error && srcFileName == []
      ensures HeaderAt(fileContents, 0).Ok? ==> header == HeaderAt(fileContents, 0).value.value
    {
      Dispose();
      var importer := new SnoImporter(fileContents);
      r := importer.ImportSnoModel();
      header := importer.header;
      spots := importer.spots;
      doors := importer.doors;
      corners := importer.corners;
      surfaces := importer.surfaces;
      if r.Err? {
        return;
      }
      srcFileName := filename;
    }

    /** initFromFile, with the file system as a parameter: `file` is None
        when the file cannot be opened, and otherwise its bytes. An empty
        file makes an empty model that keeps the name. */
    method InitFromFile(filename: string, file: Option<seq<Byte>>) returns (r: Result<(), ImportError>)
      modifies this
      ensures filename == [] ==> r == Err(NoFilename) && unchanged(this)
      ensures filename != [] && file.None? ==> r == Err(OpenFailed) && unchanged(this)
      ensures filename != [] && file == Some([]) ==>
        r.Ok? && Parts() == SnoData(NullHeader, [], [], [], []) && srcFileName == filename && !IsValid()
      ensures filename != [] && file.Some? && file.value != [] ==>
        (r.Ok? <==> SnoImport(file.value).Ok?) &&
        (r.Ok? ==> Parts() == SnoImport(file.value).value && srcFileName == filename) &&
        (r.Err? ==> r.error == SnoImport(file.value).error && srcFileName == [])
    {
      if filename == [] {
        return Err(NoFilename);
      }
      if file.None? {
        return Err(OpenFailed);
      }
      if file.value == [] {
        Dispose();
        srcFileName := filename;
        return Ok(());
      }
      r := InitFromMemory(file.value, filename);
    }
  }
}
