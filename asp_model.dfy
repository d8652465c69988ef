// The ASP model object: the sub-meshes, bones and texture names of one
// imported Aspect file, and the name of the file it came from.
module AspModels {
  import opened Wrappers
  import opened Bytes
  import opened HelperTypes
  import opened ModelReader
  import opened AspImporting

  class AspModel {
    var subMeshes: seq<SubMesh>
    var boneInfos: seq<BoneInfo>
    var textureNames: seq<Text>
    var srcFileName: string

    /** A model must have at least one sub-mesh to be valid. */
    predicate IsValid()
      reads this
    {
      |subMeshes| > 0
    }

    /** The model holds exactly what the import of `data` produced. */
    ghost predicate Holds(data: seq<Byte>)
      reads this
    {
      Import(data).Ok? &&
      subMeshes == Import(data).value.subMeshes &&
      boneInfos == Import(data).value.boneInfos &&
      textureNames == Import(data).value.textureNames
    }

    /** An empty model. */
    constructor ()
      ensures subMeshes == [] && boneInfos == [] && textureNames == [] && srcFileName == []
      ensures !IsValid()
    {
      subMeshes := [];
      boneInfos := [];
      textureNames := [];
      srcFileName := [];
    }

    /** Drops everything, leaving an empty, invalid model. */
    method Dispose()
      modifies this
      ensures subMeshes == [] && boneInfos == [] && textureNames == [] && srcFileName == []
      ensures !IsValid()
    {
      subMeshes := [];
      boneInfos := [];
      textureNames := [];
      srcFileName := [];
    }

    /** initFromMemory: dispose, then import. The file name is recorded only
        once the import succeeded; a failed import leaves what it had read. */
    method InitFromMemory(fileContents: seq<Byte>, filename: string) returns (r: Result<(), ImportError>)
      requires |fileContents| > 0
      modifies this
      ensures r.Ok? <==> Import(fileContents).Ok?
      ensures r.Ok? ==> Holds(fileContents) && srcFileName == filename
      ensures r.Err? ==> r.error == Import(fileContents).error && srcFileName == []
    {
      Dispose();
      var importer := new AspImporter(fileContents);
      r := importer.ImportAspModel();
      subMeshes := importer.subMeshes;
      boneInfos := importer.boneInfos;
      textureNames := importer.textureNames;
      if r.Err? {
        return;
      }
      srcFileName := filename;
    }

    /** initFromFile, with the file system as a parameter: `file` is None
        when the file cannot be opened, and otherwise its bytes. An empty
        file makes an empty model that keeps the name. */
    method InitFromFile(filename: string, file: Option<seq<Byte>>) returns (r: Result<(), ImportError>)
      modifies this
      ensures filename == [] ==> r == Err(NoFilename) && unchanged(this)
      ensures filename != [] && file.None? ==> r == Err(OpenFailed) && unchanged(this)
      ensures filename != [] && file == Some([]) ==>
        r.Ok? && subMeshes == [] && boneInfos == [] && textureNames == [] && srcFileName == filename
      ensures filename != [] && file.Some? && file.value != [] ==>
        (r.Ok? <==> Import(file.value).Ok?) &&
        (r.Ok? ==> Holds(file.value) && srcFileName == filename) &&
        (r.Err? ==> r.error == Import(file.value).error && srcFileName == [])
    {
      if filename == [] {
        return Err(NoFilename);
      }
      if file.None? {
        return Err(OpenFailed);
      }
      if file.value == [] {
        Dispose();
        srcFileName := filename;
        return Ok(());
      }
      r := InitFromMemory(file.value, filename);
    }
  }

  /** A file made only of chunk ids the importer does not know imports as
      an empty model, which is not valid. */
  lemma UnknownChunksMakeEmptyModel(data: seq<Byte>)
    requires |data| % 4 == 0
    requires forall k :: 0 <= k < |data| / 4 ==> ChunkOf(FourCCFromBytes(data[4 * k..4 * k + 4])).None?
    ensures Import(data) == Ok(Start.(pos := |data|))
  {
    SkipsUnknown(data, 0);
  }

  lemma {:induction false} SkipsUnknown(data: seq<Byte>, k: nat)
    requires |data| % 4 == 0 && 4 * k <= |data|
    requires forall j :: 0 <= j < |data| / 4 ==> ChunkOf(FourCCFromBytes(data[4 * j..4 * j + 4])).None?
    ensures ImportFrom(data, Start.(pos := 4 * k)) == Ok(Start.(pos := |data|))
    decreases |data| - 4 * k
  {
    if 4 * k == |data| {
      ImportStopsAtShortTail(data, Start.(pos := 4 * k));
    } else {
      assert ChunkOf(FourCCFromBytes(data[4 * k..4 * k + 4])).None?;
      UnknownChunkSkipped(data, Start.(pos := 4 * k));
      SkipsUnknown(data, k + 1);
    }
  }
}
