// The ASP (Aspect) mesh importer. The file is a run of chunks, each opened by
// a four-character id: BMSH declares the counts and the texture and bone
// names, BSUB selects the sub-mesh the following chunks fill in (BSMM, BVTX,
// BCRN, WCRN, BTRI), BONH wires the bone hierarchy and BEND carries info
// strings. Unknown ids are skipped. The functions below specify each chunk
// as a step from one import state to the next; class AspImporter reads the
// same chunks through the cursor and is proved to take exactly those steps.
module AspImporting {
  import opened Wrappers
  import opened Bytes
  import opened HelperTypes
  import opened ModelReader

  // ---------------------------------------------------------------------
  // The model records
  // ---------------------------------------------------------------------

  /** Three indexes into the sub-mesh's corners. */
  datatype TriIndex = TriIndex(i0: U32, i1: U32, i2: U32)

  /** A weighted corner (WCRN). */
  datatype WCornerInfo = WCornerInfo(pos: Vec3, normal: Vec3, weight: Vec4, texCoord: Vec2, color: Vec4b, bone: Vec4b)

  /** A corner (BCRN): an interleaved vertex referring to a position. */
  datatype CornerInfo = CornerInfo(vtxIndex: U32, normal: Vec3, texCoord: Vec2, color: Vec4b)

  datatype MatInfo = MatInfo(textureIndex: U32, faceSpan: U32)

  /** A (start, span) pair of a BTRI chunk newer than version 2.2. */
  datatype CornerRange = CornerRange(start: U32, span: U32)

  datatype FaceInfo = FaceInfo(cornerStart: seq<U32>, cornerSpan: seq<U32>, cornerIndex: seq<TriIndex>)

  datatype BoneInfo = BoneInfo(parentIndex: U32, flags: U32, name: Text)

  datatype SubMesh = SubMesh(
    textureCount: U32, vertexCount: U32, cornerCount: U32, faceCount: U32, stitchCount: U32,
    matInfo: seq<MatInfo>, positions: seq<Vec3>, corners: seq<CornerInfo>,
    wCorners: seq<WCornerInfo>, faceInfo: FaceInfo)

  /** What vector::resize appends: zero counts and empty vectors. */
  const NewSubMesh := SubMesh(0, 0, 0, 0, 0, [], [], [], [], FaceInfo([], [], []))
  const NewBone := BoneInfo(0, 0, [])

  // ---------------------------------------------------------------------
  // Chunk ids and versions
  // ---------------------------------------------------------------------

  function Tag(a: char, b: char, c: char, d: char): FourCC
    requires a < 128 as char && b < 128 as char && c < 128 as char && d < 128 as char
  {
    FourCC(a as int, b as int, c as int, d as int)
  }

  const BMSH := Tag('B', 'M', 'S', 'H')
  const BONH := Tag('B', 'O', 'N', 'H')
  const BSUB := Tag('B', 'S', 'U', 'B')
  const BSMM := Tag('B', 'S', 'M', 'M')
  const BVTX := Tag('B', 'V', 'T', 'X')
  const BCRN := Tag('B', 'C', 'R', 'N')
  const WCRN := Tag('W', 'C', 'R', 'N')
  const BVMP := Tag('B', 'V', 'M', 'P')
  const BTRI := Tag('B', 'T', 'R', 'I')
  const BVWL := Tag('B', 'V', 'W', 'L')
  const STCH := Tag('S', 'T', 'C', 'H')
  const RPOS := Tag('R', 'P', 'O', 'S')
  const BBOX := Tag('B', 'B', 'O', 'X')
  const BEND := Tag('B', 'E', 'N', 'D')
  const INFO := Tag('I', 'N', 'F', 'O')

  /** The chunks the import loop dispatches on; comparing a FourCC with a
      7-bit tag string is value equality (HelperTypes.FourCCEqualsStringIff). */
  datatype Chunk = Bmsh | Bonh | Bsub | Bsmm | Bvtx | Bcrn | Wcrn | Bvmp | Btri | Bvwl | Stch | Rpos | Bbox | Bend

  function ChunkOf(id: FourCC): (c: Option<Chunk>)
  {
    if id == BMSH then Some(Bmsh)
    else if id == BONH then Some(Bonh)
    else if id == BSUB then Some(Bsub)
    else if id == BSMM then Some(Bsmm)
    else if id == BVTX then Some(Bvtx)
    else if id == BCRN then Some(Bcrn)
    else if id == WCRN then Some(Wcrn)
    else if id == BVMP then Some(Bvmp)
    else if id == BTRI then Some(Btri)
    else if id == BVWL then Some(Bvwl)
    else if id == STCH then Some(Stch)
    else if id == RPOS then Some(Rpos)
    else if id == BBOX then Some(Bbox)
    else if id == BEND then Some(Bend)
    else None
  }

  /** The section versions the importer knows, as stored in the file. */
  const KnownVersions: set<U32> := {513, 769, 2, 258, 514, 770, 1026, 1282, 4, 260, 5}

  /** versionOf: a stored version word as major * 10 + minor, 0 if unknown. */
  function VersionOf(v: U32): nat
  {
    match v
    case 513 => 12
    case 769 => 13
    case 2 => 20
    case 258 => 21
    case 514 => 22
    case 770 => 23
    case 1026 => 24
    case 1282 => 25
    case 4 => 40
    case 260 => 41
    case 5 => 50
    case _ => 0
  }

  /** The stored word holds the major version in its low byte and the minor
      in the next one; versionOf is nonzero exactly on the known words. */
  lemma VersionOfIsMajorMinor(v: U32)
    ensures VersionOf(v) != 0 <==> v in KnownVersions
    ensures v in KnownVersions ==> VersionOf(v) == 10 * (v % 256) + v / 256
  {
  }

  /** readU32 then validateVersion: an unknown version throws. */
  function VersionAt(data: seq<Byte>, at: nat, section: FourCC): (r: Result<Parsed<U32>, ImportError>)
    ensures r.Ok? ==> r.value.next == at + 4 && VersionOf(r.value.value) != 0
    ensures r.Err? ==> r.error == ReadPastEnd || (r.error.UnexpectedVersion? && VersionOf(r.error.version) == 0)
  {
    var v :- U32At(data, at);
    if VersionOf(v.value) == 0 then Err(UnexpectedVersion(section, v.value)) else Ok(v)
  }

  // ---------------------------------------------------------------------
  // The import state
  // ---------------------------------------------------------------------

  /** The read position, the current sub-mesh index and the model so far. */
  datatype ImportState = ImportState(
    pos: nat, current: U32, subMeshes: seq<SubMesh>, boneInfos: seq<BoneInfo>, textureNames: seq<Text>)

  /** The importer's state on a freshly disposed model. */
  const Start := ImportState(0, 0, [], [], [])

  /** model.subMeshes[currentSubMeshIndex], which the source indexes unchecked. */
  function MeshOf(s: ImportState): (r: Result<SubMesh, ImportError>)
    ensures r.Ok? <==> s.current < |s.subMeshes|
    ensures r.Ok? ==> r.value == s.subMeshes[s.current]
  {
    if s.current < |s.subMeshes| then Ok(s.subMeshes[s.current]) else Err(SubMeshIndexOutOfRange(s.current))
  }

  function WithMesh(s: ImportState, mesh: SubMesh): ImportState
    requires s.current < |s.subMeshes|
  {
    s.(subMeshes := s.subMeshes[s.current := mesh])
  }

  // ---------------------------------------------------------------------
  // BMSH: counts and the name table
  // ---------------------------------------------------------------------

  /** The position after a run of NULs. */
  function SkipNuls(text: seq<Byte>, index: nat): (r: nat)
    ensures index <= r && (index <= |text| ==> r <= |text|)
    ensures r < |text| ==> text[r] != 0
    decreases |text| - index
  {
    if index < |text| && text[index] == 0 then SkipNuls(text, index + 1) else index
  }

  /** One name: the bytes up to a NUL or the end of the text. A NUL ends the
      name and it and the NULs right after it are skipped. */
  function NameAt(text: seq<Byte>, index: nat): (r: Parsed<Text>)
    ensures index <= r.next && (index <= |text| ==> r.next <= |text|)
    decreases |text| - index
  {
    if index >= |text| then Parsed([], index)
    else if text[index] == 0 then Parsed([], SkipNuls(text, index))
    else
      var rest := NameAt(text, index + 1);
      Parsed([text[index]] + rest.value, rest.next)
  }

  /** `count` names read one after another from `index`. */
  function SplitNames(text: seq<Byte>, index: nat, count: nat): (r: Parsed<seq<Text>>)
    ensures |r.value| == count
    ensures index <= r.next && (index <= |text| ==> r.next <= |text|)
  {
    if count == 0 then Parsed([], index)
    else
      var prev := SplitNames(text, index, count - 1);
      var name := NameAt(text, prev.next);
      Parsed(prev.value + [name.value], name.next)
  }

  /** The first |names| strings of `base` with the names appended to them, as
      push_back onto the resized vector's strings does. */
  function AppendNames(base: seq<Text>, names: seq<Text>): (r: seq<Text>)
    requires |names| <= |base|
    ensures |r| == |base|
    ensures forall i :: 0 <= i < |base| ==> r[i] == if i < |names| then base[i] + names[i] else base[i]
  {
    seq(|base|, i requires 0 <= i < |base| => if i < |names| then base[i] + names[i] else base[i])
  }

  /** The same for the bone names. */
  function AppendBoneNames(base: seq<BoneInfo>, names: seq<Text>): (r: seq<BoneInfo>)
    requires |names| <= |base|
    ensures |r| == |base|
    ensures forall i :: 0 <= i < |base| ==>
      r[i] == if i < |names| then base[i].(name := base[i].name + names[i]) else base[i]
  {
    seq(|base|, i requires 0 <= i < |base| =>
      if i < |names| then base[i].(name := base[i].name + names[i]) else base[i])
  }

  /** One more name is appended to the next string and changes nothing else. */
  lemma AppendNamesNext(base: seq<Text>, names: seq<Text>, name: Text)
    requires |names| < |base|
    ensures AppendNames(base, names + [name]) == AppendNames(base, names)[|names| := base[|names|] + name]
  {
  }

  /** The same for the bone names. */
  lemma AppendBoneNamesNext(base: seq<BoneInfo>, names: seq<Text>, name: Text)
    requires |names| < |base|
    ensures AppendBoneNames(base, names + [name]) ==
      AppendBoneNames(base, names)[|names| := base[|names|].(name := base[|names|].name + name)]
  {
  }

  /** The text length bound: a length this big means a broken file. */
  const MaxTextLength := 1024 * 1024

  /** The six counts after the BMSH version. */
  datatype BmshCounts = BmshCounts(
    sizeText: U32, boneCount: U32, textureCount: U32, vertexCount: U32, subMeshCount: U32, renderFlags: U32)

  function BmshCountsAt(data: seq<Byte>, at: nat): (r: Result<Parsed<BmshCounts>, ImportError>)
    ensures r.Ok? <==> CanRead(data, at, 24)
    ensures r.Ok? ==> r.value.next == at + 24
  {
    var sizeText :- U32At(data, at);
    var boneCount :- U32At(data, sizeText.next);
    var textureCount :- U32At(data, boneCount.next);
    var vertexCount :- U32At(data, textureCount.next);
    var subMeshCount :- U32At(data, vertexCount.next);
    var renderFlags :- U32At(data, subMeshCount.next);
    Ok(Parsed(BmshCounts(sizeText.value, boneCount.value, textureCount.value, vertexCount.value,
                         subMeshCount.value, renderFlags.value), renderFlags.next))
  }

  /** The model after a BMSH name table: the texture names, then the bone
      names, appended to the resized lists, and the sub-meshes resized. */
  function WithNames(s: ImportState, counts: BmshCounts, rawText: seq<Byte>, end: nat): (r: ImportState)
    ensures |r.textureNames| == counts.textureCount && |r.boneInfos| == counts.boneCount
    ensures |r.subMeshes| == counts.subMeshCount && r.pos == end && r.current == s.current
  {
    var textures := SplitNames(rawText, 0, counts.textureCount);
    var bones := SplitNames(rawText, textures.next, counts.boneCount);
    s.(pos := end,
       textureNames := AppendNames(Resized(s.textureNames, counts.textureCount, []), textures.value),
       boneInfos := AppendBoneNames(Resized(s.boneInfos, counts.boneCount, NewBone), bones.value),
       subMeshes := Resized(s.subMeshes, counts.subMeshCount, NewSubMesh))
  }

  function BmshSection(data: seq<Byte>, s: ImportState): (r: Result<ImportState, ImportError>)
    ensures r.Ok? ==> r.value.pos > s.pos && r.value.current == s.current
  {
    var version :- VersionAt(data, s.pos, BMSH);
    var counts :- BmshCountsAt(data, version.next);
    if counts.value.sizeText >= MaxTextLength then Err(BogusTextLength(counts.value.sizeText))
    else
      var rawText :- BytesAt(data, counts.next, counts.value.sizeText);
      Ok(WithNames(s, counts.value, rawText.value, rawText.next))
  }

  /** Names as an exporter lays them out: each one followed by a single NUL. */
  function JoinNames(names: seq<Text>): (text: seq<Byte>)
    ensures |text| >= |names|
  {
    if names == [] then [] else names[0] + [0] + JoinNames(names[1..])
  }

  /** Names that the table can carry: not empty and free of NULs. */
  predicate Nameable(names: seq<Text>)
  {
    forall i :: 0 <= i < |names| ==> |names[i]| > 0 && NoNul(names[i])
  }

  lemma {:induction false} JoinNamesSplit(names: seq<Text>, k: nat)
    requires k <= |names|
    ensures JoinNames(names) == JoinNames(names[..k]) + JoinNames(names[k..])
    decreases k
  {
    if k > 0 {
      JoinNamesSplit(names[1..], k - 1);
      assert names[1..][..k - 1] == names[..k][1..];
      assert names[1..][k - 1..] == names[k..];
      assert names[..k][0] == names[0];
    } else {
      assert names[..0] == [] && names[0..] == names;
    }
  }

  /** Reading a name over its bytes collects them, up to its NUL. */
  lemma {:induction false} NameAtSpan(text: seq<Byte>, index: nat, name: Text)
    requires index + |name| < |text| && text[index..index + |name|] == name && NoNul(name)
    requires text[index + |name|] == 0
    ensures NameAt(text, index) == Parsed(name, SkipNuls(text, index + |name|))
    decreases |name|
  {
    if name != [] {
      assert text[index] == name[0];
      assert text[index + 1..index + 1 + |name[1..]|] == name[1..];
      NameAtSpan(text, index + 1, name[1..]);
      assert [name[0]] + name[1..] == name;
    }
  }

  lemma JoinOne(name: Text)
    ensures JoinNames([name]) == name + [0]
  {
    var single := [name];
    assert single[1..] == [];
    assert JoinNames(single) == single[0] + [0] + JoinNames(single[1..]);
  }

  /** A joined table around its k-th name. */
  lemma JoinNamesAround(names: seq<Text>, k: nat)
    requires k < |names|
    ensures JoinNames(names) == JoinNames(names[..k]) + (names[k] + [0] + JoinNames(names[k + 1..]))
    ensures JoinNames(names[..k + 1]) == JoinNames(names[..k]) + (names[k] + [0])
  {
    JoinNamesSplit(names, k);
    var tail := names[k..];
    assert JoinNames(tail) == tail[0] + [0] + JoinNames(tail[1..]);
    assert tail[0] == names[k] && tail[1..] == names[k + 1..];
    var upTo := names[..k + 1];
    JoinNamesSplit(upTo, k);
    assert upTo[..k] == names[..k];
    assert upTo[k..] == [names[k]];
    JoinOne(names[k]);
  }

  /** The k-th name of a joined table reads back, ending where the next one starts. */
  lemma NextNameRead(pre: seq<Byte>, names: seq<Text>, k: nat)
    requires Nameable(names) && k < |names|
    ensures NameAt(pre + JoinNames(names), |pre| + |JoinNames(names[..k])|)
         == Parsed(names[k], |pre| + |JoinNames(names[..k + 1])|)
  {
    var text := pre + JoinNames(names);
    var p := |pre| + |JoinNames(names[..k])|;
    var name := names[k];
    var after := JoinNames(names[k + 1..]);
    JoinNamesAround(names, k);
    assert text == (pre + JoinNames(names[..k])) + (name + [0] + after);
    assert text[p..p + |name|] == name;
    assert text[p + |name|] == 0;
    NameAtSpan(text, p, name);
    var q := p + |name| + 1;
    if after != [] {
      assert names[k + 1..][0] == names[k + 1];
      assert text[q] == after[0] == names[k + 1][0];
    }
    assert SkipNuls(text, q) == q;
  }

  /** The names of a joined table read back one by one, from wherever the
      table starts. */
  lemma {:induction false} SplitJoinedNames(pre: seq<Byte>, names: seq<Text>, k: nat)
    requires Nameable(names) && k <= |names|
    ensures SplitNames(pre + JoinNames(names), |pre|, k) == Parsed(names[..k], |pre| + |JoinNames(names[..k])|)
    decreases k
  {
    if k == 0 {
      assert names[..0] == [];
    } else {
      SplitJoinedNames(pre, names, k - 1);
      NextNameRead(pre, names, k - 1);
      assert names[..k - 1] + [names[k - 1]] == names[..k];
    }
  }

  /** A table written as texture names then bone names, each with a single
      NUL after it, reads back as those names. */
  lemma NameTableRoundTrip(textures: seq<Text>, bones: seq<Text>)
    requires Nameable(textures) && Nameable(bones)
    ensures var text := JoinNames(textures + bones);
      var tex := SplitNames(text, 0, |textures|);
      tex == Parsed(textures, |JoinNames(textures)|) && SplitNames(text, tex.next, |bones|).value == bones
  {
    var all := textures + bones;
    assert Nameable(all) by {
      forall i | 0 <= i < |all| ensures |all[i]| > 0 && NoNul(all[i]) {
        if i >= |textures| { assert all[i] == bones[i - |textures|]; }
      }
    }
    SplitJoinedNames([], all, |textures|);
    assert all[..|textures|] == textures && all[|textures|..] == bones;
    JoinNamesSplit(all, |textures|);
    SplitJoinedNames(JoinNames(textures), bones, |bones|);
    assert [] + JoinNames(all) == JoinNames(all);
    assert bones[..|bones|] == bones;
  }

  /** On a model with no names yet, the BMSH names are exactly the table's. */
  lemma FreshNames(s: ImportState, counts: BmshCounts, textures: seq<Text>, bones: seq<Text>, end: nat)
    requires s.textureNames == [] && s.boneInfos == []
    requires Nameable(textures) && Nameable(bones)
    requires counts.textureCount == |textures| && counts.boneCount == |bones|
    ensures WithNames(s, counts, JoinNames(textures + bones), end).textureNames == textures
    ensures forall i :: 0 <= i < |bones| ==> WithNames(s, counts, JoinNames(textures + bones), end).boneInfos[i] == NewBone.(name := bones[i])
  {
    NameTableRoundTrip(textures, bones);
    var r := WithNames(s, counts, JoinNames(textures + bones), end);
    forall i | 0 <= i < |textures| ensures r.textureNames[i] == textures[i] {
      assert [] + textures[i] == textures[i];
    }
    forall i | 0 <= i < |bones| ensures r.boneInfos[i] == NewBone.(name := bones[i]) {
      assert [] + bones[i] == bones[i];
    }
  }

  // ---------------------------------------------------------------------
  // BONH: (bone, parent, flags) for as many entries as there are bones
  // ---------------------------------------------------------------------

  function BoneEntryAt(data: seq<Byte>, at: nat, bones: seq<BoneInfo>): (r: Result<Parsed<seq<BoneInfo>>, ImportError>)
    ensures r.Ok? ==> r.value.next == at + 12 && |r.value.value| == |bones|
  {
    var boneIndex :- U32At(data, at);
    var parentIndex :- U32At(data, boneIndex.next);
    var boneFlags :- U32At(data, parentIndex.next);
    if boneIndex.value >= |bones| then Err(BoneIndexOutOfRange(boneIndex.value))
    else
      var b := boneIndex.value;
      Ok(Parsed(bones[b := bones[b].(parentIndex := parentIndex.value, flags := boneFlags.value)], boneFlags.next))
  }

  function BoneEntries(data: seq<Byte>, at: nat, bones: seq<BoneInfo>, n: nat): (r: Result<Parsed<seq<BoneInfo>>, ImportError>)
    ensures r.Ok? ==> r.value.next == at + 12 * n && |r.value.value| == |bones|
  {
    if n == 0 then Ok(Parsed(bones, at))
    else
      var prev :- BoneEntries(data, at, bones, n - 1);
      BoneEntryAt(data, prev.next, prev.value)
  }

  lemma {:induction false} BoneEntriesFailurePersists(data: seq<Byte>, at: nat, bones: seq<BoneInfo>, k: nat, n: nat)
    requires k <= n && BoneEntries(data, at, bones, k).Err?
    ensures BoneEntries(data, at, bones, n) == Err(BoneEntries(data, at, bones, k).error)
    decreases n
  {
    if k < n {
      BoneEntriesFailurePersists(data, at, bones, k, n - 1);
      var prev := BoneEntries(data, at, bones, n - 1);
      assert prev.Err?;
      assert BoneEntries(data, at, bones, n) == prev.PropagateFailure();
    }
  }

  function BonhSection(data: seq<Byte>, s: ImportState): (r: Result<ImportState, ImportError>)
    ensures r.Ok? ==> r.value.pos > s.pos && |r.value.boneInfos| == |s.boneInfos|
  {
    var version :- VersionAt(data, s.pos, BONH);
    var entries :- BoneEntries(data, version.next, s.boneInfos, |s.boneInfos|);
    Ok(s.(pos := entries.next, boneInfos := entries.value))
  }

  // ---------------------------------------------------------------------
  // BSUB: select a sub-mesh and set its counts
  // ---------------------------------------------------------------------

  /** The stored sub-mesh index: sections up to version 4.0 count from -1. */
  function SubMeshIndex(version: U32, stored: U32): U32
  {
    if VersionOf(version) <= 40 then Wrap32(stored + 1) else stored
  }

  function BsubSection(data: seq<Byte>, s: ImportState): (r: Result<ImportState, ImportError>)
    ensures r.Ok? ==> r.value.pos > s.pos && r.value.current < |r.value.subMeshes| == |s.subMeshes|
  {
    var version :- VersionAt(data, s.pos, BSUB);
    var stored :- U32At(data, version.next);
    var current := SubMeshIndex(version.value, stored.value);
    var textureCount :- U32At(data, stored.next);
    if textureCount.value != |s.textureNames| then Err(TextureCountMismatch(textureCount.value))
    else if current >= |s.subMeshes| then Err(SubMeshIndexOutOfRange(current))
    else
      var vertexCount :- U32At(data, textureCount.next);
      var cornerCount :- U32At(data, vertexCount.next);
      var faceCount :- U32At(data, cornerCount.next);
      var mesh := s.subMeshes[current];
      Ok(s.(pos := faceCount.next, current := current,
            subMeshes := s.subMeshes[current := mesh.(vertexCount := vertexCount.value,
                                                      cornerCount := cornerCount.value,
                                                      faceCount := faceCount.value)]))
  }

  /** Up to version 4.0 the stored index counts from -1: the stored word
      0xFFFFFFFF selects the first sub-mesh and every other word the next one. */
  lemma SubMeshIndexFromMinusOne(version: U32, stored: U32)
    requires VersionOf(version) != 0
    ensures VersionOf(version) <= 40 && stored == 0xFFFF_FFFF ==> SubMeshIndex(version, stored) == 0
    ensures VersionOf(version) <= 40 && stored < 0xFFFF_FFFF ==> SubMeshIndex(version, stored) == stored + 1
    ensures VersionOf(version) > 40 ==> SubMeshIndex(version, stored) == stored
  {
  }

  /** BSUB fails when its texture count differs from the number of texture names. */
  lemma BsubChecksTextureCount(data: seq<Byte>, s: ImportState)
    requires CanRead(data, s.pos, 12) && VersionOf(DecodeU32(data[s.pos..s.pos + 4])) != 0
    requires DecodeU32(data[s.pos + 8..s.pos + 12]) != |s.textureNames|
    ensures BsubSection(data, s) == Err(TextureCountMismatch(DecodeU32(data[s.pos + 8..s.pos + 12])))
  {
  }

  // ---------------------------------------------------------------------
  // Fixed-size items of the per-mesh chunks
  // ---------------------------------------------------------------------

  function MatInfoAt(data: seq<Byte>, at: nat): (r: Result<Parsed<MatInfo>, ImportError>)
    ensures r.Ok? ==> r.value.next == at + 8
  {
    var textureIndex :- U32At(data, at);
    var faceSpan :- U32At(data, textureIndex.next);
    Ok(Parsed(MatInfo(textureIndex.value, faceSpan.value), faceSpan.next))
  }

  /** A BCRN corner as stored: vertex index, normal, colour, an unused word
      and the texture coordinate. */
  function CornerAt(data: seq<Byte>, at: nat): (r: Result<Parsed<CornerInfo>, ImportError>)
    ensures r.Ok? ==> r.value.next == at + 32
  {
    var vtxIndex :- U32At(data, at);
    var normal :- Vec3At(data, vtxIndex.next);
    var color :- Vec4bAt(data, normal.next);
    var unused :- U32At(data, color.next);
    var texCoord :- Vec2At(data, unused.next);
    Ok(Parsed(CornerInfo(vtxIndex.value, normal.value, texCoord.value, color.value), texCoord.next))
  }

  /** A WCRN corner: position, weights, bone bytes, normal, colour, texture coordinate. */
  function WCornerAt(data: seq<Byte>, at: nat): (r: Result<Parsed<WCornerInfo>, ImportError>)
    ensures r.Ok? ==> r.value.next == at + 56
  {
    var pos :- Vec3At(data, at);
    var weight :- Vec4At(data, pos.next);
    var bone :- Vec4bAt(data, weight.next);
    var normal :- Vec3At(data, bone.next);
    var color :- Vec4bAt(data, normal.next);
    var texCoord :- Vec2At(data, color.next);
    Ok(Parsed(WCornerInfo(pos.value, normal.value, weight.value, texCoord.value, color.value, bone.value), texCoord.next))
  }

  function CornerRangeAt(data: seq<Byte>, at: nat): (r: Result<Parsed<CornerRange>, ImportError>)
    ensures r.Ok? ==> r.value.next == at + 8
  {
    var start :- U32At(data, at);
    var span :- U32At(data, start.next);
    Ok(Parsed(CornerRange(start.value, span.value), span.next))
  }

  function TriIndexAt(data: seq<Byte>, at: nat): (r: Result<Parsed<TriIndex>, ImportError>)
    ensures r.Ok? ==> r.value.next == at + 12
  {
    var i0 :- U32At(data, at);
    var i1 :- U32At(data, i0.next);
    var i2 :- U32At(data, i1.next);
    Ok(Parsed(TriIndex(i0.value, i1.value, i2.value), i2.next))
  }

  // Each item reader moves forward, as Items requires.
  lemma MatInfoAtAdvances() ensures Advancing(MatInfoAt) {}
  lemma CornerAtAdvances() ensures Advancing(CornerAt) {}
  lemma WCornerAtAdvances() ensures Advancing(WCornerAt) {}
  lemma CornerRangeAtAdvances() ensures Advancing(CornerRangeAt) {}
  lemma TriIndexAtAdvances() ensures Advancing(TriIndexAt) {}

  // ---------------------------------------------------------------------
  // BSMM, BVTX, BCRN, WCRN
  // ---------------------------------------------------------------------

  function BsmmSection(data: seq<Byte>, s: ImportState): (r: Result<ImportState, ImportError>)
    ensures r.Ok? ==> r.value.pos > s.pos && |r.value.subMeshes| == |s.subMeshes|
  {
    var version :- VersionAt(data, s.pos, BSMM);
    var mesh :- MeshOf(s);
    var textureCount :- U32At(data, version.next);
    var mats :- Items(data, textureCount.next, textureCount.value, MatInfoAt);
    Ok(WithMesh(s.(pos := mats.next), mesh.(textureCount := textureCount.value, matInfo := mats.value)))
  }

  function BvtxSection(data: seq<Byte>, s: ImportState): (r: Result<ImportState, ImportError>)
    ensures r.Ok? ==> r.value.pos > s.pos && |r.value.subMeshes| == |s.subMeshes|
  {
    var version :- VersionAt(data, s.pos, BVTX);
    var mesh :- MeshOf(s);
    var count :- U32At(data, version.next);
    if mesh.vertexCount != count.value then Err(VertexCountMismatch(count.value))
    else
      var positions :- Items(data, count.next, mesh.vertexCount, Vec3At);
      Ok(WithMesh(s.(pos := positions.next), mesh.(positions := positions.value)))
  }

  /** The clamp of a corner's vertex index, as written: only indexes above
      the position count are replaced, by the count minus one in 32 bits. */
  function ClampIndexAsWritten(index: U32, size: nat): U32
  {
    if index > size then Wrap32(size - 1) else index
  }

  /** An index equal to the position count passes the clamp as written and
      still lies outside the positions. */
  lemma ClampLetsCountThrough(size: nat)
    requires 0 < size < 0x1_0000_0000
    ensures ClampIndexAsWritten(size, size) == size
  {
  }

  /** The clamp as intended: every index outside the positions is replaced
      by the last one. */
  function ClampIndex(index: U32, size: nat): (r: U32)
    ensures 0 < size <= 0x1_0000_0000 ==> r < size
    ensures index < size ==> r == index
  {
    if index >= size then Wrap32(size - 1) else index
  }

  /** The two clamps differ only on an index equal to the position count. */
  lemma ClampsDifferOnlyAtCount(index: U32, size: nat)
    ensures ClampIndexAsWritten(index, size) != ClampIndex(index, size) ==> index == size
    ensures 0 < size < 0x1_0000_0000 ==> ClampIndexAsWritten(size, size) != ClampIndex(size, size)
  {
  }

  function ClampCorner(c: CornerInfo, size: nat): CornerInfo
  {
    c.(vtxIndex := ClampIndexAsWritten(c.vtxIndex, size))
  }

  function ClampedCorners(raw: seq<CornerInfo>, size: nat): (r: seq<CornerInfo>)
    ensures |r| == |raw|
  {
    if raw == [] then [] else ClampedCorners(raw[..|raw| - 1], size) + [ClampCorner(raw[|raw| - 1], size)]
  }

  /** Each clamped corner is its stored corner with the vertex index clamped;
      normal, colour and texture coordinate are kept, and with positions
      present the index is at most their count. */
  lemma {:induction false} ClampedCornersInRange(raw: seq<CornerInfo>, size: nat, i: nat)
    requires i < |raw|
    ensures ClampedCorners(raw, size)[i] == raw[i].(vtxIndex := ClampIndexAsWritten(raw[i].vtxIndex, size))
    ensures 0 < size <= 0x1_0000_0000 ==> ClampedCorners(raw, size)[i].vtxIndex <= size
  {
    var pre := raw[..|raw| - 1];
    if i < |raw| - 1 {
      ClampedCornersInRange(pre, size, i);
      assert ClampedCorners(raw, size)[i] == ClampedCorners(pre, size)[i];
    }
  }

  function BcrnSection(data: seq<Byte>, s: ImportState): (r: Result<ImportState, ImportError>)
    ensures r.Ok? ==> r.value.pos > s.pos && |r.value.subMeshes| == |s.subMeshes|
  {
    var version :- VersionAt(data, s.pos, BCRN);
    var mesh :- MeshOf(s);
    var count :- U32At(data, version.next);
    if mesh.cornerCount != count.value then Err(CornerCountMismatch(BCRN, count.value))
    else
      var raw :- Items(data, count.next, mesh.cornerCount, CornerAt);
      Ok(WithMesh(s.(pos := raw.next), mesh.(corners := ClampedCorners(raw.value, |mesh.positions|))))
  }

  /** BCRN fails on a corner count other than the one BSUB declared, and
      otherwise leaves every corner index at most the position count: the
      clamp as written lets an index equal to the count through. */
  lemma BcrnCornersAtMostCount(data: seq<Byte>, s: ImportState)
    requires BcrnSection(data, s).Ok?
    ensures s.current < |s.subMeshes|
    ensures var mesh := BcrnSection(data, s).value.subMeshes[s.current];
      |mesh.corners| == s.subMeshes[s.current].cornerCount &&
      mesh.positions == s.subMeshes[s.current].positions &&
      (0 < |mesh.positions| <= 0x1_0000_0000 ==>
        forall i :: 0 <= i < |mesh.corners| ==> mesh.corners[i].vtxIndex <= |mesh.positions|)
  {
    var mesh := s.subMeshes[s.current];
    var version := VersionAt(data, s.pos, BCRN).value;
    var count := U32At(data, version.next).value;
    CornerAtAdvances();
    var raw := Items(data, count.next, mesh.cornerCount, CornerAt).value;
    var out := BcrnSection(data, s).value.subMeshes[s.current];
    assert out.corners == ClampedCorners(raw.value, |mesh.positions|);
    if 0 < |mesh.positions| <= 0x1_0000_0000 {
      forall i | 0 <= i < |out.corners| ensures out.corners[i].vtxIndex <= |mesh.positions| {
        ClampedCornersInRange(raw.value, |mesh.positions|, i);
      }
    }
  }

  function WcrnSection(data: seq<Byte>, s: ImportState): (r: Result<ImportState, ImportError>)
    ensures r.Ok? ==> r.value.pos > s.pos && |r.value.subMeshes| == |s.subMeshes|
  {
    var version :- VersionAt(data, s.pos, WCRN);
    var mesh :- MeshOf(s);
    var count :- U32At(data, version.next);
    if mesh.cornerCount != count.value then Err(CornerCountMismatch(WCRN, count.value))
    else
      var wCorners :- Items(data, count.next, mesh.cornerCount, WCornerAt);
      Ok(WithMesh(s.(pos := wCorners.next), mesh.(wCorners := wCorners.value)))
  }

  // ---------------------------------------------------------------------
  // BTRI: corner ranges per texture, then the triangles
  // ---------------------------------------------------------------------

  function Sum(s: seq<U32>): nat
  {
    if s == [] then 0 else Sum(s[..|s| - 1]) + s[|s| - 1]
  }

  /** Version 2.2 stores only spans; each start is the 32-bit sum of the
      spans before it. */
  function CornerStarts(spans: seq<U32>): (r: seq<U32>)
    ensures |r| == |spans|
    ensures forall i :: 0 <= i < |spans| ==> r[i] == Wrap32(Sum(spans[..i]))
  {
    seq(|spans|, i requires 0 <= i < |spans| => Wrap32(Sum(spans[..i])))
  }

  lemma Wrap32Add(a: int, b: int)
    ensures Wrap32(Wrap32(a) + b) == Wrap32(a + b)
  {
    var q := a / 0x1_0000_0000;
    assert a == q * 0x1_0000_0000 + Wrap32(a);
    assert a + b == q * 0x1_0000_0000 + (Wrap32(a) + b);
  }

  /** The first start is 0 and each next start is the previous start plus
      the previous span, in 32 bits. */
  lemma CornerStartsAccumulate(spans: seq<U32>, i: nat)
    requires i + 1 < |spans|
    ensures CornerStarts(spans)[0] == 0
    ensures CornerStarts(spans)[i + 1] == Wrap32(CornerStarts(spans)[i] as int + spans[i])
  {
    assert spans[..0] == [];
    assert spans[..i + 1][..i] == spans[..i];
    Wrap32Add(Sum(spans[..i]), spans[i]);
  }

  function Starts(ranges: seq<CornerRange>): (r: seq<U32>)
    ensures |r| == |ranges| && forall i :: 0 <= i < |ranges| ==> r[i] == ranges[i].start
  {
    seq(|ranges|, i requires 0 <= i < |ranges| => ranges[i].start)
  }

  function Spans(ranges: seq<CornerRange>): (r: seq<U32>)
    ensures |r| == |ranges| && forall i :: 0 <= i < |ranges| ==> r[i] == ranges[i].span
  {
    seq(|ranges|, i requires 0 <= i < |ranges| => ranges[i].span)
  }

  /** The per-texture corner starts and spans of a BTRI chunk of the given
      version (as versionOf gives it), and where they end. */
  function CornerRanges(data: seq<Byte>, at: nat, version: nat, mesh: SubMesh)
    : (r: Result<Parsed<(seq<U32>, seq<U32>)>, ImportError>)
    ensures r.Ok? ==> r.value.next >= at && |r.value.value.0| == |r.value.value.1| == mesh.textureCount
  {
    if version == 22 then
      var spans :- Items(data, at, mesh.textureCount, U32At);
      if mesh.textureCount == 0 then Err(NoCornerSpans)
      else Ok(Parsed((CornerStarts(spans.value), spans.value), spans.next))
    else if version > 22 then
      var ranges :- Items(data, at, mesh.textureCount, CornerRangeAt);
      Ok(Parsed((Starts(ranges.value), Spans(ranges.value)), ranges.next))
    else
      Ok(Parsed((seq(mesh.textureCount, _ => 0), seq(mesh.textureCount, _ => mesh.cornerCount)), at))
  }

  function BtriSection(data: seq<Byte>, s: ImportState): (r: Result<ImportState, ImportError>)
    ensures r.Ok? ==> r.value.pos > s.pos && |r.value.subMeshes| == |s.subMeshes|
  {
    var version :- VersionAt(data, s.pos, BTRI);
    var mesh :- MeshOf(s);
    var count :- U32At(data, version.next);
    if mesh.faceCount != count.value then Err(FaceCountMismatch(count.value))
    else
      var ranges :- CornerRanges(data, count.next, VersionOf(version.value), mesh);
      var faces :- Items(data, ranges.next, mesh.faceCount, TriIndexAt);
      Ok(WithMesh(s.(pos := faces.next),
                  mesh.(faceInfo := FaceInfo(ranges.value.0, ranges.value.1, faces.value))))
  }

  // ---------------------------------------------------------------------
  // Chunks that are only versioned, and BEND
  // ---------------------------------------------------------------------

  /** BVMP, BVWL, STCH, RPOS and BBOX: the version is checked and nothing else is read. */
  function VersionOnlySection(data: seq<Byte>, s: ImportState, section: FourCC): (r: Result<ImportState, ImportError>)
    ensures r.Ok? ==> r.value == s.(pos := s.pos + 4)
  {
    var version :- VersionAt(data, s.pos, section);
    Ok(s.(pos := version.next))
  }

  /** BEND: an INFO id, a count and that many NUL-terminated strings, which
      are only logged. Without the INFO id the chunk ends there. */
  function BendSection(data: seq<Byte>, s: ImportState): (r: Result<ImportState, ImportError>)
    ensures r.Ok? ==> r.value == s.(pos := r.value.pos) && r.value.pos >= s.pos
  {
    match FourCCAt(data, s.pos)
    case None => Ok(s)
    case Some(info) =>
      if info.value != INFO then Ok(s.(pos := info.next))
      else
        var count :- U32At(data, info.next);
        var strings :- Items(data, count.next, count.value, CStringAt);
        Ok(s.(pos := strings.next))
  }

  // ---------------------------------------------------------------------
  // The import loop
  // ---------------------------------------------------------------------

  /** The handler of one chunk; an unknown id is ignored. */
  function ChunkSection(data: seq<Byte>, chunk: Option<Chunk>, s: ImportState): (r: Result<ImportState, ImportError>)
    ensures r.Ok? ==> r.value.pos >= s.pos
  {
    match chunk
    case None => Ok(s)
    case Some(Bmsh) => BmshSection(data, s)
    case Some(Bonh) => BonhSection(data, s)
    case Some(Bsub) => BsubSection(data, s)
    case Some(Bsmm) => BsmmSection(data, s)
    case Some(Bvtx) => BvtxSection(data, s)
    case Some(Bcrn) => BcrnSection(data, s)
    case Some(Wcrn) => WcrnSection(data, s)
    case Some(Bvmp) => VersionOnlySection(data, s, BVMP)
    case Some(Btri) => BtriSection(data, s)
    case Some(Bvwl) => VersionOnlySection(data, s, BVWL)
    case Some(Stch) => VersionOnlySection(data, s, STCH)
    case Some(Rpos) => VersionOnlySection(data, s, RPOS)
    case Some(Bbox) => VersionOnlySection(data, s, BBOX)
    case Some(Bend) => BendSection(data, s)
  }

  /** importAspModel from state `s`: chunk after chunk until fewer than four
      bytes remain; the first error ends the import. */
  function ImportFrom(data: seq<Byte>, s: ImportState): (r: Result<ImportState, ImportError>)
    decreases |data| - s.pos
  {
    match FourCCAt(data, s.pos)
    case None => Ok(s)
    case Some(id) =>
      var next :- ChunkSection(data, ChunkOf(id.value), s.(pos := id.next));
      ImportFrom(data, next)
  }

  /** The whole import of a file image into a disposed model. */
  function Import(data: seq<Byte>): Result<ImportState, ImportError>
  {
    ImportFrom(data, Start)
  }

  /** A finished import has read every chunk: fewer than four bytes remain. */
  lemma {:induction false} ImportEndsAtTail(data: seq<Byte>, s: ImportState)
    requires ImportFrom(data, s).Ok?
    ensures !CanRead(data, ImportFrom(data, s).value.pos, 4)
    decreases |data| - s.pos
  {
    match FourCCAt(data, s.pos)
    case None =>
    case Some(id) =>
      var next := ChunkSection(data, ChunkOf(id.value), s.(pos := id.next));
      ImportEndsAtTail(data, next.value);
  }

  /** The loop ends, keeping everything, once fewer than four bytes remain
      (or the position is the end). */
  lemma ImportStopsAtShortTail(data: seq<Byte>, s: ImportState)
    requires !CanRead(data, s.pos, 4)
    ensures ImportFrom(data, s) == Ok(s)
  {
  }

  /** An unknown chunk id consumes its four bytes and nothing else. */
  lemma UnknownChunkSkipped(data: seq<Byte>, s: ImportState)
    requires CanRead(data, s.pos, 4)
    requires ChunkOf(FourCCFromBytes(data[s.pos..s.pos + 4])).None?
    ensures ImportFrom(data, s) == ImportFrom(data, s.(pos := s.pos + 4))
  {
  }

  // ---------------------------------------------------------------------
  // The importer
  // ---------------------------------------------------------------------

  /** An import result as a state: the state reached, or the error. */
  function Outcome(r: Result<(), ImportError>, s: ImportState): Result<ImportState, ImportError>
  {
    if r.Ok? then Ok(s) else Err(r.error)
  }

  /** The importer: its cursor, the current sub-mesh index and the model
      vectors it fills (which start out empty, as after dispose). */
  class AspImporter {
    const cursor: ByteCursor
    var currentSubMeshIndex: U32
    var subMeshes: seq<SubMesh>
    var boneInfos: seq<BoneInfo>
    var textureNames: seq<Text>

    ghost predicate Valid()
      reads this, cursor
    {
      cursor.Valid()
    }

    function State(): ImportState
      reads this, cursor
    {
      ImportState(cursor.readPosition, currentSubMeshIndex, subMeshes, boneInfos, textureNames)
    }

    /** The source asserts that the file image is not empty. */
    constructor (fileData: seq<Byte>)
      requires |fileData| > 0
      ensures Valid() && fresh(cursor)
      ensures cursor.fileContents == fileData && State() == Start
    {
      cursor := new ByteCursor(fileData);
      currentSubMeshIndex := 0;
      subMeshes := [];
      boneInfos := [];
      textureNames := [];
    }

    method ReadVersion(section: FourCC) returns (r: Result<U32, ImportError>)
      requires Valid()
      modifies cursor
      ensures Valid()
      ensures Matches(r, cursor.readPosition, VersionAt(cursor.fileContents, old(cursor.readPosition), section))
    {
      var version :- cursor.ReadU32();
      if VersionOf(version) == 0 {
        return Err(UnexpectedVersion(section, version));
      }
      r := Ok(version);
    }

    /** One name of the BMSH text, from `start`. */
    static method ScanName(text: seq<Byte>, start: nat) returns (name: Text, index: nat)
      requires start <= |text|
      ensures NameAt(text, start) == Parsed(name, index)
    {
      name := [];
      index := start;
      assert [] + NameAt(text, start).value == NameAt(text, start).value;
      while index < |text|
        invariant start <= index <= |text|
        invariant NameAt(text, start) == Parsed(name + NameAt(text, index).value, NameAt(text, index).next)
        decreases |text| - index
      {
        if text[index] == 0 {
          ghost var nul := index;
          while index < |text| && text[index] == 0
            invariant nul <= index <= |text|
            invariant SkipNuls(text, index) == SkipNuls(text, nul)
            decreases |text| - index
          {
            index := index + 1;
          }
          assert name + [] == name;
          return;
        }
        assert name + ([text[index]] + NameAt(text, index + 1).value)
            == (name + [text[index]]) + NameAt(text, index + 1).value;
        name := name + [text[index]];
        index := index + 1;
      }
      assert name + [] == name;
    }

    /** The texture names of BMSH: `count` names appended to the resized list. */
    method SplitTextureNames(rawText: seq<Byte>, count: U32) returns (index: nat)
      modifies this`textureNames
      ensures textureNames == AppendNames(Resized(old(textureNames), count, []), SplitNames(rawText, 0, count).value)
      ensures index == SplitNames(rawText, 0, count).next
    {
      var names := Resized(textureNames, count, []);
      ghost var base := names;
      ghost var parsed: seq<Text> := [];
      index := 0;
      var t := 0;
      while t < count
        invariant t <= count && |base| == count
        invariant SplitNames(rawText, 0, t) == Parsed(parsed, index)
        invariant names == AppendNames(base, parsed)
      {
        var name;
        name, index := ScanName(rawText, index);
        AppendNamesNext(base, parsed, name);
        names := names[t := names[t] + name];
        parsed := parsed + [name];
        t := t + 1;
      }
      textureNames := names;
    }

    /** The bone names of BMSH: `count` names from `start`, appended to the resized bones. */
    method SplitBoneNames(rawText: seq<Byte>, start: nat, count: U32)
      requires start <= |rawText|
      modifies this`boneInfos
      ensures boneInfos == AppendBoneNames(Resized(old(boneInfos), count, NewBone), SplitNames(rawText, start, count).value)
    {
      var bones := Resized(boneInfos, count, NewBone);
      ghost var base := bones;
      ghost var parsed: seq<Text> := [];
      var index := start;
      var b := 0;
      while b < count
        invariant b <= count && |base| == count
        invariant SplitNames(rawText, start, b) == Parsed(parsed, index)
        invariant bones == AppendBoneNames(base, parsed)
      {
        var name;
        name, index := ScanName(rawText, index);
        AppendBoneNamesNext(base, parsed, name);
        bones := bones[b := bones[b].(name := bones[b].name + name)];
        parsed := parsed + [name];
        b := b + 1;
      }
      boneInfos := bones;
    }

    method ReadBmshCounts() returns (r: Result<BmshCounts, ImportError>)
      requires Valid()
      modifies cursor
      ensures Valid()
      ensures Matches(r, cursor.readPosition, BmshCountsAt(cursor.fileContents, old(cursor.readPosition)))
    {
      var sizeText :- cursor.ReadU32();
      var boneCount :- cursor.ReadU32();
      var textureCount :- cursor.ReadU32();
      var vertexCount :- cursor.ReadU32();
      var subMeshCount :- cursor.ReadU32();
      var renderFlags :- cursor.ReadU32();
      r := Ok(BmshCounts(sizeText, boneCount, textureCount, vertexCount, subMeshCount, renderFlags));
    }

    method ReadBmsh() returns (r: Result<(), ImportError>)
      requires Valid()
      modifies this, cursor
      ensures Valid()
      ensures Outcome(r, State()) == BmshSection(cursor.fileContents, old(State()))
    {
      var version :- ReadVersion(BMSH);
      var counts :- ReadBmshCounts();
      if counts.sizeText >= MaxTextLength {
        return Err(BogusTextLength(counts.sizeText));
      }
      var rawText :- cursor.ReadBytes(counts.sizeText);
      var index := SplitTextureNames(rawText, counts.textureCount);
      SplitBoneNames(rawText, index, counts.boneCount);
      subMeshes := Resized(subMeshes, counts.subMeshCount, NewSubMesh);
      r := Ok(());
    }

    method ReadBonh() returns (r: Result<(), ImportError>)
      requires Valid()
      modifies this, cursor
      ensures Valid()
      ensures Outcome(r, State()) == BonhSection(cursor.fileContents, old(State()))
    {
      var version :- ReadVersion(BONH);
      r := ReadBoneEntries();
    }

    /** A (bone, parent, flags) entry for every bone. */
    method ReadBoneEntries() returns (r: Result<(), ImportError>)
      requires Valid()
      modifies this`boneInfos, cursor
      ensures Valid()
      ensures var e := BoneEntries(cursor.fileContents, old(cursor.readPosition), old(boneInfos), |old(boneInfos)|);
        match r
        case Ok(_) => e == Ok(Parsed(boneInfos, cursor.readPosition))
        case Err(error) => e == Err(error)
    {
      ghost var data, at, bones0 := cursor.fileContents, cursor.readPosition, boneInfos;
      var b := 0;
      while b < |boneInfos|
        invariant Valid() && |boneInfos| == |bones0| && b <= |bones0|
        invariant BoneEntries(data, at, bones0, b) == Ok(Parsed(boneInfos, cursor.readPosition))
      {
        var entry := ReadBoneStep(at, bones0, b);
        if entry.Err? {
          return Err(entry.error);
        }
        b := b + 1;
      }
      r := Ok(());
    }

    /** One more BONH entry extends the entries read so far, or fails them all. */
    method ReadBoneStep(ghost at: nat, ghost bones0: seq<BoneInfo>, ghost b: nat) returns (r: Result<(), ImportError>)
      requires Valid() && b < |bones0|
      requires BoneEntries(cursor.fileContents, at, bones0, b) == Ok(Parsed(boneInfos, cursor.readPosition))
      modifies this`boneInfos, cursor
      ensures Valid()
      ensures r.Ok? ==> BoneEntries(cursor.fileContents, at, bones0, b + 1) == Ok(Parsed(boneInfos, cursor.readPosition))
      ensures r.Err? ==> BoneEntries(cursor.fileContents, at, bones0, |bones0|) == Err(r.error)
    {
      r := ReadBoneEntry();
      if r.Err? {
        BoneEntriesFailurePersists(cursor.fileContents, at, bones0, b + 1, |bones0|);
      }
    }

    method ReadBoneEntry() returns (r: Result<(), ImportError>)
      requires Valid()
      modifies this`boneInfos, cursor
      ensures Valid()
      ensures match r
        case Ok(_) => BoneEntryAt(cursor.fileContents, old(cursor.readPosition), old(boneInfos)) == Ok(Parsed(boneInfos, cursor.readPosition))
        case Err(e) => BoneEntryAt(cursor.fileContents, old(cursor.readPosition), old(boneInfos)) == Err(e)
    {
      var boneIndex :- cursor.ReadU32();
      var parentIndex :- cursor.ReadU32();
      var boneFlags :- cursor.ReadU32();
      if boneIndex >= |boneInfos| {
        return Err(BoneIndexOutOfRange(boneIndex));
      }
      boneInfos := boneInfos[boneIndex := boneInfos[boneIndex].(parentIndex := parentIndex, flags := boneFlags)];
      r := Ok(());
    }

    method ReadBsub() returns (r: Result<(), ImportError>)
      requires Valid()
      modifies this, cursor
      ensures Valid()
      ensures Outcome(r, State()) == BsubSection(cursor.fileContents, old(State()))
    {
      var version :- ReadVersion(BSUB);
      var stored :- cursor.ReadU32();
      currentSubMeshIndex := SubMeshIndex(version, stored);
      var textureCount :- cursor.ReadU32();
      if textureCount != |textureNames| {
        return Err(TextureCountMismatch(textureCount));
      }
      if currentSubMeshIndex >= |subMeshes| {
        return Err(SubMeshIndexOutOfRange(currentSubMeshIndex));
      }
      var vertexCount :- cursor.ReadU32();
      var cornerCount :- cursor.ReadU32();
      var faceCount :- cursor.ReadU32();
      var mesh := subMeshes[currentSubMeshIndex];
      subMeshes := subMeshes[currentSubMeshIndex :=
        mesh.(vertexCount := vertexCount, cornerCount := cornerCount, faceCount := faceCount)];
      r := Ok(());
    }

    method ReadMatInfo() returns (r: Result<MatInfo, ImportError>)
      requires Valid()
      modifies cursor
      ensures Valid()
      ensures Matches(r, cursor.readPosition, MatInfoAt(cursor.fileContents, old(cursor.readPosition)))
    {
      var textureIndex :- cursor.ReadU32();
      var faceSpan :- cursor.ReadU32();
      r := Ok(MatInfo(textureIndex, faceSpan));
    }

    method ReadCorner() returns (r: Result<CornerInfo, ImportError>)
      requires Valid()
      modifies cursor
      ensures Valid()
      ensures Matches(r, cursor.readPosition, CornerAt(cursor.fileContents, old(cursor.readPosition)))
    {
      var vtxIndex :- cursor.ReadU32();
      var normal :- cursor.ReadVec3();
      var color :- cursor.ReadColor();
      var unused :- cursor.ReadU32();
      var texCoord :- cursor.ReadTexCoord();
      r := Ok(CornerInfo(vtxIndex, normal, texCoord, color));
    }

    method ReadWCorner() returns (r: Result<WCornerInfo, ImportError>)
      requires Valid()
      modifies cursor
      ensures Valid()
      ensures Matches(r, cursor.readPosition, WCornerAt(cursor.fileContents, old(cursor.readPosition)))
    {
      var pos :- cursor.ReadVec3();
      var weight :- cursor.ReadVec4();
      var bone :- cursor.ReadColor();
      var normal :- cursor.ReadVec3();
      var color :- cursor.ReadColor();
      var texCoord :- cursor.ReadTexCoord();
      r := Ok(WCornerInfo(pos, normal, weight, texCoord, color, bone));
    }

    method ReadCornerRange() returns (r: Result<CornerRange, ImportError>)
      requires Valid()
      modifies cursor
      ensures Valid()
      ensures Matches(r, cursor.readPosition, CornerRangeAt(cursor.fileContents, old(cursor.readPosition)))
    {
      var start :- cursor.ReadU32();
      var span :- cursor.ReadU32();
      r := Ok(CornerRange(start, span));
    }

    method ReadTriIndex() returns (r: Result<TriIndex, ImportError>)
      requires Valid()
      modifies cursor
      ensures Valid()
      ensures Matches(r, cursor.readPosition, TriIndexAt(cursor.fileContents, old(cursor.readPosition)))
    {
      var i0 :- cursor.ReadU32();
      var i1 :- cursor.ReadU32();
      var i2 :- cursor.ReadU32();
      r := Ok(TriIndex(i0, i1, i2));
    }

    method ReadMatInfoStep(ghost at: nat, ghost i: nat, ghost n: nat, ghost items: seq<MatInfo>)
      returns (r: Result<MatInfo, ImportError>)
      requires Valid() && i < n
      requires Items(cursor.fileContents, at, i, MatInfoAt) == Ok(Parsed(items, cursor.readPosition))
      modifies cursor
      ensures Valid()
      ensures r.Ok? ==> Items(cursor.fileContents, at, i + 1, MatInfoAt) == Ok(Parsed(items + [r.value], cursor.readPosition))
      ensures r.Err? ==> Items(cursor.fileContents, at, n, MatInfoAt) == Err(r.error)
    {
      MatInfoAtAdvances();
      ItemsNext(cursor.fileContents, at, i, MatInfoAt, items, cursor.readPosition);
      r := ReadMatInfo();
      if r.Err? {
        ItemsFailurePersists(cursor.fileContents, at, i + 1, n, MatInfoAt);
      }
    }

    /** The BSMM material entries. */
    method ReadMatInfos(n: nat) returns (r: Result<seq<MatInfo>, ImportError>)
      requires Valid()
      modifies cursor
      ensures Valid()
      ensures Matches(r, cursor.readPosition, Items(cursor.fileContents, old(cursor.readPosition), n, MatInfoAt))
    {
      ghost var data, at := cursor.fileContents, cursor.readPosition;
      MatInfoAtAdvances();
      var items: seq<MatInfo> := [];
      var i := 0;
      while i < n
        invariant Valid() && i <= n
        invariant Items(data, at, i, MatInfoAt) == Ok(Parsed(items, cursor.readPosition))
      {
        var x := ReadMatInfoStep(at, i, n, items);
        if x.Err? {
          return Err(x.error);
        }
        items := items + [x.value];
        i := i + 1;
      }
      r := Ok(items);
    }

    method ReadPositionStep(ghost at: nat, ghost i: nat, ghost n: nat, ghost items: seq<Vec3>)
      returns (r: Result<Vec3, ImportError>)
      requires Valid() && i < n
      requires Items(cursor.fileContents, at, i, Vec3At) == Ok(Parsed(items, cursor.readPosition))
      modifies cursor
      ensures Valid()
      ensures r.Ok? ==> Items(cursor.fileContents, at, i + 1, Vec3At) == Ok(Parsed(items + [r.value], cursor.readPosition))
      ensures r.Err? ==> Items(cursor.fileContents, at, n, Vec3At) == Err(r.error)
    {
      Vec3AtAdvances();
      ItemsNext(cursor.fileContents, at, i, Vec3At, items, cursor.readPosition);
      r := cursor.ReadVec3();
      if r.Err? {
        ItemsFailurePersists(cursor.fileContents, at, i + 1, n, Vec3At);
      }
    }

    /** The BVTX positions. */
    method ReadPositions(n: nat) returns (r: Result<seq<Vec3>, ImportError>)
      requires Valid()
      modifies cursor
      ensures Valid()
      ensures Matches(r, cursor.readPosition, Items(cursor.fileContents, old(cursor.readPosition), n, Vec3At))
    {
      ghost var data, at := cursor.fileContents, cursor.readPosition;
      Vec3AtAdvances();
      var items: seq<Vec3> := [];
      var i := 0;
      while i < n
        invariant Valid() && i <= n
        invariant Items(data, at, i, Vec3At) == Ok(Parsed(items, cursor.readPosition))
      {
        var x := ReadPositionStep(at, i, n, items);
        if x.Err? {
          return Err(x.error);
        }
        items := items + [x.value];
        i := i + 1;
      }
      r := Ok(items);
    }

    /** One more WCRN corner extends the list read so far, or fails the
        whole list. */
    method ReadWCornerStep(ghost at: nat, ghost i: nat, ghost n: nat, ghost items: seq<WCornerInfo>)
      returns (r: Result<WCornerInfo, ImportError>)
      requires Valid() && i < n
      requires Items(cursor.fileContents, at, i, WCornerAt) == Ok(Parsed(items, cursor.readPosition))
      modifies cursor
      ensures Valid()
      ensures r.Ok? ==> Items(cursor.fileContents, at, i + 1, WCornerAt) == Ok(Parsed(items + [r.value], cursor.readPosition))
      ensures r.Err? ==> Items(cursor.fileContents, at, n, WCornerAt) == Err(r.error)
    {
      WCornerAtAdvances();
      ItemsNext(cursor.fileContents, at, i, WCornerAt, items, cursor.readPosition);
      r := ReadWCorner();
      if r.Err? {
        ItemsFailurePersists(cursor.fileContents, at, i + 1, n, WCornerAt);
      }
    }

    /** The WCRN corners. */
    method ReadWCorners(n: nat) returns (r: Result<seq<WCornerInfo>, ImportError>)
      requires Valid()
      modifies cursor
      ensures Valid()
      ensures Matches(r, cursor.readPosition, Items(cursor.fileContents, old(cursor.readPosition), n, WCornerAt))
    {
      ghost var data, at := cursor.fileContents, cursor.readPosition;
      WCornerAtAdvances();
      var items: seq<WCornerInfo> := [];
      var i := 0;
      while i < n
        invariant Valid() && i <= n
        invariant Items(data, at, i, WCornerAt) == Ok(Parsed(items, cursor.readPosition))
      {
        var x := ReadWCornerStep(at, i, n, items);
        if x.Err? {
          return Err(x.error);
        }
        items := items + [x.value];
        i := i + 1;
      }
      r := Ok(items);
    }

    method ReadSpanStep(ghost at: nat, ghost i: nat, ghost n: nat, ghost items: seq<U32>)
      returns (r: Result<U32, ImportError>)
      requires Valid() && i < n
      requires Items(cursor.fileContents, at, i, U32At) == Ok(Parsed(items, cursor.readPosition))
      modifies cursor
      ensures Valid()
      ensures r.Ok? ==> Items(cursor.fileContents, at, i + 1, U32At) == Ok(Parsed(items + [r.value], cursor.readPosition))
      ensures r.Err? ==> Items(cursor.fileContents, at, n, U32At) == Err(r.error)
    {
      U32AtAdvances();
      ItemsNext(cursor.fileContents, at, i, U32At, items, cursor.readPosition);
      r := cursor.ReadU32();
      if r.Err? {
        ItemsFailurePersists(cursor.fileContents, at, i + 1, n, U32At);
      }
    }

    /** The BTRI version 2.2 corner spans. */
    method ReadSpans(n: nat) returns (r: Result<seq<U32>, ImportError>)
      requires Valid()
      modifies cursor
      ensures Valid()
      ensures Matches(r, cursor.readPosition, Items(cursor.fileContents, old(cursor.readPosition), n, U32At))
    {
      ghost var data, at := cursor.fileContents, cursor.readPosition;
      U32AtAdvances();
      var items: seq<U32> := [];
      var i := 0;
      while i < n
        invariant Valid() && i <= n
        invariant Items(data, at, i, U32At) == Ok(Parsed(items, cursor.readPosition))
      {
        var x := ReadSpanStep(at, i, n, items);
        if x.Err? {
          return Err(x.error);
        }
        items := items + [x.value];
        i := i + 1;
      }
      r := Ok(items);
    }

    method ReadCornerRangeStep(ghost at: nat, ghost i: nat, ghost n: nat, ghost items: seq<CornerRange>)
      returns (r: Result<CornerRange, ImportError>)
      requires Valid() && i < n
      requires Items(cursor.fileContents, at, i, CornerRangeAt) == Ok(Parsed(items, cursor.readPosition))
      modifies cursor
      ensures Valid()
      ensures r.Ok? ==> Items(cursor.fileContents, at, i + 1, CornerRangeAt) == Ok(Parsed(items + [r.value], cursor.readPosition))
      ensures r.Err? ==> Items(cursor.fileContents, at, n, CornerRangeAt) == Err(r.error)
    {
      CornerRangeAtAdvances();
      ItemsNext(cursor.fileContents, at, i, CornerRangeAt, items, cursor.readPosition);
      r := ReadCornerRange();
      if r.Err? {
        ItemsFailurePersists(cursor.fileContents, at, i + 1, n, CornerRangeAt);
      }
    }

    /** The BTRI (start, span) pairs. */
    method ReadCornerRanges(n: nat) returns (r: Result<seq<CornerRange>, ImportError>)
      requires Valid()
      modifies cursor
      ensures Valid()
      ensures Matches(r, cursor.readPosition, Items(cursor.fileContents, old(cursor.readPosition), n, CornerRangeAt))
    {
      ghost var data, at := cursor.fileContents, cursor.readPosition;
      CornerRangeAtAdvances();
      var items: seq<CornerRange> := [];
      var i := 0;
      while i < n
        invariant Valid() && i <= n
        invariant Items(data, at, i, CornerRangeAt) == Ok(Parsed(items, cursor.readPosition))
      {
        var x := ReadCornerRangeStep(at, i, n, items);
        if x.Err? {
          return Err(x.error);
        }
        items := items + [x.value];
        i := i + 1;
      }
      r := Ok(items);
    }

    method ReadTriIndexStep(ghost at: nat, ghost i: nat, ghost n: nat, ghost items: seq<TriIndex>)
      returns (r: Result<TriIndex, ImportError>)
      requires Valid() && i < n
      requires Items(cursor.fileContents, at, i, TriIndexAt) == Ok(Parsed(items, cursor.readPosition))
      modifies cursor
      ensures Valid()
      ensures r.Ok? ==> Items(cursor.fileContents, at, i + 1, TriIndexAt) == Ok(Parsed(items + [r.value], cursor.readPosition))
      ensures r.Err? ==> Items(cursor.fileContents, at, n, TriIndexAt) == Err(r.error)
    {
      TriIndexAtAdvances();
      ItemsNext(cursor.fileContents, at, i, TriIndexAt, items, cursor.readPosition);
      r := ReadTriIndex();
      if r.Err? {
        ItemsFailurePersists(cursor.fileContents, at, i + 1, n, TriIndexAt);
      }
    }

    /** The BTRI triangles. */
    method ReadTriIndexes(n: nat) returns (r: Result<seq<TriIndex>, ImportError>)
      requires Valid()
      modifies cursor
      ensures Valid()
      ensures Matches(r, cursor.readPosition, Items(cursor.fileContents, old(cursor.readPosition), n, TriIndexAt))
    {
      ghost var data, at := cursor.fileContents, cursor.readPosition;
      TriIndexAtAdvances();
      var items: seq<TriIndex> := [];
      var i := 0;
      while i < n
        invariant Valid() && i <= n
        invariant Items(data, at, i, TriIndexAt) == Ok(Parsed(items, cursor.readPosition))
      {
        var x := ReadTriIndexStep(at, i, n, items);
        if x.Err? {
          return Err(x.error);
        }
        items := items + [x.value];
        i := i + 1;
      }
      r := Ok(items);
    }

    /** The BCRN corners, each vertex index above the position count clamped
        to the last position, as written. */
    method ReadCorners(n: nat, size: nat) returns (r: Result<seq<CornerInfo>, ImportError>)
      requires Valid()
      modifies cursor
      ensures Valid()
      ensures var spec := Items(cursor.fileContents, old(cursor.readPosition), n, CornerAt);
        match r
        case Ok(corners) => spec.Ok? && spec.value.next == cursor.readPosition && corners == ClampedCorners(spec.value.value, size)
        case Err(e) => spec == Err(e)
    {
      ghost var data, at := cursor.fileContents, cursor.readPosition;
      CornerAtAdvances();
      ghost var raw: seq<CornerInfo> := [];
      var corners: seq<CornerInfo> := [];
      var c := 0;
      while c < n
        invariant Valid() && c <= n
        invariant Items(data, at, c, CornerAt) == Ok(Parsed(raw, cursor.readPosition))
        invariant corners == ClampedCorners(raw, size)
      {
        ItemsNext(data, at, c, CornerAt, raw, cursor.readPosition);
        var corner := ReadCorner();
        if corner.Err? {
          ItemsFailurePersists(data, at, c + 1, n, CornerAt);
          return Err(corner.error);
        }
        assert (raw + [corner.value])[..|raw|] == raw;
        raw := raw + [corner.value];
        corners := corners + [corner.value.(vtxIndex := ClampIndexAsWritten(corner.value.vtxIndex, size))];
        c := c + 1;
      }
      r := Ok(corners);
    }

    /** The INFO strings of BEND, read and dropped. */
    method SkipInfoStrings(n: nat) returns (r: Result<(), ImportError>)
      requires Valid()
      modifies cursor
      ensures Valid()
      ensures var spec := Items(cursor.fileContents, old(cursor.readPosition), n, CStringAt);
        match r
        case Ok(_) => spec.Ok? && spec.value.next == cursor.readPosition
        case Err(e) => spec == Err(e)
    {
      ghost var data, at := cursor.fileContents, cursor.readPosition;
      CStringAtAdvances();
      ghost var infos: seq<Text> := [];
      var i := 0;
      while i < n
        invariant Valid() && i <= n
        invariant Items(data, at, i, CStringAt) == Ok(Parsed(infos, cursor.readPosition))
      {
        ItemsNext(data, at, i, CStringAt, infos, cursor.readPosition);
        var info := cursor.ReadString();
        if info.Err? {
          ItemsFailurePersists(data, at, i + 1, n, CStringAt);
          return Err(info.error);
        }
        infos := infos + [info.value];
        i := i + 1;
      }
      r := Ok(());
    }

    /** Version 2.2 corner starts: 0, then each start plus its span. */
    static method ComputeCornerStarts(spans: seq<U32>) returns (starts: seq<U32>)
      requires |spans| > 0
      ensures starts == CornerStarts(spans)
    {
      starts := [0];
      assert spans[..0] == [];
      var i := 0;
      while i < |spans| - 1
        invariant i < |spans| && |starts| == i + 1
        invariant forall j :: 0 <= j <= i ==> starts[j] == Wrap32(Sum(spans[..j]))
      {
        assert spans[..i + 1][..i] == spans[..i];
        Wrap32Add(Sum(spans[..i]), spans[i]);
        starts := starts + [Wrap32(starts[i] as int + spans[i])];
        i := i + 1;
      }
    }

    /** The per-texture corner starts and spans of BTRI. */
    method ReadFaceRanges(version: nat, mesh: SubMesh) returns (r: Result<(seq<U32>, seq<U32>), ImportError>)
      requires Valid()
      modifies cursor
      ensures Valid()
      ensures Matches(r, cursor.readPosition, CornerRanges(cursor.fileContents, old(cursor.readPosition), version, mesh))
    {
      if version == 22 {
        var spans :- ReadSpans(mesh.textureCount);
        if mesh.textureCount == 0 {
          return Err(NoCornerSpans);
        }
        var starts := ComputeCornerStarts(spans);
        r := Ok((starts, spans));
      } else if version > 22 {
        var ranges :- ReadCornerRanges(mesh.textureCount);
        r := Ok((Starts(ranges), Spans(ranges)));
      } else {
        r := Ok((seq(mesh.textureCount, _ => 0), seq(mesh.textureCount, _ => mesh.cornerCount)));
      }
    }

    method ReadBsmm() returns (r: Result<(), ImportError>)
      requires Valid()
      modifies this, cursor
      ensures Valid()
      ensures Outcome(r, State()) == BsmmSection(cursor.fileContents, old(State()))
    {
      var version :- ReadVersion(BSMM);
      if currentSubMeshIndex >= |subMeshes| {
        return Err(SubMeshIndexOutOfRange(currentSubMeshIndex));
      }
      var textureCount :- cursor.ReadU32();
      var matInfo :- ReadMatInfos(textureCount);
      var mesh := subMeshes[currentSubMeshIndex];
      subMeshes := subMeshes[currentSubMeshIndex := mesh.(textureCount := textureCount, matInfo := matInfo)];
      r := Ok(());
    }

    method ReadBvtx() returns (r: Result<(), ImportError>)
      requires Valid()
      modifies this, cursor
      ensures Valid()
      ensures Outcome(r, State()) == BvtxSection(cursor.fileContents, old(State()))
    {
      var version :- ReadVersion(BVTX);
      if currentSubMeshIndex >= |subMeshes| {
        return Err(SubMeshIndexOutOfRange(currentSubMeshIndex));
      }
      var mesh := subMeshes[currentSubMeshIndex];
      var count :- cursor.ReadU32();
      if mesh.vertexCount != count {
        return Err(VertexCountMismatch(count));
      }
      var positions :- ReadPositions(mesh.vertexCount);
      subMeshes := subMeshes[currentSubMeshIndex := mesh.(positions := positions)];
      r := Ok(());
    }

    method ReadBcrn() returns (r: Result<(), ImportError>)
      requires Valid()
      modifies this, cursor
      ensures Valid()
      ensures Outcome(r, State()) == BcrnSection(cursor.fileContents, old(State()))
    {
      var version :- ReadVersion(BCRN);
      if currentSubMeshIndex >= |subMeshes| {
        return Err(SubMeshIndexOutOfRange(currentSubMeshIndex));
      }
      var mesh := subMeshes[currentSubMeshIndex];
      var count :- cursor.ReadU32();
      if mesh.cornerCount != count {
        return Err(CornerCountMismatch(BCRN, count));
      }
      var corners :- ReadCorners(mesh.cornerCount, |mesh.positions|);
      subMeshes := subMeshes[currentSubMeshIndex := mesh.(corners := corners)];
      r := Ok(());
    }

    method ReadWcrn() returns (r: Result<(), ImportError>)
      requires Valid()
      modifies this, cursor
      ensures Valid()
      ensures Outcome(r, State()) == WcrnSection(cursor.fileContents, old(State()))
    {
      var version :- ReadVersion(WCRN);
      if currentSubMeshIndex >= |subMeshes| {
        return Err(SubMeshIndexOutOfRange(currentSubMeshIndex));
      }
      var mesh := subMeshes[currentSubMeshIndex];
      var count :- cursor.ReadU32();
      if mesh.cornerCount != count {
        return Err(CornerCountMismatch(WCRN, count));
      }
      var wCorners :- ReadWCorners(mesh.cornerCount);
      subMeshes := subMeshes[currentSubMeshIndex := mesh.(wCorners := wCorners)];
      r := Ok(());
    }

    method ReadBtri() returns (r: Result<(), ImportError>)
      requires Valid()
      modifies this, cursor
      ensures Valid()
      ensures Outcome(r, State()) == BtriSection(cursor.fileContents, old(State()))
    {
      var version :- ReadVersion(BTRI);
      if currentSubMeshIndex >= |subMeshes| {
        return Err(SubMeshIndexOutOfRange(currentSubMeshIndex));
      }
      var mesh := subMeshes[currentSubMeshIndex];
      var count :- cursor.ReadU32();
      if mesh.faceCount != count {
        return Err(FaceCountMismatch(count));
      }
      var ranges :- ReadFaceRanges(VersionOf(version), mesh);
      var cornerIndex :- ReadTriIndexes(mesh.faceCount);
      subMeshes := subMeshes[currentSubMeshIndex := mesh.(faceInfo := FaceInfo(ranges.0, ranges.1, cornerIndex))];
      r := Ok(());
    }

    method ReadVersionOnly(section: FourCC) returns (r: Result<(), ImportError>)
      requires Valid()
      modifies cursor
      ensures Valid()
      ensures Outcome(r, State()) == VersionOnlySection(cursor.fileContents, old(State()), section)
    {
      var version :- ReadVersion(section);
      r := Ok(());
    }

    method ReadBend() returns (r: Result<(), ImportError>)
      requires Valid()
      modifies cursor
      ensures Valid()
      ensures Outcome(r, State()) == BendSection(cursor.fileContents, old(State()))
    {
      var info := cursor.ReadFourCC();
      if info.None? || info.value != INFO {
        return Ok(());
      }
      var count :- cursor.ReadU32();
      r := SkipInfoStrings(count);
    }

    /** The handler of one chunk id. */
    method ReadChunk(chunk: Option<Chunk>) returns (r: Result<(), ImportError>)
      requires Valid()
      modifies this, cursor
      ensures Valid()
      ensures Outcome(r, State()) == ChunkSection(cursor.fileContents, chunk, old(State()))
    {
      match chunk
      case None => r := Ok(());
      case Some(Bmsh) => r := ReadBmsh();
      case Some(Bonh) => r := ReadBonh();
      case Some(Bsub) => r := ReadBsub();
      case Some(Bsmm) => r := ReadBsmm();
      case Some(Bvtx) => r := ReadBvtx();
      case Some(Bcrn) => r := ReadBcrn();
      case Some(Wcrn) => r := ReadWcrn();
      case Some(Bvmp) => r := ReadVersionOnly(BVMP);
      case Some(Btri) => r := ReadBtri();
      case Some(Bvwl) => r := ReadVersionOnly(BVWL);
      case Some(Stch) => r := ReadVersionOnly(STCH);
      case Some(Rpos) => r := ReadVersionOnly(RPOS);
      case Some(Bbox) => r := ReadVersionOnly(BBOX);
      case Some(Bend) => r := ReadBend();
    }

    /** importAspModel: dispatch on chunk ids until the data runs out. */
    method ImportAspModel() returns (r: Result<(), ImportError>)
      requires Valid()
      modifies this, cursor
      ensures Valid()
      ensures Outcome(r, State()) == ImportFrom(cursor.fileContents, old(State()))
    {
      while true
        invariant Valid()
        invariant ImportFrom(cursor.fileContents, State()) == ImportFrom(cursor.fileContents, old(State()))
        decreases |cursor.fileContents| - cursor.readPosition
      {
        ghost var before := State();
        var chunkId := cursor.ReadFourCC();
        if chunkId.None? {
          return Ok(());
        }
        r := ReadChunk(ChunkOf(chunkId.value));
        if r.Err? {
          return;
        }
      }
    }
  }
}
