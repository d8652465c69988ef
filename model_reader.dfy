// The byte cursor of the two model importers (ASP and SNO): both read their
// file image through a `readPosition` with the same readBytes bounds test and
// build every field out of fixed-size reads, NUL-terminated strings and
// counted lists. Both throw siege::Exception; ImportError names its causes.
module ModelReader {
  import opened Wrappers
  import opened Bytes
  import opened HelperTypes

  /** A std::string, as the bytes it holds. */
  type Text = seq<Byte>

  /** The four bytes of a 32-bit float; no arithmetic is done on them. */
  type F32 = U32

  datatype Vec2 = Vec2(x: F32, y: F32)
  datatype Vec3 = Vec3(x: F32, y: F32, z: F32)
  datatype Vec4 = Vec4(x: F32, y: F32, z: F32, w: F32)
  datatype Vec4b = Vec4b(x: Byte, y: Byte, z: Byte, w: Byte)

  /** Why an import throws. */
  datatype ImportError =
    | ReadPastEnd
    | UnexpectedVersion(section: FourCC, version: U32)
    | BogusTextLength(length: U32)
    | TextureCountMismatch(count: U32)
    | VertexCountMismatch(count: U32)
    | CornerCountMismatch(section: FourCC, count: U32)
    | FaceCountMismatch(count: U32)
    | SubMeshIndexOutOfRange(index: U32)
    | BoneIndexOutOfRange(index: U32)
    | NoCornerSpans
    | BadMagic(magic: FourCC)
    | UnsupportedVersion(version: U32)
    | NoFilename
    | OpenFailed

  // ---------------------------------------------------------------------
  // Reads as functions of the file image and a position
  // ---------------------------------------------------------------------

  /** readBytes refuses a read at the very end of the data, even an empty
      one, and a read of more bytes than remain. */
  predicate CanRead(data: seq<Byte>, at: nat, n: nat)
  {
    at != |data| && at + n <= |data|
  }

  function BytesAt(data: seq<Byte>, at: nat, n: nat): (r: Result<Parsed<seq<Byte>>, ImportError>)
    ensures r.Ok? <==> CanRead(data, at, n)
    ensures r.Ok? ==> r.value.next == at + n && |r.value.value| == n
    ensures r.Err? ==> r.error == ReadPastEnd
  {
    if CanRead(data, at, n) then Ok(Parsed(data[at..at + n], at + n)) else Err(ReadPastEnd)
  }

  function U8At(data: seq<Byte>, at: nat): (r: Result<Parsed<Byte>, ImportError>)
    ensures r.Ok? <==> CanRead(data, at, 1)
    ensures r.Ok? ==> r.value.next == at + 1
  {
    var b :- BytesAt(data, at, 1);
    Ok(Parsed(b.value[0], b.next))
  }

  function U16At(data: seq<Byte>, at: nat): (r: Result<Parsed<U16>, ImportError>)
    ensures r.Ok? <==> CanRead(data, at, 2)
    ensures r.Ok? ==> r.value.next == at + 2
  {
    var b :- BytesAt(data, at, 2);
    Ok(Parsed(DecodeU16(b.value), b.next))
  }

  function U32At(data: seq<Byte>, at: nat): (r: Result<Parsed<U32>, ImportError>)
    ensures r.Ok? <==> CanRead(data, at, 4)
    ensures r.Ok? ==> r.value.next == at + 4
  {
    var b :- BytesAt(data, at, 4);
    Ok(Parsed(DecodeU32(b.value), b.next))
  }

  function DecodeVec2(b: seq<Byte>): Vec2
    requires |b| == 8
  {
    Vec2(DecodeU32(b[..4]), DecodeU32(b[4..]))
  }

  function DecodeVec3(b: seq<Byte>): Vec3
    requires |b| == 12
  {
    Vec3(DecodeU32(b[..4]), DecodeU32(b[4..8]), DecodeU32(b[8..]))
  }

  function DecodeVec4(b: seq<Byte>): Vec4
    requires |b| == 16
  {
    Vec4(DecodeU32(b[..4]), DecodeU32(b[4..8]), DecodeU32(b[8..12]), DecodeU32(b[12..]))
  }

  /** A texture coordinate: one 8-byte read. */
  function Vec2At(data: seq<Byte>, at: nat): (r: Result<Parsed<Vec2>, ImportError>)
    ensures r.Ok? <==> CanRead(data, at, 8)
    ensures r.Ok? ==> r.value.next == at + 8
  {
    var b :- BytesAt(data, at, 8);
    Ok(Parsed(DecodeVec2(b.value), b.next))
  }

  /** A position or normal: one 12-byte read. */
  function Vec3At(data: seq<Byte>, at: nat): (r: Result<Parsed<Vec3>, ImportError>)
    ensures r.Ok? <==> CanRead(data, at, 12)
    ensures r.Ok? ==> r.value.next == at + 12
  {
    var b :- BytesAt(data, at, 12);
    Ok(Parsed(DecodeVec3(b.value), b.next))
  }

  /** A weight vector: one 16-byte read. */
  function Vec4At(data: seq<Byte>, at: nat): (r: Result<Parsed<Vec4>, ImportError>)
    ensures r.Ok? <==> CanRead(data, at, 16)
    ensures r.Ok? ==> r.value.next == at + 16
  {
    var b :- BytesAt(data, at, 16);
    Ok(Parsed(DecodeVec4(b.value), b.next))
  }

  /** An RGBA colour or four bone bytes: one 4-byte read, kept in file order. */
  function Vec4bAt(data: seq<Byte>, at: nat): (r: Result<Parsed<Vec4b>, ImportError>)
    ensures r.Ok? <==> CanRead(data, at, 4)
    ensures r.Ok? ==> r.value.next == at + 4
  {
    var b :- BytesAt(data, at, 4);
    Ok(Parsed(Vec4b(b.value[0], b.value[1], b.value[2], b.value[3]), b.next))
  }

  /** readFourCC: None at the end of the data, without moving. */
  function FourCCAt(data: seq<Byte>, at: nat): (r: Option<Parsed<FourCC>>)
    ensures r.Some? <==> CanRead(data, at, 4)
    ensures r.Some? ==> r.value.next == at + 4
  {
    if CanRead(data, at, 4) then Some(Parsed(FourCCFromBytes(data[at..at + 4]), at + 4)) else None
  }

  predicate NoNul(s: seq<Byte>)
  {
    forall i :: 0 <= i < |s| ==> s[i] != 0
  }

  /** A string read one byte at a time up to and including its NUL; the
      bytes before the NUL are the value. Fails when the data ends first. */
  function CStringAt(data: seq<Byte>, at: nat): (r: Result<Parsed<Text>, ImportError>)
    ensures r.Ok? ==> r.value.next == at + |r.value.value| + 1 <= |data|
    decreases |data| - at
  {
    if !CanRead(data, at, 1) then Err(ReadPastEnd)
    else if data[at] == 0 then Ok(Parsed([], at + 1))
    else
      var rest :- CStringAt(data, at + 1);
      Ok(Parsed([data[at]] + rest.value, rest.next))
  }

  /** `r` with `prefix` in front of its value. */
  function Prefixed(prefix: Text, r: Result<Parsed<Text>, ImportError>): Result<Parsed<Text>, ImportError>
  {
    if r.Ok? then Ok(Parsed(prefix + r.value.value, r.value.next)) else r
  }

  /** A byte other than NUL is collected and the read goes on after it. */
  lemma CStringAtStep(data: seq<Byte>, at: nat)
    requires at < |data| && data[at] != 0
    ensures CStringAt(data, at) == Prefixed([data[at]], CStringAt(data, at + 1))
  {
  }

  lemma PrefixedTwice(a: Text, b: Text, r: Result<Parsed<Text>, ImportError>)
    ensures Prefixed(a, Prefixed(b, r)) == Prefixed(a + b, r)
  {
    if r.Ok? {
      assert a + (b + r.value.value) == (a + b) + r.value.value;
    }
  }

  /** Reading across NUL-free bytes only collects them. */
  lemma {:induction false} CStringAtSpan(data: seq<Byte>, at: nat, pos: nat)
    requires at <= pos <= |data| && NoNul(data[at..pos])
    ensures CStringAt(data, at) == Prefixed(data[at..pos], CStringAt(data, pos))
    decreases pos - at
  {
    if at < pos {
      SpanFront(data, at, pos);
      CStringAtSpan(data, at + 1, pos);
      PrefixedTwice([data[at]], data[at + 1..pos], CStringAt(data, pos));
    } else {
      PrefixedNil(CStringAt(data, pos));
      assert data[at..pos] == [];
    }
  }

  /** The first byte of a NUL-free span is collected, then the rest. */
  lemma SpanFront(data: seq<Byte>, at: nat, pos: nat)
    requires at < pos <= |data| && NoNul(data[at..pos])
    ensures NoNul(data[at + 1..pos]) && data[at..pos] == [data[at]] + data[at + 1..pos]
    ensures CStringAt(data, at) == Prefixed([data[at]], CStringAt(data, at + 1))
  {
    assert data[at] == data[at..pos][0];
    assert data[at + 1..pos] == data[at..pos][1..];
    CStringAtStep(data, at);
  }

  lemma PrefixedNil(r: Result<Parsed<Text>, ImportError>)
    ensures Prefixed([], r) == r
  {
    if r.Ok? {
      assert [] + r.value.value == r.value.value;
    }
  }

  /** A NUL-free string followed by its terminator reads back as itself. */
  lemma CStringRoundTrip(s: Text, rest: seq<Byte>)
    requires NoNul(s)
    ensures CStringAt(s + [0] + rest, 0) == Ok(Parsed(s, |s| + 1))
  {
    var data := s + [0] + rest;
    assert data[0..|s|] == s;
    CStringAtSpan(data, 0, |s|);
    assert data[|s|] == 0;
    assert s + [] == s;
  }

  /** A read that runs into the end of the data before a NUL fails. */
  lemma CStringUnterminated(s: Text)
    requires NoNul(s)
    ensures CStringAt(s, 0) == Err(ReadPastEnd)
  {
    assert s[0..|s|] == s;
    CStringAtSpan(s, 0, |s|);
  }

  // ---------------------------------------------------------------------
  // Counted lists
  // ---------------------------------------------------------------------

  /** Every successful read by `item` ends at or after where it started. */
  ghost predicate Advancing<T>(item: (seq<Byte>, nat) -> Result<Parsed<T>, ImportError>)
  {
    forall data, at :: item(data, at).Ok? ==> item(data, at).value.next >= at
  }

  // The readers of fixed-size values and of strings move forward.
  lemma U32AtAdvances() ensures Advancing(U32At) {}
  lemma Vec3AtAdvances() ensures Advancing(Vec3At) {}
  lemma CStringAtAdvances() ensures Advancing(CStringAt) {}

  /** `n` items read back to back from `at`, each by `item`; the first
      failure is the list's failure. */
  function Items<T>(data: seq<Byte>, at: nat, n: nat, item: (seq<Byte>, nat) -> Result<Parsed<T>, ImportError>)
    : (r: Result<Parsed<seq<T>>, ImportError>)
    requires Advancing(item)
    ensures r.Ok? ==> |r.value.value| == n && r.value.next >= at
  {
    if n == 0 then Ok(Parsed([], at))
    else
      var prev :- Items(data, at, n - 1, item);
      var x :- item(data, prev.next);
      Ok(Parsed(prev.value + [x.value], x.next))
  }

  /** One more item extends the list or fails it. */
  lemma ItemsNext<T>(data: seq<Byte>, at: nat, k: nat, item: (seq<Byte>, nat) -> Result<Parsed<T>, ImportError>,
                     items: seq<T>, pos: nat)
    requires Advancing(item) && Items(data, at, k, item) == Ok(Parsed(items, pos))
    ensures item(data, pos).Ok? ==>
      Items(data, at, k + 1, item) == Ok(Parsed(items + [item(data, pos).value.value], item(data, pos).value.next))
    ensures item(data, pos).Err? ==> Items(data, at, k + 1, item) == Err(item(data, pos).error)
  {
  }

  /** A list that fails after k items fails the same way for every longer count. */
  lemma {:induction false} ItemsFailurePersists<T>(data: seq<Byte>, at: nat, k: nat, n: nat,
                                                   item: (seq<Byte>, nat) -> Result<Parsed<T>, ImportError>)
    requires Advancing(item) && k <= n && Items(data, at, k, item).Err?
    ensures Items(data, at, n, item) == Err(Items(data, at, k, item).error)
    decreases n
  {
    if k < n {
      ItemsFailurePersists(data, at, k, n - 1, item);
    }
  }

  /** Each item of a successful list is what `item` reads at its place:
      item i starts where the first i items end. */
  lemma {:induction false} ItemsAreItems<T>(data: seq<Byte>, at: nat, n: nat,
                                           item: (seq<Byte>, nat) -> Result<Parsed<T>, ImportError>, i: nat)
    requires Advancing(item) && i < n && Items(data, at, n, item).Ok?
    ensures Items(data, at, i, item).Ok?
    ensures var p := Items(data, at, i, item).value.next;
      item(data, p).Ok? && item(data, p).value.value == Items(data, at, n, item).value.value[i]
    decreases n
  {
    var prev := Items(data, at, n - 1, item);
    assert prev.Ok?;
    if i < n - 1 {
      ItemsAreItems(data, at, n - 1, item, i);
    }
  }

  // ---------------------------------------------------------------------
  // std::vector::resize
  // ---------------------------------------------------------------------

  /** resize keeps the first n elements and pads with `fill`. */
  function Resized<T>(s: seq<T>, n: nat, fill: T): (r: seq<T>)
    ensures |r| == n
    ensures forall i :: 0 <= i < n ==> r[i] == if i < |s| then s[i] else fill
  {
    if n <= |s| then s[..n] else s + seq(n - |s|, _ => fill)
  }

  /** Test whether a read result agrees with its specification: the value at
      the new position, or the same error. */
  predicate Matches<T(==)>(r: Result<T, ImportError>, pos: nat, spec: Result<Parsed<T>, ImportError>)
  {
    match r
    case Ok(v) => spec == Ok(Parsed(v, pos))
    case Err(e) => spec == Err(e)
  }

  // ---------------------------------------------------------------------
  // The cursor
  // ---------------------------------------------------------------------

  /** The importer's file image and read position. */
  class ByteCursor {
    const fileContents: seq<Byte>
    var readPosition: nat

    /** The position never passes the end of the data. */
    ghost predicate Valid()
      reads this
    {
      readPosition <= |fileContents|
    }

    constructor (data: seq<Byte>)
      ensures Valid() && fileContents == data && readPosition == 0
    {
      fileContents := data;
      readPosition := 0;
    }

    /** readBytes: copies n bytes and advances by exactly n, or throws
        without moving. */
    method ReadBytes(n: nat) returns (r: Result<seq<Byte>, ImportError>)
      modifies this
      requires Valid()
      ensures Valid()
      ensures Matches(r, readPosition, BytesAt(fileContents, old(readPosition), n))
      ensures r.Ok? ==> r.value == fileContents[old(readPosition)..readPosition]
      ensures r.Err? ==> readPosition == old(readPosition)
    {
      if readPosition == |fileContents| || readPosition + n > |fileContents| {
        return Err(ReadPastEnd);
      }
      r := Ok(fileContents[readPosition..readPosition + n]);
      readPosition := readPosition + n;
    }

    method ReadU8() returns (r: Result<Byte, ImportError>)
      modifies this
      requires Valid()
      ensures Valid()
      ensures Matches(r, readPosition, U8At(fileContents, old(readPosition)))
    {
      var b :- ReadBytes(1);
      r := Ok(b[0]);
    }

    method ReadU16() returns (r: Result<U16, ImportError>)
      modifies this
      requires Valid()
      ensures Valid()
      ensures Matches(r, readPosition, U16At(fileContents, old(readPosition)))
    {
      var b :- ReadBytes(2);
      r := Ok(DecodeU16(b));
    }

    method ReadU32() returns (r: Result<U32, ImportError>)
      modifies this
      requires Valid()
      ensures Valid()
      ensures Matches(r, readPosition, U32At(fileContents, old(readPosition)))
    {
      var b :- ReadBytes(4);
      r := Ok(DecodeU32(b));
    }

    /** readF32: the float's four bytes, uninterpreted. */
    method ReadF32() returns (r: Result<F32, ImportError>)
      modifies this
      requires Valid()
      ensures Valid()
      ensures Matches(r, readPosition, U32At(fileContents, old(readPosition)))
    {
      var b :- ReadBytes(4);
      r := Ok(DecodeU32(b));
    }

    method ReadTexCoord() returns (r: Result<Vec2, ImportError>)
      modifies this
      requires Valid()
      ensures Valid()
      ensures Matches(r, readPosition, Vec2At(fileContents, old(readPosition)))
    {
      var b :- ReadBytes(8);
      r := Ok(DecodeVec2(b));
    }

    method ReadVec3() returns (r: Result<Vec3, ImportError>)
      modifies this
      requires Valid()
      ensures Valid()
      ensures Matches(r, readPosition, Vec3At(fileContents, old(readPosition)))
    {
      var b :- ReadBytes(12);
      r := Ok(DecodeVec3(b));
    }

    method ReadVec4() returns (r: Result<Vec4, ImportError>)
      modifies this
      requires Valid()
      ensures Valid()
      ensures Matches(r, readPosition, Vec4At(fileContents, old(readPosition)))
    {
      var b :- ReadBytes(16);
      r := Ok(DecodeVec4(b));
    }

    method ReadColor() returns (r: Result<Vec4b, ImportError>)
      modifies this
      requires Valid()
      ensures Valid()
      ensures Matches(r, readPosition, Vec4bAt(fileContents, old(readPosition)))
    {
      var b :- ReadBytes(4);
      r := Ok(Vec4b(b[0], b[1], b[2], b[3]));
    }

    /** readFourCC: false at the end of the data, and then the position stays. */
    method ReadFourCC() returns (r: Option<FourCC>)
      modifies this
      requires Valid()
      ensures Valid()
      ensures r.Some? <==> CanRead(fileContents, old(readPosition), 4)
      ensures r.Some? ==> FourCCAt(fileContents, old(readPosition)) == Some(Parsed(r.value, readPosition))
      ensures r.None? ==> readPosition == old(readPosition)
    {
      if readPosition == |fileContents| || readPosition + 4 > |fileContents| {
        return None;
      }
      r := Some(FourCCFromBytes(fileContents[readPosition..readPosition + 4]));
      readPosition := readPosition + 4;
    }

    /** readString: one byte at a time until the NUL, which is consumed. */
    method ReadString() returns (r: Result<Text, ImportError>)
      modifies this
      requires Valid()
      ensures Valid()
      ensures Matches(r, readPosition, CStringAt(fileContents, old(readPosition)))
    {
      var tmp: Text := [];
      ghost var start := readPosition;
      while true
        invariant start <= readPosition <= |fileContents|
        invariant fileContents[start..readPosition] == tmp && NoNul(tmp)
        decreases |fileContents| - readPosition
      {
        var c := ReadBytes(1);
        if c.Err? {
          CStringRunsOut(fileContents, start);
          return Err(c.error);
        }
        if c.value[0] == 0 {
          CStringEndsAtNul(fileContents, start, readPosition - 1);
          return Ok(tmp);
        }
        SpanGrows(fileContents, start, readPosition - 1);
        tmp := tmp + [c.value[0]];
      }
    }
  }

  /** A NUL-free span ended by a NUL is read as that span. */
  lemma CStringEndsAtNul(data: seq<Byte>, start: nat, p: nat)
    requires start <= p < |data| && NoNul(data[start..p]) && data[p] == 0
    ensures CStringAt(data, start) == Ok(Parsed(data[start..p], p + 1))
  {
    CStringAtSpan(data, start, p);
    assert data[start..p] + [] == data[start..p];
  }

  /** A NUL-free span that reaches the end of the data cannot be read. */
  lemma CStringRunsOut(data: seq<Byte>, start: nat)
    requires start <= |data| && NoNul(data[start..|data|])
    ensures CStringAt(data, start) == Err(ReadPastEnd)
  {
    CStringAtSpan(data, start, |data|);
  }

  /** A NUL-free span grows by a byte other than NUL. */
  lemma SpanGrows(data: seq<Byte>, start: nat, p: nat)
    requires start <= p < |data| && NoNul(data[start..p]) && data[p] != 0
    ensures NoNul(data[start..p + 1]) && data[start..p + 1] == data[start..p] + [data[p]]
  {
    assert data[start..p + 1] == data[start..p] + [data[p]];
  }
}
