// The SKN skin decoder (Skin::read), the submesh records it builds
// (Mesh::new) and the skin binder (Skin::apply_skeleton).
//
// `Decode` states, by byte offsets, what Skin::read yields for a buffer;
// `ReadData` is the cursor-driven reader, proved to compute exactly `Decode`.
// Every panic of the source (expect / panic!) is a `Failure` here.
// Line numbers in the comments refer to src/lol/skn.rs.

module Skn {
  import opened Bytes
  import opened Floats
  import opened Reader
  import Utf8

  const SIGNATURE: seq<Byte> := [0x33, 0x22, 0x11, 0x00]
  /** "Base", the name of the implicit submesh of a version-0 file. */
  const BASE_NAME: seq<Byte> := [0x42, 0x61, 0x73, 0x65]
  const NAME_SIZE := 64
  /** A submesh record: name, 8 reserved bytes, offset, count. */
  const HEADER_SIZE := 80
  /** A vertex record: position, influences, weights, normal, uv. */
  const VERTEX_SIZE := 52

  datatype DecodeError =
    | Truncated     // a read needed bytes beyond the end of the buffer
    | BadSignature  // the first four bytes are not 33 22 11 00
    | InvalidName   // a submesh name is not UTF-8

  /** A submesh name is kept as the bytes of the Rust String. */
  datatype SubMeshHeader = SubMeshHeader(name: seq<Byte>, indicesOffset: U32, indicesCount: U32, materialIndex: nat)

  datatype Mesh = Mesh(hash: U32, submesh: SubMeshHeader)

  datatype BoundingBox = BoundingBox(lo: Vec3, hi: Vec3)

  /** The f32 vector (lo + hi) / 2.0, left unevaluated: f32 arithmetic is not modelled. */
  datatype Centre = HalfSum(lo: Vec3, hi: Vec3)

  /** The fields of a Skin. */
  datatype SkinData = SkinData(
    major: U16,
    minor: U16,
    center: Centre,
    boundingBox: BoundingBox,
    vertices: seq<Vec3>,
    normals: seq<Vec3>,
    uvs: seq<Vec2>,
    influences: seq<U16Vec4>,
    weights: seq<Vec4>,
    indices: seq<U16>,
    meshes: seq<Mesh>)

  /** The part of lol::Skeleton the binder reads: palette slot -> joint index. */
  datatype Skeleton = Skeleton(influences: seq<U16>)

  /** Mesh::new, with the name hasher (lol::hasher::fnv1a) as a parameter. */
  function NewMesh(submesh: SubMeshHeader, hash: seq<Byte> -> U32): Mesh
  {
    Mesh(hash(submesh.name), submesh)
  }

  // ---------------------------------------------------------------------
  // Layout

  function Major(b: seq<Byte>): U16
    requires |b| >= 8
  {
    U16At(b, 4)
  }

  function Minor(b: seq<Byte>): U16
    requires |b| >= 8
  {
    U16At(b, 6)
  }

  /** Signature, version and (from version 1 on) the submesh count are all present. */
  predicate HasPrefix(b: seq<Byte>)
  {
    |b| >= 8 && b[..4] == SIGNATURE && (Major(b) > 0 ==> |b| >= 12)
  }

  /** The declared number of submesh records; none before version 1. */
  function SubmeshCount(b: seq<Byte>): U32
    requires HasPrefix(b)
  {
    if Major(b) > 0 then U32At(b, 8) else 0
  }

  /** Where submesh record k starts. */
  function HeaderAt(k: nat): nat
  {
    12 + HEADER_SIZE * k
  }

  /** Where the index and vertex counts are: after the table, and 4 reserved bytes in version 4. */
  function CountsAt(b: seq<Byte>): nat
    requires HasPrefix(b)
  {
    (if Major(b) > 0 then HeaderAt(SubmeshCount(b)) else 8) + (if Major(b) == 4 then 4 else 0)
  }

  /** Submesh record k's name bytes are present but are not UTF-8. */
  predicate BadNameAt(b: seq<Byte>, k: int)
    requires HasPrefix(b)
  {
    0 <= k < SubmeshCount(b) && HeaderAt(k) + NAME_SIZE <= |b|
    && !Utf8.IsWellFormed(b[HeaderAt(k)..HeaderAt(k) + NAME_SIZE])
  }

  /** None of the first n submesh names is present but not UTF-8. */
  predicate NamesValid(b: seq<Byte>, n: nat)
    requires HasPrefix(b)
  {
    n == 0 || (NamesValid(b, n - 1) && !BadNameAt(b, n - 1))
  }

  /** The counts (and, in version 4, the vertex type and the box) are present. */
  predicate HasCounts(b: seq<Byte>)
  {
    HasPrefix(b) && |b| >= CountsAt(b) + 8 && (Major(b) == 4 ==> |b| >= CountsAt(b) + 40)
  }

  function IndexCount(b: seq<Byte>): U32
    requires HasCounts(b)
  {
    U32At(b, CountsAt(b))
  }

  function VertexCount(b: seq<Byte>): U32
    requires HasCounts(b)
  {
    U32At(b, CountsAt(b) + 4)
  }

  /** Read only in version 4 (after 4 reserved bytes); 0 otherwise. */
  function VertexType(b: seq<Byte>): U32
    requires HasCounts(b)
  {
    if Major(b) == 4 then U32At(b, CountsAt(b) + 12) else 0
  }

  /** Version 4 puts 4 reserved bytes, the vertex type, the box and 16 reserved bytes before the indices. */
  function IndicesAt(b: seq<Byte>): nat
    requires HasCounts(b)
  {
    CountsAt(b) + 8 + (if Major(b) == 4 then 48 else 0)
  }

  function VerticesAt(b: seq<Byte>): nat
    requires HasCounts(b)
  {
    IndicesAt(b) + 2 * IndexCount(b)
  }

  /** Where vertex k starts, relative to the first: 4 unused bytes follow each record when vt > 0. */
  function VertexOffset(vt: U32, k: nat): nat
  {
    VERTEX_SIZE * k + (if vt > 0 then 4 * k else 0)
  }

  function VertexAt(b: seq<Byte>, k: nat): nat
    requires HasCounts(b)
  {
    VerticesAt(b) + VertexOffset(VertexType(b), k)
  }

  /**
   * Where the last read of the file ends. The skips that follow it (the 16
   * reserved bytes of version 4, the 4 unused bytes after the last vertex)
   * never need to be present.
   */
  function ReadEnd(b: seq<Byte>): nat
    requires HasCounts(b)
  {
    if VertexCount(b) > 0 then VertexAt(b, VertexCount(b) - 1) + VERTEX_SIZE
    else if IndexCount(b) > 0 then VerticesAt(b)
    else CountsAt(b) + (if Major(b) == 4 then 40 else 8)
  }

  /** Everything Skin::read reads is present and well-formed. */
  predicate Decodable(b: seq<Byte>)
  {
    HasPrefix(b) && NamesValid(b, SubmeshCount(b)) && HasCounts(b) && |b| >= ReadEnd(b)
  }

  // ---------------------------------------------------------------------
  // Records

  /** The submesh record at b[at..]: the 64 name bytes without trailing NULs, then offset and count, stored as read. */
  function HeaderRecordAt(b: seq<Byte>, at: nat): SubMeshHeader
    requires at + HEADER_SIZE <= |b|
  {
    SubMeshHeader(Utf8.TrimNuls(b[at..at + NAME_SIZE]), U32At(b, at + 72), U32At(b, at + 76), 0)
  }

  function HeaderRecord(b: seq<Byte>, k: nat): SubMeshHeader
    requires HeaderAt(k) + HEADER_SIZE <= |b|
  {
    HeaderRecordAt(b, HeaderAt(k))
  }

  datatype VertexRecord = VertexRecord(position: Vec3, influence: U16Vec4, weight: Vec4, normal: Vec3, uv: Vec2)

  /** The 52-byte vertex record at b[at..]. */
  function VertexRecordAt(b: seq<Byte>, at: nat): VertexRecord
    requires at + VERTEX_SIZE <= |b|
  {
    VertexRecord(Vec3At(b, at), U16Vec4At(b, at + 12), Vec4At(b, at + 16), Vec3At(b, at + 32), Vec2At(b, at + 44))
  }

  /** The box before any vertex is seen (lines 113-114): f32::MAX below, f32::MIN above. */
  const EMPTY_BOX := BoundingBox(Splat(F32_MAX), Splat(F32_MIN))

  /** One step of the fold (lines 158-163): each axis of lo and hi moves to take in p. */
  function Grow(box: BoundingBox, p: Vec3): BoundingBox
  {
    BoundingBox(
      Vec3(Min(box.lo.x, p.x), Min(box.lo.y, p.y), Min(box.lo.z, p.z)),
      Vec3(Max(box.hi.x, p.x), Max(box.hi.y, p.y), Max(box.hi.z, p.z)))
  }

  /** The box folded from the positions, in order, starting from EMPTY_BOX. */
  function FoldBox(vs: seq<Vec3>): BoundingBox
  {
    if vs == [] then EMPTY_BOX else Grow(FoldBox(vs[..|vs| - 1]), vs[|vs| - 1])
  }

  /** The n u16 indices stored from b[at..]. */
  function IndexSeq(b: seq<Byte>, at: nat, n: nat): (r: seq<U16>)
    requires n > 0 ==> at + 2 * n <= |b|
    ensures |r| == n
  {
    if n == 0 then [] else IndexSeq(b, at, n - 1) + [U16At(b, at + 2 * (n - 1))]
  }

  /** The n vertex records stored from b[at..], vt selecting their spacing. */
  function RecordSeq(b: seq<Byte>, at: nat, vt: U32, n: nat): (r: seq<VertexRecord>)
    requires n > 0 ==> at + VertexOffset(vt, n - 1) + VERTEX_SIZE <= |b|
    ensures |r| == n
  {
    if n == 0 then [] else RecordSeq(b, at, vt, n - 1) + [VertexRecordAt(b, at + VertexOffset(vt, n - 1))]
  }

  /** The n submesh records of the table, in file order. */
  function HeaderSeq(b: seq<Byte>, n: nat): (r: seq<SubMeshHeader>)
    requires HeaderAt(n) <= |b|
    ensures |r| == n
  {
    if n == 0 then [] else HeaderSeq(b, n - 1) + [HeaderRecord(b, n - 1)]
  }

  /** One mesh per submesh record, in the records' order. */
  function MeshSeq(headers: seq<SubMeshHeader>, hash: seq<Byte> -> U32): (r: seq<Mesh>)
    ensures |r| == |headers|
  {
    if headers == [] then [] else MeshSeq(headers[..|headers| - 1], hash) + [NewMesh(headers[|headers| - 1], hash)]
  }

  /** Everything Build reads lies inside the buffer. */
  lemma BuildFits(b: seq<Byte>)
    requires HasCounts(b) && |b| >= ReadEnd(b)
    ensures IndexCount(b) > 0 ==> IndicesAt(b) + 2 * IndexCount(b) <= |b|
    ensures VertexCount(b) > 0 ==> VerticesAt(b) + VertexOffset(VertexType(b), VertexCount(b) - 1) + VERTEX_SIZE <= |b|
    ensures HeaderAt(SubmeshCount(b)) <= |b|
    ensures Major(b) == 4 ==> CountsAt(b) + 40 <= |b|
  {
  }

  lemma ProjectionsAppend(records: seq<VertexRecord>, r: VertexRecord)
    ensures Positions(records + [r]) == Positions(records) + [r.position]
    ensures Influences(records + [r]) == Influences(records) + [r.influence]
    ensures Weights(records + [r]) == Weights(records) + [r.weight]
    ensures Normals(records + [r]) == Normals(records) + [r.normal]
    ensures Uvs(records + [r]) == Uvs(records) + [r.uv]
  {
  }

  lemma RecordSeqAppend(b: seq<Byte>, at: nat, vt: U32, n: nat)
    requires at + VertexOffset(vt, n) + VERTEX_SIZE <= |b|
    ensures RecordSeq(b, at, vt, n + 1) == RecordSeq(b, at, vt, n) + [VertexRecordAt(b, at + VertexOffset(vt, n))]
  {
  }

  /** The vertex records of a decodable buffer. */
  function Records(b: seq<Byte>): (r: seq<VertexRecord>)
    requires HasCounts(b) && |b| >= ReadEnd(b)
    ensures |r| == VertexCount(b)
  {
    BuildFits(b);
    RecordSeq(b, VerticesAt(b), VertexType(b), VertexCount(b))
  }

  /** The arrays of the skin, in the order the file stores them. */
  datatype Geometry = Geometry(
    indices: seq<U16>,
    vertices: seq<Vec3>,
    influences: seq<U16Vec4>,
    weights: seq<Vec4>,
    normals: seq<Vec3>,
    uvs: seq<Vec2>)

  /** The index array and the vertex records of a decodable buffer, split into arrays. */
  function GeometryOf(b: seq<Byte>): Geometry
    requires HasCounts(b) && |b| >= ReadEnd(b)
  {
    BuildFits(b);
    var records := Records(b);
    Geometry(
      IndexSeq(b, IndicesAt(b), IndexCount(b)),
      Positions(records),
      Influences(records),
      Weights(records),
      Normals(records),
      Uvs(records))
  }

  /** Version 4 stores the box; otherwise it is folded from the positions. */
  function Box(b: seq<Byte>): BoundingBox
    requires HasCounts(b) && |b| >= ReadEnd(b)
  {
    BuildFits(b);
    if Major(b) == 4 then BoundingBox(Vec3At(b, CountsAt(b) + 16), Vec3At(b, CountsAt(b) + 28))
    else FoldBox(GeometryOf(b).vertices)
  }

  /** One mesh per submesh record, or the single "Base" mesh of version 0. */
  function Meshes(b: seq<Byte>, hash: seq<Byte> -> U32): seq<Mesh>
    requires HasCounts(b) && |b| >= ReadEnd(b)
  {
    BuildFits(b);
    if Major(b) > 0 then MeshSeq(HeaderSeq(b, SubmeshCount(b)), hash)
    else [NewMesh(SubMeshHeader(BASE_NAME, 0, IndexCount(b), 0), hash)]
  }

  /** The struct literal that ends Skin::read (lines 165-166 and 189-201); the centre is (lo + hi) / 2. */
  function Assemble(major: U16, minor: U16, box: BoundingBox, g: Geometry, meshes: seq<Mesh>): SkinData
  {
    SkinData(major, minor, HalfSum(box.lo, box.hi), box, g.vertices, g.normals, g.uvs, g.influences, g.weights, g.indices, meshes)
  }

  /** The skin of a decodable buffer. */
  function Build(b: seq<Byte>, hash: seq<Byte> -> U32): SkinData
    requires HasCounts(b) && |b| >= ReadEnd(b)
  {
    Assemble(Major(b), Minor(b), Box(b), GeometryOf(b), Meshes(b, hash))
  }

  function Positions(records: seq<VertexRecord>): (r: seq<Vec3>)
    ensures |r| == |records|
  {
    if records == [] then [] else Positions(records[..|records| - 1]) + [records[|records| - 1].position]
  }

  function Normals(records: seq<VertexRecord>): (r: seq<Vec3>)
    ensures |r| == |records|
  {
    if records == [] then [] else Normals(records[..|records| - 1]) + [records[|records| - 1].normal]
  }

  function Uvs(records: seq<VertexRecord>): (r: seq<Vec2>)
    ensures |r| == |records|
  {
    if records == [] then [] else Uvs(records[..|records| - 1]) + [records[|records| - 1].uv]
  }

  function Influences(records: seq<VertexRecord>): (r: seq<U16Vec4>)
    ensures |r| == |records|
  {
    if records == [] then [] else Influences(records[..|records| - 1]) + [records[|records| - 1].influence]
  }

  function Weights(records: seq<VertexRecord>): (r: seq<Vec4>)
    ensures |r| == |records|
  {
    if records == [] then [] else Weights(records[..|records| - 1]) + [records[|records| - 1].weight]
  }

  /** Why Skin::read stops before the counts, if it does. */
  function HeadError(b: seq<Byte>): Option<DecodeError>
  {
    if |b| < 4 then Some(Truncated)
    else if b[..4] != SIGNATURE then Some(BadSignature)
    else if !HasPrefix(b) then Some(Truncated)
    else if !NamesValid(b, SubmeshCount(b)) then Some(InvalidName)
    else None
  }

  /** What Skin::read yields for the buffer b, failures included. */
  function Decode(b: seq<Byte>, hash: seq<Byte> -> U32): Result<SkinData, DecodeError>
  {
    if HeadError(b).Some? then Failure(HeadError(b).value)
    else if !HasCounts(b) || |b| < ReadEnd(b) then Failure(Truncated)
    else Success(Build(b, hash))
  }

  // ---------------------------------------------------------------------
  // The reader

  /** One submesh record (lines 74-98): 64 name bytes, 8 skipped bytes, offset, count. */
  method ReadSubmeshHeader(reader: Cursor) returns (r: Result<SubMeshHeader, DecodeError>)
    modifies reader
    ensures var at, b := old(reader.pos), reader.data;
      && (r.Success? <==> at + HEADER_SIZE <= |b| && Utf8.IsWellFormed(b[at..at + NAME_SIZE]))
      && (r.Success? ==> r.value == HeaderRecordAt(b, at) && reader.pos == at + HEADER_SIZE)
      && (r == Failure(InvalidName) <==> at + NAME_SIZE <= |b| && !Utf8.IsWellFormed(b[at..at + NAME_SIZE]))
      && (r.Failure? ==> r.error != BadSignature)
  {
    var name := reader.ReadExact(NAME_SIZE);
    if name.None? {
      return Failure(Truncated);
    }
    if !Utf8.IsWellFormed(name.value) {
      return Failure(InvalidName);
    }
    reader.SetPosition(reader.pos + 8);
    var offset := reader.ReadU32();
    if offset.None? {
      return Failure(Truncated);
    }
    var count := reader.ReadU32();
    if count.None? {
      return Failure(Truncated);
    }
    return Success(SubMeshHeader(Utf8.TrimNuls(name.value), offset.value, count.value, 0));
  }

  /** A bad name k makes every longer prefix of the table invalid. */
  lemma {:induction false} BadNameInvalidates(b: seq<Byte>, k: nat, m: nat)
    requires HasPrefix(b) && BadNameAt(b, k) && k < m
    ensures !NamesValid(b, m)
    decreases m
  {
    if m - 1 > k {
      BadNameInvalidates(b, k, m - 1);
    }
  }

  /** Once record k runs past the end with a good (or absent) name, no later name is present. */
  lemma {:induction false} NamesValidPastEnd(b: seq<Byte>, k: nat, m: nat)
    requires HasPrefix(b) && NamesValid(b, k + 1) && HeaderAt(k) + HEADER_SIZE > |b|
    requires k < m
    ensures NamesValid(b, m)
    decreases m
  {
    if m - 1 > k {
      NamesValidPastEnd(b, k, m - 1);
      assert HeaderAt(m - 1) + NAME_SIZE > |b|;
    }
  }

  /** The submesh table (lines 73-99): n records of 80 bytes from position 12. */
  method ReadSubmeshHeaders(reader: Cursor, n: U32) returns (r: Result<seq<SubMeshHeader>, DecodeError>)
    requires HasPrefix(reader.data) && Major(reader.data) > 0 && n == SubmeshCount(reader.data)
    requires reader.pos == HeaderAt(0)
    modifies reader
    ensures r.Success? ==>
      && HeaderAt(n) <= |reader.data| && reader.pos == HeaderAt(n)
      && NamesValid(reader.data, n) && r.value == HeaderSeq(reader.data, n)
    ensures r == Failure(InvalidName) <==> !NamesValid(reader.data, n)
    ensures r == Failure(Truncated) ==> HeaderAt(n) > |reader.data|
    ensures r != Failure(BadSignature)
  {
    var b := reader.data;
    var headers: seq<SubMeshHeader> := [];
    for k := 0 to n
      invariant reader.pos == HeaderAt(k) && HeaderAt(k) <= |b|
      invariant headers == HeaderSeq(b, k)
      invariant NamesValid(b, k)
    {
      var header := ReadSubmeshHeader(reader);
      if header.Failure? {
        if header.error == InvalidName {
          BadNameInvalidates(b, k, n);
        } else {
          NamesValidPastEnd(b, k, n);
        }
        return Failure(header.error);
      }
      assert header.value == HeaderRecord(b, k) && !BadNameAt(b, k);
      headers := headers + [header.value];
    }
    return Success(headers);
  }

  /** The index loop (lines 131-138): n little-endian u16 values. */
  method ReadIndices(reader: Cursor, n: U32) returns (ok: bool, indices: seq<U16>)
    modifies reader
    ensures ok <==> n == 0 || old(reader.pos) + 2 * n <= |reader.data|
    ensures ok ==> indices == IndexSeq(reader.data, old(reader.pos), n) && reader.pos == old(reader.pos) + 2 * n
  {
    var b, start := reader.data, reader.pos;
    indices := [];
    for k := 0 to n
      invariant reader.pos == start + 2 * k
      invariant k > 0 ==> start + 2 * k <= |b|
      invariant indices == IndexSeq(b, start, k)
    {
      var index := reader.ReadU16();
      if index.None? {
        return false, indices;
      }
      indices := indices + [index.value];
    }
    ok := true;
  }

  /** One vertex (lines 146-154): the 52-byte record, then 4 skipped bytes when vt > 0. */
  method ReadVertex(reader: Cursor, vt: U32) returns (r: Option<VertexRecord>)
    modifies reader
    ensures var at, b := old(reader.pos), reader.data;
      && (r.Some? <==> at + VERTEX_SIZE <= |b|)
      && (r.Some? ==> r.value == VertexRecordAt(b, at) && reader.pos == at + VertexOffset(vt, 1))
  {
    var position := reader.ReadVec3();
    if position.None? { return None; }
    var influence := reader.ReadVec4U8();
    if influence.None? { return None; }
    var weight := reader.ReadVec4();
    if weight.None? { return None; }
    var normal := reader.ReadVec3();
    if normal.None? { return None; }
    var uv := reader.ReadVec2();
    if uv.None? { return None; }
    if vt > 0 {
      reader.SetPosition(reader.pos + 4);
    }
    return Some(VertexRecord(position.value, influence.value, weight.value, normal.value, uv.value));
  }

  /** The vertex loop (lines 140-155): n records, each followed by 4 skipped bytes when vt > 0. */
  method ReadVertices(reader: Cursor, n: U32, vt: U32)
    returns (ok: bool, vertices: seq<Vec3>, influences: seq<U16Vec4>, weights: seq<Vec4>, normals: seq<Vec3>, uvs: seq<Vec2>)
    modifies reader
    ensures ok <==> n == 0 || old(reader.pos) + VertexOffset(vt, n - 1) + VERTEX_SIZE <= |reader.data|
    ensures ok ==>
      var records := RecordSeq(reader.data, old(reader.pos), vt, n);
      && vertices == Positions(records) && influences == Influences(records) && weights == Weights(records)
      && normals == Normals(records) && uvs == Uvs(records)
  {
    var b, start := reader.data, reader.pos;
    vertices, influences, weights, normals, uvs := [], [], [], [], [];
    ghost var records: seq<VertexRecord> := [];
    for k := 0 to n
      invariant reader.pos == start + VertexOffset(vt, k)
      invariant k > 0 ==> start + VertexOffset(vt, k - 1) + VERTEX_SIZE <= |b|
      invariant records == RecordSeq(b, start, vt, k)
      invariant vertices == Positions(records) && influences == Influences(records) && weights == Weights(records)
      invariant normals == Normals(records) && uvs == Uvs(records)
    {
      var record := ReadVertex(reader, vt);
      if record.None? {
        return false, vertices, influences, weights, normals, uvs;
      }
      vertices := vertices + [record.value.position];
      influences := influences + [record.value.influence];
      weights := weights + [record.value.weight];
      normals := normals + [record.value.normal];
      uvs := uvs + [record.value.uv];
      ProjectionsAppend(records, record.value);
      RecordSeqAppend(b, start, vt, k);
      records := records + [record.value];
    }
    ok := true;
  }

  /** The bounding-box fold (lines 157-164), from the sentinels of lines 113-114. */
  method FoldBounds(vertices: seq<Vec3>) returns (bbmin: Vec3, bbmax: Vec3)
    ensures BoundingBox(bbmin, bbmax) == FoldBox(vertices)
  {
    bbmin, bbmax := Splat(F32_MAX), Splat(F32_MIN);
    for v := 0 to |vertices|
      invariant BoundingBox(bbmin, bbmax) == FoldBox(vertices[..v])
    {
      var pos := vertices[v];
      assert vertices[..v + 1][..v] == vertices[..v];
      ghost var grown := Grow(BoundingBox(bbmin, bbmax), pos);
      for i := 0 to 3
        invariant forall a :: 0 <= a < i ==> bbmin.At(a) == grown.lo.At(a) && bbmax.At(a) == grown.hi.At(a)
        invariant forall a :: i <= a < 3 ==>
          bbmin.At(a) == FoldBox(vertices[..v]).lo.At(a) && bbmax.At(a) == FoldBox(vertices[..v]).hi.At(a)
      {
        bbmin := bbmin.With(i, Min(bbmin.At(i), pos.At(i)));
        bbmax := bbmax.With(i, Max(bbmax.At(i), pos.At(i)));
      }
      assert bbmin == Vec3(bbmin.At(0), bbmin.At(1), bbmin.At(2));
      assert bbmax == Vec3(bbmax.At(0), bbmax.At(1), bbmax.At(2));
    }
    assert vertices[..|vertices|] == vertices;
  }

  /** The version and submesh table of a file whose prefix has been read. */
  datatype Head = Head(major: U16, minor: U16, headers: seq<SubMeshHeader>)

  /** Signature, version and submesh table (lines 49-104). */
  method ReadHead(reader: Cursor) returns (r: Result<Head, DecodeError>)
    requires reader.pos == 0
    modifies reader
    ensures var b := reader.data;
      && (r.Failure? ==> HeadError(b) == Some(r.error) || (HeadError(b) == None && r.error == Truncated && Major(b) > 0 && HeaderAt(SubmeshCount(b)) > |b|))
      && (r.Success? ==>
        && HeadError(b) == None
        && r.value.major == Major(b) && r.value.minor == Minor(b)
        && reader.pos == CountsAt(b)
        && (Major(b) > 0 ==> HeaderAt(SubmeshCount(b)) <= |b| && r.value.headers == HeaderSeq(b, SubmeshCount(b))))
  {
    var b := reader.data;
    var signature := reader.ReadExact(4);
    if signature.None? {
      return Failure(Truncated);
    }
    if signature.value != SIGNATURE {
      return Failure(BadSignature);
    }
    var major := reader.ReadU16();
    if major.None? {
      return Failure(Truncated);
    }
    var minor := reader.ReadU16();
    if minor.None? {
      return Failure(Truncated);
    }
    assert major.value == Major(b) && minor.value == Minor(b);
    var headers: seq<SubMeshHeader> := [];
    if major.value > 0 {
      var count := reader.ReadU32();
      if count.None? {
        return Failure(Truncated);
      }
      var table := ReadSubmeshHeaders(reader, count.value);
      if table.Failure? {
        if table.error == Truncated {
          assert HeaderAt(SubmeshCount(b)) > |b|;
        }
        return Failure(table.error);
      }
      headers := table.value;
      if major.value == 4 {
        reader.SetPosition(reader.pos + 4);
      }
    }
    return Success(Head(major.value, minor.value, headers));
  }

  /** The counts, and in version 4 the vertex type and the stored box. */
  datatype Counts = Counts(indexCount: U32, vertexCount: U32, vertexType: U32, lo: Vec3, hi: Vec3)

  /** Lines 106-129: the box starts as the sentinels f32::MAX and f32::MIN unless the file stores one. */
  method ReadCounts(reader: Cursor, major: U16) returns (r: Option<Counts>)
    requires HasPrefix(reader.data) && major == Major(reader.data) && reader.pos == CountsAt(reader.data)
    modifies reader
    ensures var b := reader.data;
      && (r.Some? <==> HasCounts(b))
      && (r.Some? ==>
        && r.value.indexCount == IndexCount(b) && r.value.vertexCount == VertexCount(b)
        && r.value.vertexType == VertexType(b) && reader.pos == IndicesAt(b)
        && (major == 4 ==> r.value.lo == Vec3At(b, CountsAt(b) + 16) && r.value.hi == Vec3At(b, CountsAt(b) + 28))
        && (major != 4 ==> r.value.lo == Splat(F32_MAX) && r.value.hi == Splat(F32_MIN)))
  {
    var indicesCount := reader.ReadU32();
    if indicesCount.None? {
      return None;
    }
    var vertexCount := reader.ReadU32();
    if vertexCount.None? {
      return None;
    }
    var bbmin, bbmax := Splat(F32_MAX), Splat(F32_MIN);
    var vertexType: U32 := 0;
    if major == 4 {
      reader.SetPosition(reader.pos + 4);
      var vt := reader.ReadU32();
      if vt.None? {
        return None;
      }
      vertexType := vt.value;
      var lo := reader.ReadVec3();
      if lo.None? {
        return None;
      }
      var hi := reader.ReadVec3();
      if hi.None? {
        return None;
      }
      bbmin, bbmax := lo.value, hi.value;
      reader.SetPosition(reader.pos + 16);
    }
    return Some(Counts(indicesCount.value, vertexCount.value, vertexType, bbmin, bbmax));
  }

  /** Lines 168-173: one Mesh::new per submesh record. */
  method NewMeshes(headers: seq<SubMeshHeader>, hash: seq<Byte> -> U32) returns (meshes: seq<Mesh>)
    ensures meshes == MeshSeq(headers, hash)
  {
    meshes := [];
    for k := 0 to |headers|
      invariant meshes == MeshSeq(headers[..k], hash)
    {
      assert headers[..k + 1][..k] == headers[..k];
      meshes := meshes + [NewMesh(headers[k], hash)];
    }
    assert headers[..|headers|] == headers;
  }

  /** The index loop and the vertex loop (lines 131-155). */
  method ReadGeometry(reader: Cursor, c: Counts) returns (r: Option<Geometry>)
    requires HasCounts(reader.data) && reader.pos == IndicesAt(reader.data)
    requires c.indexCount == IndexCount(reader.data) && c.vertexCount == VertexCount(reader.data)
    requires c.vertexType == VertexType(reader.data)
    modifies reader
    ensures r.Some? <==> |reader.data| >= ReadEnd(reader.data)
    ensures r.Some? ==> r.value == GeometryOf(reader.data)
  {
    var ok, indices := ReadIndices(reader, c.indexCount);
    if !ok {
      return None;
    }
    assert reader.pos == VerticesAt(reader.data);
    var vertices, influences, weights, normals, uvs;
    ok, vertices, influences, weights, normals, uvs := ReadVertices(reader, c.vertexCount, c.vertexType);
    if !ok {
      return None;
    }
    return Some(Geometry(indices, vertices, influences, weights, normals, uvs));
  }

  /** The bounding box, centre and mesh list, then the struct literal (lines 157-201). */
  method Complete(head: Head, c: Counts, g: Geometry, hash: seq<Byte> -> U32, ghost b: seq<Byte>) returns (skin: SkinData)
    requires HasCounts(b) && |b| >= ReadEnd(b)
    requires head.major == Major(b) && head.minor == Minor(b)
    requires Major(b) > 0 ==> HeaderAt(SubmeshCount(b)) <= |b| && head.headers == HeaderSeq(b, SubmeshCount(b))
    requires c.indexCount == IndexCount(b)
    requires Major(b) == 4 ==> c.lo == Vec3At(b, CountsAt(b) + 16) && c.hi == Vec3At(b, CountsAt(b) + 28)
    requires g == GeometryOf(b)
    ensures skin == Build(b, hash)
  {
    var box := BoundingBox(c.lo, c.hi);
    if head.major != 4 {
      var bbmin, bbmax := FoldBounds(g.vertices);
      box := BoundingBox(bbmin, bbmax);
    }
    var meshes: seq<Mesh>;
    if head.major > 0 {
      meshes := NewMeshes(head.headers, hash);
    } else {
      meshes := [NewMesh(SubMeshHeader(BASE_NAME, 0, c.indexCount, 0), hash)];
    }
    assert box == Box(b) && meshes == Meshes(b, hash);
    skin := Assemble(head.major, head.minor, box, g, meshes);
  }

  /** Skin::read (lines 46-202). */
  method ReadData(contents: seq<Byte>, hash: seq<Byte> -> U32) returns (r: Result<SkinData, DecodeError>)
    ensures r == Decode(contents, hash)
  {
    var reader := new Cursor(contents);
    var head := ReadHead(reader);
    if head.Failure? {
      return Failure(head.error);
    }
    var counts := ReadCounts(reader, head.value.major);
    if counts.None? {
      return Failure(Truncated);
    }
    var g := ReadGeometry(reader, counts.value);
    if g.None? {
      return Failure(Truncated);
    }
    var skin := Complete(head.value, counts.value, g.value, hash, contents);
    return Success(skin);
  }

  // ---------------------------------------------------------------------
  // The skin object and the skin binder

  /** Every component of q is a valid index into a table of n entries. */
  predicate SlotsBelow(q: U16Vec4, n: nat)
  {
    q.x < n && q.y < n && q.z < n && q.w < n
  }

  predicate AllSlotsBelow(qs: seq<U16Vec4>, n: nat)
  {
    forall v | 0 <= v < |qs| :: SlotsBelow(qs[v], n)
  }

  /** Each component of q replaced by its entry in the table. */
  function RemapQuad(q: U16Vec4, table: seq<U16>): U16Vec4
    requires SlotsBelow(q, |table|)
  {
    U16Vec4(table[q.x], table[q.y], table[q.z], table[q.w])
  }

  /** Every influence remapped through the table. */
  function Remap(qs: seq<U16Vec4>, table: seq<U16>): (r: seq<U16Vec4>)
    requires AllSlotsBelow(qs, |table|)
    ensures |r| == |qs|
  {
    seq(|qs|, v requires 0 <= v < |qs| => RemapQuad(qs[v], table))
  }

  /** A decoded skin, with the fields Skin::apply_skeleton updates in place. */
  class Skin {
    var major: U16
    var minor: U16
    var center: Centre
    var boundingBox: BoundingBox
    var vertices: seq<Vec3>
    var normals: seq<Vec3>
    var uvs: seq<Vec2>
    var influences: seq<U16Vec4>
    var weights: seq<Vec4>
    var indices: seq<U16>
    var meshes: seq<Mesh>

    /** All fields, as a value. */
    function Value(): SkinData
      reads this
    {
      SkinData(major, minor, center, boundingBox, vertices, normals, uvs, influences, weights, indices, meshes)
    }

    constructor (d: SkinData)
      ensures Value() == d
    {
      major, minor, center, boundingBox := d.major, d.minor, d.center, d.boundingBox;
      vertices, normals, uvs := d.vertices, d.normals, d.uvs;
      influences, weights, indices, meshes := d.influences, d.weights, d.indices, d.meshes;
    }

    /** Skin::read: a fresh skin holding exactly what Decode yields. */
    static method Read(contents: seq<Byte>, hash: seq<Byte> -> U32) returns (r: Result<Skin, DecodeError>)
      ensures r.Success? <==> Decode(contents, hash).Success?
      ensures r.Success? ==> fresh(r.value) && r.value.Value() == Decode(contents, hash).value
      ensures r.Failure? ==> Decode(contents, hash) == Failure(r.error)
    {
      var d := ReadData(contents, hash);
      if d.Failure? {
        return Failure(d.error);
      }
      var skin := new Skin(d.value);
      return Success(skin);
    }

    /** Skin::apply_skeleton (lines 204-211): each component, x then y then z then w, looked up in the joint table. */
    method ApplySkeleton(skeleton: Skeleton)
      requires AllSlotsBelow(influences, |skeleton.influences|)
      modifies this
      ensures influences == Remap(old(influences), skeleton.influences)
      ensures Value() == old(Value()).(influences := influences)
    {
      var table := skeleton.influences;
      ghost var original := influences;
      var v := 0;
      while v < |influences|
        invariant 0 <= v <= |influences| == |original|
        invariant forall j | 0 <= j < v :: influences[j] == RemapQuad(original[j], table)
        invariant forall j | v <= j < |influences| :: influences[j] == original[j]
        invariant Value() == old(Value()).(influences := influences)
      {
        var q := influences[v];
        q := q.(x := table[q.x]);
        q := q.(y := table[q.y]);
        q := q.(z := table[q.z]);
        q := q.(w := table[q.w]);
        influences := influences[v := q];
        v := v + 1;
      }
    }
  }
}
