// What Skin::read and Skin::apply_skeleton promise, stated over Decode (the
// byte-offset description that ReadData and Skin.Read are proved to compute)
// and over Remap (what Skin.ApplySkeleton is proved to compute).

module SknProperties {
  import opened Bytes
  import opened Floats
  import opened Reader
  import opened Skn
  import Utf8

  // ---------------------------------------------------------------------
  // Indexing the recursively built sequences

  lemma {:induction false} IndexSeqAt(b: seq<Byte>, at: nat, n: nat, k: nat)
    requires n > 0 ==> at + 2 * n <= |b|
    requires k < n
    ensures IndexSeq(b, at, n)[k] == U16At(b, at + 2 * k)
  {
    if k < n - 1 {
      IndexSeqAt(b, at, n - 1, k);
    }
  }

  lemma {:induction false} RecordSeqAt(b: seq<Byte>, at: nat, vt: U32, n: nat, k: nat)
    requires n > 0 ==> at + VertexOffset(vt, n - 1) + VERTEX_SIZE <= |b|
    requires k < n
    ensures at + VertexOffset(vt, k) + VERTEX_SIZE <= |b|
    ensures RecordSeq(b, at, vt, n)[k] == VertexRecordAt(b, at + VertexOffset(vt, k))
  {
    if k < n - 1 {
      RecordSeqAt(b, at, vt, n - 1, k);
    }
  }

  lemma {:induction false} HeaderSeqAt(b: seq<Byte>, n: nat, k: nat)
    requires HeaderAt(n) <= |b| && k < n
    ensures HeaderSeq(b, n)[k] == HeaderRecord(b, k)
  {
    if k < n - 1 {
      HeaderSeqAt(b, n - 1, k);
    }
  }

  lemma {:induction false} MeshSeqAt(headers: seq<SubMeshHeader>, hash: seq<Byte> -> U32, k: nat)
    requires k < |headers|
    ensures MeshSeq(headers, hash)[k] == NewMesh(headers[k], hash)
  {
    if k < |headers| - 1 {
      MeshSeqAt(headers[..|headers| - 1], hash, k);
    }
  }

  /** Each array holds, at v, the matching field of vertex record v. */
  lemma {:induction false} ProjectionsAt(records: seq<VertexRecord>, v: nat)
    requires v < |records|
    ensures Positions(records)[v] == records[v].position
    ensures Influences(records)[v] == records[v].influence
    ensures Weights(records)[v] == records[v].weight
    ensures Normals(records)[v] == records[v].normal
    ensures Uvs(records)[v] == records[v].uv
  {
    if v < |records| - 1 {
      ProjectionsAt(records[..|records| - 1], v);
    }
  }

  // ---------------------------------------------------------------------
  // Outcome of a decode

  /** The recursive name check is the check of every name. */
  lemma {:induction false} NamesValidMeans(b: seq<Byte>, n: nat)
    requires HasPrefix(b)
    ensures NamesValid(b, n) <==> forall k | 0 <= k < n :: !BadNameAt(b, k)
  {
    if n > 0 {
      NamesValidMeans(b, n - 1);
    }
  }

  /** A name among the first n checked ones is well-formed. */
  lemma {:induction false} NamesValidAt(b: seq<Byte>, n: nat, k: nat)
    requires HasPrefix(b) && NamesValid(b, n) && k < n <= SubmeshCount(b) && HeaderAt(k) + NAME_SIZE <= |b|
    ensures Utf8.IsWellFormed(b[HeaderAt(k)..HeaderAt(k) + NAME_SIZE])
  {
    if k < n - 1 {
      NamesValidAt(b, n - 1, k);
    }
  }

  /**
   * Skin::read succeeds exactly on buffers holding everything it reads; it
   * rejects a wrong signature, and a submesh name that is not UTF-8.
   */
  lemma DecodeOutcome(b: seq<Byte>, hash: seq<Byte> -> U32)
    ensures Decode(b, hash).Success? <==> Decodable(b)
    ensures Decode(b, hash).Success? ==> Decode(b, hash).value == Build(b, hash)
    ensures Decode(b, hash) == Failure(BadSignature) <==> |b| >= 4 && b[..4] != SIGNATURE
    ensures Decode(b, hash) == Failure(InvalidName) <==>
      HasPrefix(b) && exists k | 0 <= k < SubmeshCount(b) :: BadNameAt(b, k)
  {
    if HasPrefix(b) {
      NamesValidMeans(b, SubmeshCount(b));
    }
  }

  /** A decoded skin starts with the signature and keeps the two version words as read. */
  lemma VersionKept(b: seq<Byte>, hash: seq<Byte> -> U32)
    requires Decode(b, hash).Success?
    ensures |b| >= 8 && b[..4] == [0x33, 0x22, 0x11, 0x00]
    ensures Decode(b, hash).value.major == U16At(b, 4)
    ensures Decode(b, hash).value.minor == U16At(b, 6)
  {
  }

  /** Every array has the length its count declares. */
  lemma Lengths(b: seq<Byte>, hash: seq<Byte> -> U32)
    requires Decode(b, hash).Success?
    ensures var s := Decode(b, hash).value;
      && |s.indices| == IndexCount(b)
      && |s.vertices| == VertexCount(b) && |s.normals| == VertexCount(b) && |s.uvs| == VertexCount(b)
      && |s.influences| == VertexCount(b) && |s.weights| == VertexCount(b)
  {
  }

  /** Index k is the k-th little-endian u16 after the counts (and the version-4 block). */
  lemma IndexField(b: seq<Byte>, hash: seq<Byte> -> U32, k: nat)
    requires Decode(b, hash).Success? && k < IndexCount(b)
    ensures IndicesAt(b) + 2 * k + 2 <= |b|
    ensures Decode(b, hash).value.indices[k] == U16At(b, IndicesAt(b) + 2 * k)
  {
    assert Decode(b, hash).value.indices == GeometryOf(b).indices;
    GeometryIndex(b, k);
  }

  /** Index k of a decodable buffer. */
  lemma GeometryIndex(b: seq<Byte>, k: nat)
    requires HasCounts(b) && |b| >= ReadEnd(b) && k < IndexCount(b)
    ensures IndicesAt(b) + 2 * k + 2 <= |b|
    ensures GeometryOf(b).indices[k] == U16At(b, IndicesAt(b) + 2 * k)
  {
    BuildFits(b);
    IndexSeqAt(b, IndicesAt(b), IndexCount(b), k);
  }

  /**
   * Vertex v is the 52-byte record at VerticesAt(b) + 52 v, plus 4 v when the
   * vertex type is non-zero: position, influence bytes, weights, normal, uv.
   */
  lemma VertexFields(b: seq<Byte>, hash: seq<Byte> -> U32, v: nat)
    requires Decode(b, hash).Success? && v < VertexCount(b)
    ensures VertexAt(b, v) == VerticesAt(b) + 52 * v + (if VertexType(b) > 0 then 4 * v else 0)
    ensures VertexAt(b, v) + 52 <= |b|
    ensures var s, at := Decode(b, hash).value, VertexAt(b, v);
      && s.vertices[v] == Vec3At(b, at)
      && s.influences[v] == U16Vec4At(b, at + 12)
      && s.weights[v] == Vec4At(b, at + 16)
      && s.normals[v] == Vec3At(b, at + 32)
      && s.uvs[v] == Vec2At(b, at + 44)
  {
    var s := Decode(b, hash).value;
    assert s.vertices == GeometryOf(b).vertices && s.influences == GeometryOf(b).influences;
    assert s.weights == GeometryOf(b).weights && s.normals == GeometryOf(b).normals && s.uvs == GeometryOf(b).uvs;
    GeometryFields(b, v);
  }

  /** Vertex v of a decodable buffer, field by field. */
  lemma GeometryFields(b: seq<Byte>, v: nat)
    requires HasCounts(b) && |b| >= ReadEnd(b) && v < VertexCount(b)
    ensures VertexAt(b, v) + 52 <= |b|
    ensures var g, at := GeometryOf(b), VertexAt(b, v);
      && g.vertices[v] == Vec3At(b, at) && g.influences[v] == U16Vec4At(b, at + 12) && g.weights[v] == Vec4At(b, at + 16)
      && g.normals[v] == Vec3At(b, at + 32) && g.uvs[v] == Vec2At(b, at + 44)
  {
    RecordsAt(b, v);
    ProjectionsAt(Records(b), v);
  }

  lemma RecordsAt(b: seq<Byte>, v: nat)
    requires HasCounts(b) && |b| >= ReadEnd(b) && v < VertexCount(b)
    ensures VertexAt(b, v) + 52 <= |b|
    ensures Records(b)[v] == VertexRecordAt(b, VertexAt(b, v))
  {
    BuildFits(b);
    RecordSeqAt(b, VerticesAt(b), VertexType(b), VertexCount(b), v);
  }

  /** The vertex type is read only in version 4; version 4 also stores 4 reserved bytes after the table. */
  lemma VersionGatedLayout(b: seq<Byte>)
    requires HasCounts(b)
    ensures Major(b) != 4 ==> VertexType(b) == 0
    ensures Major(b) == 0 ==> CountsAt(b) == 8 && IndicesAt(b) == 16
    ensures 0 < Major(b) != 4 ==> CountsAt(b) == 12 + 80 * SubmeshCount(b) && IndicesAt(b) == CountsAt(b) + 8
    ensures Major(b) == 4 ==>
      && CountsAt(b) == 12 + 80 * SubmeshCount(b) + 4
      && VertexType(b) == U32At(b, CountsAt(b) + 12)
      && IndicesAt(b) == CountsAt(b) + 56
  {
  }

  // ---------------------------------------------------------------------
  // The mesh list

  /** Version 0 has no submesh table: one mesh "Base" covering every index, material 0. */
  lemma Version0Mesh(b: seq<Byte>, hash: seq<Byte> -> U32)
    requires Decode(b, hash).Success? && Major(b) == 0
    ensures var s := Decode(b, hash).value;
      && |s.meshes| == 1
      && s.meshes[0].submesh == SubMeshHeader([0x42, 0x61, 0x73, 0x65], 0, |s.indices|, 0)
      && s.meshes[0].hash == hash([0x42, 0x61, 0x73, 0x65])
  {
  }

  /**
   * From version 1 on, mesh k is the 80-byte record k of the table: the name,
   * the offset and the count as stored, material 0, and the hash of the name.
   */
  lemma SubmeshTable(b: seq<Byte>, hash: seq<Byte> -> U32, k: nat)
    requires Decode(b, hash).Success? && Major(b) > 0 && k < SubmeshCount(b)
    ensures |Decode(b, hash).value.meshes| == SubmeshCount(b)
    ensures var m, at := Decode(b, hash).value.meshes[k], 12 + 80 * k;
      && at + 80 <= |b|
      && m.submesh.name == Utf8.TrimNuls(b[at..at + 64])
      && m.submesh.indicesOffset == U32At(b, at + 72)
      && m.submesh.indicesCount == U32At(b, at + 76)
      && m.submesh.materialIndex == 0
      && m.hash == hash(m.submesh.name)
  {
    assert Decode(b, hash).value.meshes == Meshes(b, hash);
    MeshesAt(b, hash, k);
  }

  /** Mesh k of a decodable buffer with a submesh table. */
  lemma MeshesAt(b: seq<Byte>, hash: seq<Byte> -> U32, k: nat)
    requires HasCounts(b) && |b| >= ReadEnd(b) && Major(b) > 0 && k < SubmeshCount(b)
    ensures |Meshes(b, hash)| == SubmeshCount(b)
    ensures var m, at := Meshes(b, hash)[k], 12 + 80 * k;
      && at + 80 <= |b|
      && m.submesh.name == Utf8.TrimNuls(b[at..at + 64])
      && m.submesh.indicesOffset == U32At(b, at + 72)
      && m.submesh.indicesCount == U32At(b, at + 76)
      && m.submesh.materialIndex == 0
      && m.hash == hash(m.submesh.name)
  {
    MeshRecord(b, hash, k);
    assert Meshes(b, hash)[k].submesh == HeaderRecordAt(b, 12 + 80 * k);
  }

  lemma MeshRecord(b: seq<Byte>, hash: seq<Byte> -> U32, k: nat)
    requires HasCounts(b) && |b| >= ReadEnd(b) && Major(b) > 0 && k < SubmeshCount(b)
    ensures |Meshes(b, hash)| == SubmeshCount(b)
    ensures 12 + 80 * k + 80 <= |b|
    ensures Meshes(b, hash)[k] == NewMesh(HeaderRecordAt(b, 12 + 80 * k), hash)
  {
    BuildFits(b);
    var headers := HeaderSeq(b, SubmeshCount(b));
    HeaderSeqAt(b, SubmeshCount(b), k);
    MeshSeqAt(headers, hash, k);
  }

  /**
   * A stored name is the 64 name bytes with the trailing NULs stripped, and it
   * is well-formed UTF-8.
   */
  lemma SubmeshNames(b: seq<Byte>, hash: seq<Byte> -> U32, k: nat)
    requires Decode(b, hash).Success? && Major(b) > 0 && k < SubmeshCount(b)
    ensures var name, at := Decode(b, hash).value.meshes[k].submesh.name, 12 + 80 * k;
      at + 64 <= |b| && Utf8.StripsNuls(b[at..at + 64], name) && Utf8.IsWellFormed(name)
  {
    assert Decode(b, hash).value.meshes == Meshes(b, hash);
    BuildFits(b);
    NamesValidAt(b, SubmeshCount(b), k);
    MeshNames(b, hash, k);
  }

  lemma MeshNames(b: seq<Byte>, hash: seq<Byte> -> U32, k: nat)
    requires HasCounts(b) && |b| >= ReadEnd(b) && Major(b) > 0 && k < SubmeshCount(b)
    requires Utf8.IsWellFormed(b[12 + 80 * k..12 + 80 * k + 64])
    ensures var name, at := Meshes(b, hash)[k].submesh.name, 12 + 80 * k;
      at + 64 <= |b| && Utf8.StripsNuls(b[at..at + 64], name) && Utf8.IsWellFormed(name)
  {
    MeshRecord(b, hash, k);
    var name := Meshes(b, hash)[k].submesh.name;
    assert name == HeaderRecordAt(b, 12 + 80 * k).name;
    RecordName(b, 12 + 80 * k);
  }

  lemma RecordName(b: seq<Byte>, at: nat)
    requires at + 80 <= |b| && Utf8.IsWellFormed(b[at..at + 64])
    ensures Utf8.StripsNuls(b[at..at + 64], HeaderRecordAt(b, at).name)
    ensures Utf8.IsWellFormed(HeaderRecordAt(b, at).name)
  {
    assert HeaderRecordAt(b, at).name == Utf8.TrimNuls(b[at..at + 64]);
    Utf8.TrimNulsRemovesTrailingNuls(b[at..at + 64]);
    Utf8.TrimNulsKeepsWellFormed(b[at..at + 64]);
  }

  // ---------------------------------------------------------------------
  // Influences and the binder

  /** Every decoded influence component is a widened byte. */
  lemma InfluencesAreBytes(b: seq<Byte>, hash: seq<Byte> -> U32)
    requires Decode(b, hash).Success?
    ensures AllSlotsBelow(Decode(b, hash).value.influences, 256)
  {
    var s := Decode(b, hash).value;
    forall v | 0 <= v < |s.influences|
      ensures SlotsBelow(s.influences[v], 256)
    {
      VertexFields(b, hash, v);
    }
  }

  /** A skeleton with at least 256 joint slots can bind any decoded skin. */
  lemma DecodedSkinBindable(b: seq<Byte>, hash: seq<Byte> -> U32, skeleton: Skeleton)
    requires Decode(b, hash).Success? && |skeleton.influences| >= 256
    ensures AllSlotsBelow(Decode(b, hash).value.influences, |skeleton.influences|)
  {
    InfluencesAreBytes(b, hash);
  }

  /** The table that looks up in t, then in u. */
  function Compose(t: seq<U16>, u: seq<U16>): (r: seq<U16>)
    requires forall i | 0 <= i < |t| :: t[i] < |u|
    ensures |r| == |t|
    ensures forall i | 0 <= i < |t| :: r[i] == u[t[i]]
  {
    seq(|t|, i requires 0 <= i < |t| => u[t[i]])
  }

  /** Binding twice is binding once with the composed table. */
  lemma RemapComposes(qs: seq<U16Vec4>, t: seq<U16>, u: seq<U16>)
    requires AllSlotsBelow(qs, |t|)
    requires forall i | 0 <= i < |t| :: t[i] < |u|
    ensures AllSlotsBelow(Remap(qs, t), |u|)
    ensures Remap(Remap(qs, t), u) == Remap(qs, Compose(t, u))
  {
    var once := Remap(qs, t);
    forall v | 0 <= v < |once|
      ensures SlotsBelow(once[v], |u|)
    {
      assert once[v] == RemapQuad(qs[v], t);
    }
    var twice := Remap(once, u);
    forall v | 0 <= v < |qs|
      ensures twice[v] == Remap(qs, Compose(t, u))[v]
    {
      assert twice[v] == RemapQuad(once[v], u);
      assert once[v] == RemapQuad(qs[v], t);
    }
  }

  /** An identity table leaves the influences as they are. */
  lemma RemapIdentity(qs: seq<U16Vec4>, t: seq<U16>)
    requires AllSlotsBelow(qs, |t|)
    requires forall i | 0 <= i < |t| :: t[i] == i
    ensures Remap(qs, t) == qs
  {
    forall v | 0 <= v < |qs|
      ensures Remap(qs, t)[v] == qs[v]
    {
      assert Remap(qs, t)[v] == RemapQuad(qs[v], t);
    }
  }

  /** Binding is not idempotent: with the table [1, 0] a second binding undoes the first. */
  lemma RemapNotIdempotent()
    ensures var qs, t := [U16Vec4(0, 0, 0, 0)], [1, 0];
      AllSlotsBelow(Remap(qs, t), |t|) && Remap(Remap(qs, t), t) != Remap(qs, t)
  {
    var qs: seq<U16Vec4>, t: seq<U16> := [U16Vec4(0, 0, 0, 0)], [1, 0];
    assert Remap(qs, t)[0] == U16Vec4(1, 1, 1, 1);
    assert Remap(Remap(qs, t), t)[0] == U16Vec4(0, 0, 0, 0);
  }

  // ---------------------------------------------------------------------
  // Bounding box and centre

  /** The box is stored in version 4 and folded otherwise; the centre is taken between its corners. */
  lemma BoxAndCentre(b: seq<Byte>, hash: seq<Byte> -> U32)
    requires Decode(b, hash).Success?
    ensures var s := Decode(b, hash).value;
      && s.center == HalfSum(s.boundingBox.lo, s.boundingBox.hi)
      && (Major(b) == 4 ==>
            CountsAt(b) + 40 <= |b|
            && s.boundingBox == BoundingBox(Vec3At(b, CountsAt(b) + 16), Vec3At(b, CountsAt(b) + 28)))
      && (Major(b) != 4 ==> s.boundingBox == FoldBox(s.vertices))
  {
    BuildFits(b);
  }

  /** Folding never yields a NaN bound: it starts from f32::MAX and f32::MIN and f32::min/max ignore NaN. */
  lemma {:induction false} FoldBoxNotNaN(vs: seq<Vec3>, i: nat)
    requires i < 3
    ensures !IsNaN(FoldBox(vs).lo.At(i)) && !IsNaN(FoldBox(vs).hi.At(i))
  {
    if vs != [] {
      var pre := vs[..|vs| - 1];
      FoldBoxNotNaN(pre, i);
      MinIsLeast(FoldBox(pre).lo.At(i), vs[|vs| - 1].At(i));
      MaxIsGreatest(FoldBox(pre).hi.At(i), vs[|vs| - 1].At(i));
      assert FoldBox(vs).lo.At(i) == Min(FoldBox(pre).lo.At(i), vs[|vs| - 1].At(i));
      assert FoldBox(vs).hi.At(i) == Max(FoldBox(pre).hi.At(i), vs[|vs| - 1].At(i));
    }
  }

  /** Axis i of every non-NaN position lies between the folded corners. */
  lemma {:induction false} FoldBoxEncloses(vs: seq<Vec3>, i: nat)
    requires i < 3
    ensures forall v | 0 <= v < |vs| && !IsNaN(vs[v].At(i)) ::
      Rank(FoldBox(vs).lo.At(i)) <= Rank(vs[v].At(i)) <= Rank(FoldBox(vs).hi.At(i))
  {
    if vs != [] {
      var pre, p := vs[..|vs| - 1], vs[|vs| - 1];
      FoldBoxEncloses(pre, i);
      FoldBoxNotNaN(pre, i);
      var lo, hi := FoldBox(pre).lo.At(i), FoldBox(pre).hi.At(i);
      MinIsLeast(lo, p.At(i));
      MaxIsGreatest(hi, p.At(i));
      assert FoldBox(vs).lo.At(i) == Min(lo, p.At(i));
      assert FoldBox(vs).hi.At(i) == Max(hi, p.At(i));
      forall v | 0 <= v < |vs| && !IsNaN(vs[v].At(i))
        ensures Rank(FoldBox(vs).lo.At(i)) <= Rank(vs[v].At(i)) <= Rank(FoldBox(vs).hi.At(i))
      {
        if v < |pre| {
          assert vs[v] == pre[v];
        }
      }
    }
  }

  /** Each folded bound is its sentinel or the coordinate of some vertex: f32::min and f32::max return an operand. */
  lemma {:induction false} FoldBoxOrigin(vs: seq<Vec3>, i: nat)
    requires i < 3
    ensures FoldBox(vs).lo.At(i) == F32_MAX || exists v | 0 <= v < |vs| :: FoldBox(vs).lo.At(i) == vs[v].At(i)
    ensures FoldBox(vs).hi.At(i) == F32_MIN || exists v | 0 <= v < |vs| :: FoldBox(vs).hi.At(i) == vs[v].At(i)
  {
    if vs != [] {
      var pre, p := vs[..|vs| - 1], vs[|vs| - 1];
      FoldBoxOrigin(pre, i);
      var lo, hi := FoldBox(pre).lo.At(i), FoldBox(pre).hi.At(i);
      assert FoldBox(vs).lo.At(i) == Min(lo, p.At(i));
      assert FoldBox(vs).hi.At(i) == Max(hi, p.At(i));
      MinIsLeast(lo, p.At(i));
      MaxIsGreatest(hi, p.At(i));
      if FoldBox(vs).lo.At(i) != F32_MAX && FoldBox(vs).lo.At(i) != p.At(i) {
        var a :| 0 <= a < |pre| && lo == pre[a].At(i);
        assert pre[a] == vs[a];
      }
      if FoldBox(vs).hi.At(i) != F32_MIN && FoldBox(vs).hi.At(i) != p.At(i) {
        var c :| 0 <= c < |pre| && hi == pre[c].At(i);
        assert pre[c] == vs[c];
      }
    } else {
      assert FoldBox(vs) == EMPTY_BOX;
    }
  }

  /** Coordinates that are NaN or +infinity leave the lower sentinel in place; NaN or -infinity, the upper one. */
  lemma {:induction false} FoldBoxSentinelKept(vs: seq<Vec3>, i: nat)
    requires i < 3
    ensures (forall v | 0 <= v < |vs| :: IsNaN(vs[v].At(i)) || vs[v].At(i) == F32_INF) ==> FoldBox(vs).lo.At(i) == F32_MAX
    ensures (forall v | 0 <= v < |vs| :: IsNaN(vs[v].At(i)) || vs[v].At(i) == F32_NEG_INF) ==> FoldBox(vs).hi.At(i) == F32_MIN
  {
    if vs != [] {
      var pre, p := vs[..|vs| - 1], vs[|vs| - 1];
      FoldBoxSentinelKept(pre, i);
      assert FoldBox(vs).lo.At(i) == Min(FoldBox(pre).lo.At(i), p.At(i));
      assert FoldBox(vs).hi.At(i) == Max(FoldBox(pre).hi.At(i), p.At(i));
      assert forall v | 0 <= v < |pre| :: pre[v] == vs[v];
    } else {
      assert FoldBox(vs) == EMPTY_BOX;
    }
  }

  /**
   * The lower bound is the coordinate of some vertex exactly when some vertex's
   * coordinate is neither NaN nor +infinity; otherwise f32::MAX survives, and no
   * vertex has that value. Dually the upper bound and -infinity.
   */
  lemma FoldBoxAttained(vs: seq<Vec3>, i: nat)
    requires i < 3
    ensures (exists v | 0 <= v < |vs| :: FoldBox(vs).lo.At(i) == vs[v].At(i))
        <==> (exists v | 0 <= v < |vs| :: !IsNaN(vs[v].At(i)) && vs[v].At(i) != F32_INF)
    ensures (exists v | 0 <= v < |vs| :: FoldBox(vs).hi.At(i) == vs[v].At(i))
        <==> (exists v | 0 <= v < |vs| :: !IsNaN(vs[v].At(i)) && vs[v].At(i) != F32_NEG_INF)
  {
    FoldBoxOrigin(vs, i);
    FoldBoxSentinelKept(vs, i);
    FoldBoxEncloses(vs, i);
    var lo, hi := FoldBox(vs).lo.At(i), FoldBox(vs).hi.At(i);
    if v :| 0 <= v < |vs| && !IsNaN(vs[v].At(i)) && vs[v].At(i) != F32_INF {
      WithinSentinels(vs[v].At(i));
      if lo == F32_MAX {
        assert lo == vs[v].At(i);
      }
    }
    if v :| 0 <= v < |vs| && !IsNaN(vs[v].At(i)) && vs[v].At(i) != F32_NEG_INF {
      WithinSentinels(vs[v].At(i));
      if hi == F32_MIN {
        assert hi == vs[v].At(i);
      }
    }
  }

  /** With no vertex (and a version other than 4) the box stays at the sentinels f32::MAX and f32::MIN. */
  lemma EmptyBox(b: seq<Byte>, hash: seq<Byte> -> U32)
    requires Decode(b, hash).Success? && Major(b) != 4 && VertexCount(b) == 0
    ensures Decode(b, hash).value.boundingBox == BoundingBox(Splat(F32_MAX), Splat(F32_MIN))
  {
    BuildFits(b);
  }
}
