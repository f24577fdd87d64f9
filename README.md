# SKN skin decoder, skin binder and configuration normalisation

This project models two parts of a League of Legends model viewer.

**The SKN skin decoder and binder** (`src/lol/skn.rs`):
- `Skin::read` turns the bytes of a `.skn` file into a skin:
  - the version words;
  - one mesh per submesh record, each with the FNV-1a hash of its name;
  - the index array;
  - the vertex arrays: positions, bone-influence indices, weights, normals and texture coordinates;
  - a bounding box and its centre.
- `Skin::apply_skeleton` rewrites every bone-influence index through the skeleton's joint table.

**The configuration layer** (`src/config_json.rs`):
- `ConfigJson::read` falls back to `ConfigJson::new()` when the file cannot be opened, read or parsed. It pads the per-model `options` and `meshes` lists to the length of `paths`.
- `ConfigJson::write` copies the configuration, writes each model's selected animation into the copy, and rebuilds the mesh/texture table from the loaded models.

The decoder has two levels:
- `Skn.Decode` is a declarative description by byte offsets. It gives the skin for every buffer, or the reason `Skin::read` would panic.
- `Skn.ReadData` is the cursor-driven reader, written the way the source reads. It is proved to compute exactly `Decode`.

`Skn.Skin` is the object with its fields:
- `Read` builds a fresh `Skin` holding what `Decode` yields.
- `ApplySkeleton` updates `influences` in place and nothing else.

Properties of `Decode` and of the binder are proved in `SknProperties`.

Modules:
- `Bytes`: integers, little-endian words, `Option`/`Result`.
- `Floats`: `f32` as bit patterns, `f32::min`/`f32::max`.
- `Utf8`: `String::from_utf8` acceptance and `trim_end_matches('\0')`.
- `Reader`: `std::io::Cursor` with the byteorder/glam_read reads.
- `Skn`, `SknProperties` and `Config`.

Common descriptions of the SKN layout show a single reserved version-4 block before the counts. The model follows the code, which skips two:
- 4 reserved bytes right after the submesh table, before the two counts (src/lol/skn.rs:101-103);
- 4 more bytes before the vertex type (src/lol/skn.rs:119).

## Model

| member | source | states |
|---|---|---|
| `Floats.Min` | src/lol/skn.rs:160 | `f32::min` on bit patterns: a NaN operand is ignored, otherwise the operand of lower rank, the first on a tie. Its properties are stated by `MinIsLeast`. |
| `Floats.Max` | src/lol/skn.rs:161 | `f32::max` on bit patterns: a NaN operand is ignored, otherwise the operand of higher rank, the first on a tie. Its properties are stated by `MaxIsGreatest`. |
| `Floats.MinIsLeast` | src/lol/skn.rs:160 | `f32::min` returns one of its operands. It ignores a NaN operand, never returns NaN unless both are NaN, and otherwise returns the smaller value. |
| `Floats.MaxIsGreatest` | src/lol/skn.rs:161 | `f32::max` returns one of its operands. It ignores a NaN operand and otherwise returns the larger value. |
| `Floats.WithinSentinels` | src/lol/skn.rs:113-114 | Every value other than NaN and +infinity ranks at most `f32::MAX`, and only `f32::MAX` ranks equal to it. Every value other than NaN and -infinity ranks at least `f32::MIN`, and only `f32::MIN` ranks equal to it. |
| `Utf8.IsWellFormed` | src/lol/skn.rs:79-80 | What `String::from_utf8` accepts: the bytes split into well-formed sequences of the Unicode Standard's table 3-7. `TrimNulsKeepsWellFormed` and `SubmeshNames` state what it guarantees of a decoded name. |
| `Utf8.SequenceLength` | src/lol/skn.rs:79 | Gives the length of the well-formed UTF-8 sequence at the start, at most 4. A NUL byte is a sequence of its own, and all bytes after the first are continuation bytes. |
| `Utf8.TrimNuls` | src/lol/skn.rs:81 | `trim_end_matches('\0')`: drops the trailing 0 bytes one at a time. `TrimNulsRemovesTrailingNuls` and `StripsNulsUnique` characterise its result. |
| `Utf8.TrimNulsRemovesTrailingNuls` | src/lol/skn.rs:81 | `trim_end_matches('\0')` keeps a prefix that does not end in 0 and removes only 0 bytes. |
| `Utf8.StripsNulsUnique` | src/lol/skn.rs:81 | That description fixes the trimmed name uniquely. |
| `Utf8.TrimNulsKeepsWellFormed` | src/lol/skn.rs:78-82 | A name accepted by `String::from_utf8` is still well-formed after trimming. |
| `Reader.Cursor.constructor` | src/lol/skn.rs:47 | `Cursor::new`: a cursor over the file contents at position 0. |
| `Reader.Cursor.SetPosition` | src/lol/skn.rs:84 | `set_position` accepts any position, even past the end. |
| `Reader.Cursor.ReadExact` | src/lol/skn.rs:74-77 | `read_exact` yields the next n bytes and advances by n, or fails when fewer than n remain. |
| `Reader.Cursor.ReadU16` | src/lol/skn.rs:58-63 | Yields the little-endian u16 at the position and advances by 2, or fails. |
| `Reader.Cursor.ReadU32` | src/lol/skn.rs:69-71 | Yields the little-endian u32 at the position and advances by 4, or fails. |
| `Reader.Cursor.ReadVec2` | src/lol/skn.rs:150 | Yields two little-endian f32 words and advances by 8, or fails. |
| `Reader.Cursor.ReadVec3` | src/lol/skn.rs:125-126 | Yields three little-endian f32 words and advances by 12, or fails. |
| `Reader.Cursor.ReadVec4` | src/lol/skn.rs:148 | Yields four little-endian f32 words and advances by 16, or fails. |
| `Reader.Cursor.ReadVec4U8` | src/lol/skn.rs:147 | Yields four single bytes widened to u16 and advances by 4, or fails. |
| `Skn.NewMesh` | src/lol/skn.rs:22-28 | `Mesh::new`: the header together with the FNV-1a hash of its name. What the decoded meshes hold is stated by `SubmeshTable` and `Version0Mesh`. |
| `Skn.Decode` | src/lol/skn.rs:46-202 | The skin `Skin::read` returns for a buffer, or the reason it panics. It is defined by byte offsets; `ReadData` is proved equal to it, and `DecodeOutcome` and the other `SknProperties` lemmas state what it yields. |
| `Skn.ReadSubmeshHeader` | src/lol/skn.rs:74-98 | Reads one record. Succeeds iff 80 bytes remain and the 64 name bytes are UTF-8, giving the trimmed name, the offset and count at +72/+76, and material 0. Fails with InvalidName iff the name bytes are present but not UTF-8. |
| `Skn.ReadSubmeshHeaders` | src/lol/skn.rs:73-99 | Reads n records from byte 12, in file order. Fails with InvalidName iff some name present in the file is not UTF-8. Fails as truncated only when the table runs past the end. |
| `Skn.ReadHead` | src/lol/skn.rs:49-104 | Reads the signature, the version words and the table. Fails as `HeadError` says (short file, bad signature, missing version or count, bad name), or as truncated when the table runs past the end of the file, in which case the counts are missing too. |
| `Skn.ReadCounts` | src/lol/skn.rs:106-129 | Reads the counts, and in version 4 the vertex type and the stored box. Other versions keep the sentinel box f32::MAX / f32::MIN. Succeeds iff those bytes are present. |
| `Skn.ReadIndices` | src/lol/skn.rs:131-138 | Reads n little-endian u16 indices from the position. Succeeds iff 2n bytes remain. |
| `Skn.ReadVertex` | src/lol/skn.rs:146-154 | Reads the 52-byte record (position, influence bytes, weights, normal, uv). When the vertex type is non-zero the cursor then moves 4 bytes further. |
| `Skn.ReadVertices` | src/lol/skn.rs:140-155 | Reads n records at a stride of 52, or 56 when the vertex type is non-zero, split into the five arrays. Succeeds iff the last record's 52 bytes are present. |
| `Skn.FoldBox` | src/lol/skn.rs:157-163 | The bounds folded over the positions in order, starting from `f32::MAX` / `f32::MIN` and growing each axis by `f32::min` / `f32::max`. `FoldBounds` is proved equal to it, and the `FoldBox*` lemmas state what it yields. |
| `Skn.FoldBounds` | src/lol/skn.rs:157-164 | The nested min/max loop computes `FoldBox` of the positions. |
| `Skn.NewMeshes` | src/lol/skn.rs:168-173 | One `Mesh::new` per record, in order. |
| `Skn.ReadGeometry` | src/lol/skn.rs:131-155 | Reads the indices and vertices. Succeeds iff the buffer reaches the end of the last read, and then returns exactly `GeometryOf(b)`. |
| `Skn.Complete` | src/lol/skn.rs:157-201 | Builds the box (stored in version 4, folded otherwise), the centre, the mesh list ("Base" in version 0) and the struct literal. Together they equal `Build(b)`. |
| `Skn.ReadData` | src/lol/skn.rs:46-202 | `Skin::read` as written computes `Decode(contents)`, success and every failure kind included. |
| `Skn.Skin.Read` | src/lol/skn.rs:46-202 | Succeeds exactly when `Decode` does, returning a fresh `Skin` whose fields are the decoded value. Otherwise it fails with `Decode`'s error. |
| `Skn.Skin.constructor` | src/lol/skn.rs:189-201 | The struct literal: every field set from the decoded value. |
| `Skn.Remap` | src/lol/skn.rs:205-210 | Every influence quad with each component replaced by the joint-table entry it indexes; one quad per vertex. `ApplySkeleton` is proved to produce it, and the `Remap*` lemmas state its properties. |
| `Skn.Skin.ApplySkeleton` | src/lol/skn.rs:204-211 | Requires every influence component to index the joint table (otherwise the source panics). Afterwards each component is the table entry it indexed, and every other field is unchanged. |
| `SknProperties.NamesValidMeans` | src/lol/skn.rs:73-82 | The recursive name check holds iff no record's present name bytes fail UTF-8. |
| `SknProperties.DecodeOutcome` | src/lol/skn.rs:46-155 | `Skin::read` succeeds iff everything it reads is present and every name is UTF-8, and the result is `Build`. It fails with BadSignature iff the first 4 bytes differ from 33 22 11 00. It fails with InvalidName iff the prefix is present and some present name is not UTF-8. |
| `SknProperties.VersionKept` | src/lol/skn.rs:49-63 | A decoded skin starts with the signature and keeps major and minor as stored at bytes 4 and 6. |
| `SknProperties.Lengths` | src/lol/skn.rs:131-155 | The index array has the declared index count. All five vertex arrays have the declared vertex count. |
| `SknProperties.IndexField` | src/lol/skn.rs:131-138 | Index k is the little-endian u16 at `IndicesAt(b) + 2k`. |
| `SknProperties.GeometryIndex` | src/lol/skn.rs:131-138 | The same index layout, stated for the index array of `GeometryOf`. |
| `SknProperties.VertexFields` | src/lol/skn.rs:145-155 | Vertex v starts at `VerticesAt(b) + 52v`, plus `4v` when the vertex type is non-zero. Its position, influences, weights, normal and uv are the words at +0, +12, +16, +32 and +44. |
| `SknProperties.GeometryFields` | src/lol/skn.rs:145-155 | The same field layout, stated for the arrays of `GeometryOf`. |
| `SknProperties.VersionGatedLayout` | src/lol/skn.rs:101-129 | The vertex type is read only in version 4 (0 otherwise). Version 0 has its counts at byte 8. Versions 1-3 and 5+ have them right after the table. Version 4 has 4 extra bytes before the counts and a 48-byte block before the indices. |
| `SknProperties.Version0Mesh` | src/lol/skn.rs:174-182 | Version 0 yields one mesh named "Base", with offset 0, count equal to the number of indices, material 0 and the hash of "Base". |
| `SknProperties.SubmeshTable` | src/lol/skn.rs:73-98 | From version 1 on there is one mesh per record. Mesh k has the trimmed name of the 64 bytes at `12 + 80k`, the offset and count at +72/+76 as stored, material 0, and the hash of its name. |
| `SknProperties.MeshesAt` | src/lol/skn.rs:168-173 | The same record layout, stated for `Meshes(b)`. |
| `SknProperties.SubmeshNames` | src/lol/skn.rs:74-82 | A decoded name is the 64 stored bytes with the trailing NULs stripped, and it is well-formed UTF-8. |
| `SknProperties.InfluencesAreBytes` | src/lol/skn.rs:147 | Every decoded influence component is below 256. |
| `SknProperties.DecodedSkinBindable` | src/lol/skn.rs:204-211 | A skeleton with at least 256 joint slots meets `apply_skeleton`'s precondition for any decoded skin. |
| `SknProperties.RemapComposes` | src/lol/skn.rs:204-211 | Binding twice equals binding once through the composed table. |
| `SknProperties.RemapIdentity` | src/lol/skn.rs:204-211 | An identity table leaves the influences unchanged. |
| `SknProperties.RemapNotIdempotent` | src/lol/skn.rs:204-211 | Binding is not idempotent: with the table [1, 0], a second binding undoes the first. |
| `SknProperties.BoxAndCentre` | src/lol/skn.rs:157-166 | The centre is the half-sum `(lo + hi) / 2` of the two box corners, kept unevaluated. In version 4 the box is the stored one; otherwise it is folded from the positions. |
| `SknProperties.FoldBoxNotNaN` | src/lol/skn.rs:157-163 | No folded bound is ever NaN. |
| `SknProperties.FoldBoxEncloses` | src/lol/skn.rs:157-163 | Each non-NaN coordinate of each position lies between the folded lower and upper bounds. |
| `SknProperties.FoldBoxOrigin` | src/lol/skn.rs:157-163 | Each folded bound on an axis is its sentinel (`f32::MAX` low, `f32::MIN` high) or the coordinate of some vertex. |
| `SknProperties.FoldBoxSentinelKept` | src/lol/skn.rs:157-163 | When every coordinate on an axis is NaN or +infinity, the lower bound stays `f32::MAX`. When every one is NaN or -infinity, the upper bound stays `f32::MIN`. |
| `SknProperties.FoldBoxAttained` | src/lol/skn.rs:157-163 | The lower bound equals some vertex's coordinate iff some coordinate on that axis is neither NaN nor +infinity. The upper bound does iff some coordinate is neither NaN nor -infinity. Otherwise the sentinel survives. |
| `SknProperties.EmptyBox` | src/lol/skn.rs:113-114 | With no vertices (and version other than 4) the box stays at f32::MAX / f32::MIN. |
| `Config.NewOptions` | src/config_json.rs:99-116 | `OptionsJson::new`: shown, looping, every other flag off, time 0, speed 1, no animation selected, zero offset and rotation. Its use as padding is stated by `Read`. |
| `Config.DefaultSensitivity` | src/config_json.rs:139-147 | `ControlSensitivity::default`: zoom 1.0, pan 0.7, rotate 0.5, as `f32` bit patterns. |
| `Config.NewConfig` | src/config_json.rs:295-310 | `ConfigJson::new`: 8x MSAA, vsync, floor and skybox shown, time not synchronised, 1920x1080 screenshots, default sensitivity, no models, no skybox file. `Read` is proved to return it on every load failure. |
| `Config.DefaultConfig` | src/config_json.rs:12-29 | `ConfigJson::default`: the same values with the skybox file "./skybox/Default.dds"; `DefaultIsNewWithSkybox` relates the two. |
| `Config.DefaultIsNewWithSkybox` | src/config_json.rs:13-29 | `ConfigJson::default` is `ConfigJson::new` with the skybox file "./skybox/Default.dds"; the two differ. |
| `Config.Repeat` | src/config_json.rs:222 | `vec![x; n]` has n entries, all equal to x. |
| `Config.Read` | src/config_json.rs:192-235 | A file that cannot be opened, read or parsed gives `ConfigJson::new()`. A parsed file keeps every field except options and meshes. Those two lists keep their entries in order and are padded to `paths.len()` with `OptionsJson::new()` and with empty lists. A list that is already long enough is unchanged. The result always covers every path. |
| `Config.Write` | src/config_json.rs:237-269 | Requires the models, selections and texture indices to be in range. The saved copy is the input with two changes: each options entry i names model i's selected animation, and `meshes` is rebuilt with one list per path and one entry per mesh of model i (its `show` flag and a single name→texture entry). Covering every path is preserved. |
| `Config.MeshEntry` | src/config_json.rs:257-266 | The `MeshJson` literal for mesh j of a model: its `show` flag, and a map from its submesh name to its selected texture file. `MeshEntryNamesOneTexture` states its contents and `Write` is proved to store it. |
| `Config.MeshEntryNamesOneTexture` | src/config_json.rs:257-266 | A saved mesh entry maps exactly the submesh name to the selected texture file, and carries that mesh's `show` flag. |

## Left out

- File and console I/O:
  - Opening and reading the `.skn` file, and the `print!` logging.
  - Opening, reading, writing and serde (de)serialisation of `config.json`, and `pretty_json`.
  - Instead, `Config.Read` takes what loading produced, and `Config.Write` returns the configuration it would serialise.
- The `CONFIG_JSON` global mutex, and `get_base_path`.
- `hasher::fnv1a` is not part of this model. The hash is a parameter `hash: seq<Byte> -> U32`.
- glam_read is not part of this model. Its reads are taken to fail (the source panics) when bytes are missing, as byteorder's reads do.
- Every panic (`expect`, `panic!`) is a `Failure` result: Truncated, BadSignature or InvalidName.
- Floating point:
  - `f32` values are kept as bit patterns.
  - `.normalize()` on the normals is not applied; normals are kept as stored.
  - The centre `(bbmin + bbmax) / 2` is kept symbolically as `HalfSum(lo, hi)`. The model therefore does not say where the centre lies: the `f32` sum can overflow to infinity, and with no vertex the corners are inverted.
  - `Floats.MinIsLeast`, `Floats.MaxIsGreatest`: with one operand +0 and the other -0 the model returns a fixed operand; IEEE leaves this choice open.
- Strings are kept as their UTF-8 bytes. Submesh names are validated by the well-formedness table of the Unicode Standard, not decoded to characters.
- A submesh's offset and count are not checked against the index array, because the source does not check them either.
- `material_index` is set later by the loader in `src/main.rs`. That code is not part of this model.
- The serde field defaults of `ControlSensitivity` (75.0, 0.20, 0.03 for missing fields) belong to deserialisation, which is not modelled.
- The skeleton (`.skl`) and animation (`.anm`) decoders are not part of this model. `Skeleton` carries only its joint table.
- The GPU, texture and UI code, and `src/main.rs` (including its removal of a model's path, options and meshes entries), are not part of this model.
