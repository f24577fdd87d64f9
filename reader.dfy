// std::io::Cursor over the file's bytes, with the reads the skin decoder makes
// through it: read_exact, byteorder's little-endian read_u16 / read_u32, and
// the glam_read helpers (vec2/vec3/vec4 of little-endian 4-byte words, and
// vec4_u8, four single bytes widened to u16).
//
// The position may run past the end of the data: set_position never fails,
// and only a read that needs bytes beyond the end does.

module Reader {
  import opened Bytes
  import opened Floats

  /** glam_read::U16Vec4: four u16 components. */
  datatype U16Vec4 = U16Vec4(x: U16, y: U16, z: U16, w: U16)

  /** The four bytes at b[at..at + 4], each widened to a u16 component. */
  function U16Vec4At(b: seq<Byte>, at: nat): U16Vec4
    requires at + 4 <= |b|
  {
    U16Vec4(b[at], b[at + 1], b[at + 2], b[at + 3])
  }

  class Cursor {
    const data: seq<Byte>
    var pos: nat

    constructor (data: seq<Byte>)
      ensures this.data == data && pos == 0
    {
      this.data := data;
      pos := 0;
    }

    /** Cursor::set_position: accepted for any position. */
    method SetPosition(p: nat)
      modifies this
      ensures pos == p
    {
      pos := p;
    }

    /** read_exact of n bytes: all of them or a failure. */
    method ReadExact(n: nat) returns (r: Option<seq<Byte>>)
      modifies this
      ensures old(pos) + n <= |data| ==> r == Some(data[old(pos)..old(pos) + n]) && pos == old(pos) + n
      ensures old(pos) + n > |data| ==> r == None
    {
      if pos + n <= |data| {
        r := Some(data[pos..pos + n]);
        pos := pos + n;
      } else {
        r := None;
      }
    }

    method ReadU16() returns (r: Option<U16>)
      modifies this
      ensures old(pos) + 2 <= |data| ==> r == Some(U16At(data, old(pos))) && pos == old(pos) + 2
      ensures old(pos) + 2 > |data| ==> r == None
    {
      if pos + 2 <= |data| {
        r := Some(U16At(data, pos));
        pos := pos + 2;
      } else {
        r := None;
      }
    }

    method ReadU32() returns (r: Option<U32>)
      modifies this
      ensures old(pos) + 4 <= |data| ==> r == Some(U32At(data, old(pos))) && pos == old(pos) + 4
      ensures old(pos) + 4 > |data| ==> r == None
    {
      if pos + 4 <= |data| {
        r := Some(U32At(data, pos));
        pos := pos + 4;
      } else {
        r := None;
      }
    }

    method ReadVec2() returns (r: Option<Vec2>)
      modifies this
      ensures old(pos) + 8 <= |data| ==> r == Some(Vec2At(data, old(pos))) && pos == old(pos) + 8
      ensures old(pos) + 8 > |data| ==> r == None
    {
      if pos + 8 <= |data| {
        r := Some(Vec2At(data, pos));
        pos := pos + 8;
      } else {
        r := None;
      }
    }

    method ReadVec3() returns (r: Option<Vec3>)
      modifies this
      ensures old(pos) + 12 <= |data| ==> r == Some(Vec3At(data, old(pos))) && pos == old(pos) + 12
      ensures old(pos) + 12 > |data| ==> r == None
    {
      if pos + 12 <= |data| {
        r := Some(Vec3At(data, pos));
        pos := pos + 12;
      } else {
        r := None;
      }
    }

    method ReadVec4() returns (r: Option<Vec4>)
      modifies this
      ensures old(pos) + 16 <= |data| ==> r == Some(Vec4At(data, old(pos))) && pos == old(pos) + 16
      ensures old(pos) + 16 > |data| ==> r == None
    {
      if pos + 16 <= |data| {
        r := Some(Vec4At(data, pos));
        pos := pos + 16;
      } else {
        r := None;
      }
    }

    /** glam_read::vec4_u8. */
    method ReadVec4U8() returns (r: Option<U16Vec4>)
      modifies this
      ensures old(pos) + 4 <= |data| ==> r == Some(U16Vec4At(data, old(pos))) && pos == old(pos) + 4
      ensures old(pos) + 4 > |data| ==> r == None
    {
      if pos + 4 <= |data| {
        r := Some(U16Vec4At(data, pos));
        pos := pos + 4;
      } else {
        r := None;
      }
    }
  }
}
