// f32 values are kept as their IEEE 754 binary32 bit patterns. No arithmetic
// is modelled; only the comparisons behind f32::min and f32::max, which the
// skin decoder uses for its bounding-box fold.

module Floats {
  import opened Bytes

  /** An IEEE 754 binary32 value, as the 32 bits stored in the file. */
  type F32 = U32

  /** The bit patterns of f32::MAX and f32::MIN (= -f32::MAX). */
  const F32_MAX: F32 := 0x7F7F_FFFF
  const F32_MIN: F32 := 0xFF7F_FFFF

  /** The bit patterns of +infinity and -infinity. */
  const F32_INF: F32 := 0x7F80_0000
  const F32_NEG_INF: F32 := 0xFF80_0000

  /** The bit pattern of 0.0, 0.5, 0.7 and 1.0. */
  const F32_ZERO: F32 := 0
  const F32_HALF: F32 := 0x3F00_0000
  const F32_0_7: F32 := 0x3F33_3333
  const F32_ONE: F32 := 0x3F80_0000

  /** All exponent bits set and a non-zero fraction, with either sign. */
  predicate IsNaN(w: F32)
  {
    0x7F80_0000 < w < 0x8000_0000 || 0xFF80_0000 < w
  }

  /**
   * The numeric order of binary32 values that are not NaN: for such a and b,
   * a < b as floats exactly when Rank(a) < Rank(b). Both zeros rank 0.
   */
  function Rank(w: F32): int
  {
    if w < 0x8000_0000 then w else 0x8000_0000 - w
  }

  /** f32::min: the smaller operand; a NaN operand is ignored. */
  function Min(a: F32, b: F32): F32
  {
    if IsNaN(a) then b
    else if IsNaN(b) then a
    else if Rank(b) < Rank(a) then b
    else a
  }

  /** f32::max: the larger operand; a NaN operand is ignored. */
  function Max(a: F32, b: F32): F32
  {
    if IsNaN(a) then b
    else if IsNaN(b) then a
    else if Rank(a) < Rank(b) then b
    else a
  }

  /** f32::min yields one of its operands, and the smaller when neither is NaN. */
  lemma MinIsLeast(a: F32, b: F32)
    ensures Min(a, b) == a || Min(a, b) == b
    ensures IsNaN(a) ==> Min(a, b) == b
    ensures !IsNaN(a) ==> !IsNaN(Min(a, b))
    ensures !IsNaN(a) && !IsNaN(b) ==> Rank(Min(a, b)) <= Rank(a) && Rank(Min(a, b)) <= Rank(b)
  {
  }

  /** f32::max yields one of its operands, and the larger when neither is NaN. */
  lemma MaxIsGreatest(a: F32, b: F32)
    ensures Max(a, b) == a || Max(a, b) == b
    ensures IsNaN(a) ==> Max(a, b) == b
    ensures !IsNaN(a) ==> !IsNaN(Max(a, b))
    ensures !IsNaN(a) && !IsNaN(b) ==> Rank(a) <= Rank(Max(a, b)) && Rank(b) <= Rank(Max(a, b))
  {
  }

  /**
   * Every value other than NaN and +infinity ranks at most f32::MAX, and only
   * f32::MAX itself ranks equal to it; dually for -infinity and f32::MIN.
   */
  lemma WithinSentinels(w: F32)
    requires !IsNaN(w)
    ensures w != F32_INF ==> Rank(w) <= Rank(F32_MAX) && (Rank(w) == Rank(F32_MAX) ==> w == F32_MAX)
    ensures w != F32_NEG_INF ==> Rank(F32_MIN) <= Rank(w) && (Rank(w) == Rank(F32_MIN) ==> w == F32_MIN)
  {
  }

  datatype Vec2 = Vec2(x: F32, y: F32)

  datatype Vec3 = Vec3(x: F32, y: F32, z: F32) {
    /** Component i, as glam's Vec3 indexing gives it. */
    function At(i: nat): F32
      requires i < 3
    {
      if i == 0 then x else if i == 1 then y else z
    }

    /** This vector with component i replaced by v. */
    function With(i: nat, v: F32): (r: Vec3)
      requires i < 3
      ensures r.At(i) == v
      ensures forall j :: 0 <= j < 3 && j != i ==> r.At(j) == At(j)
    {
      if i == 0 then Vec3(v, y, z) else if i == 1 then Vec3(x, v, z) else Vec3(x, y, v)
    }
  }

  datatype Vec4 = Vec4(x: F32, y: F32, z: F32, w: F32)

  function Splat(v: F32): (r: Vec3)
    ensures forall i :: 0 <= i < 3 ==> r.At(i) == v
  {
    Vec3(v, v, v)
  }

  function Vec2At(b: seq<Byte>, at: nat): Vec2
    requires at + 8 <= |b|
  {
    Vec2(U32At(b, at), U32At(b, at + 4))
  }

  function Vec3At(b: seq<Byte>, at: nat): Vec3
    requires at + 12 <= |b|
  {
    Vec3(U32At(b, at), U32At(b, at + 4), U32At(b, at + 8))
  }

  function Vec4At(b: seq<Byte>, at: nat): Vec4
    requires at + 16 <= |b|
  {
    Vec4(U32At(b, at), U32At(b, at + 4), U32At(b, at + 8), U32At(b, at + 12))
  }
}
