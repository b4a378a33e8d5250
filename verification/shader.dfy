/** The vertex stage `main_vs` of the shader crate. It has no vertex buffer:
    each invocation turns its built-in i32 vertex index into one corner of an
    over-sized triangle that covers the whole clip square. */
module Shader {
  import opened ClipSpace

  /** The 32-bit two's-complement pattern of `v`: the i32 vertex index as the GPU holds it. */
  function Bits(v: int): bv32 {
    (v % 0x1_0000_0000) as bv32
  }

  /** A 32-bit pattern read as an i32 value. */
  function ToI32(b: bv32): int {
    if b < 0x8000_0000 then b as int else b as int - 0x1_0000_0000
  }

  /** The vertex stage: `&`, `<<` and `-` act on the i32 bit pattern, the result is
      read back as i32 and converted to f32; as the values are -1, 0, 1 and 3,
      well inside the 24-bit significand, that conversion is exact.
      x is 3 exactly when bit 0 of the index is set and -1 otherwise; y likewise
      follows bit 1; z and w are the constants 0 and 1. */
  function MainVs(vertId: bv32): (pos: Vec4)
    ensures pos.x == -1 || pos.x == 3
    ensures pos.y == -1 || pos.y == 3
    ensures pos.x == 3 <==> vertId & 1 == 1
    ensures pos.y == 3 <==> vertId & 2 == 2
    ensures pos.z == 0 && pos.w == 1
  {
    Vec4(ToI32(((vertId & 1) << 2) - 1), ToI32(((vertId & 2) << 1) - 1), 0, 1)
  }

  /** The i32 subtractions never wrap, so the checked arithmetic of a debug build
      never traps: the wrapped result equals the mathematical difference. */
  lemma SubtractionNeverWraps(vertId: bv32)
    ensures ToI32(((vertId & 1) << 2) - 1) == ToI32((vertId & 1) << 2) - 1
    ensures ToI32(((vertId & 2) << 1) - 1) == ToI32((vertId & 2) << 1) - 1
  {
  }

  /** x depends only on bit 0 of the index and y only on bit 1. */
  lemma CoordinateDependsOnOneBit(a: bv32, b: bv32)
    ensures a & 1 == b & 1 ==> MainVs(a).x == MainVs(b).x
    ensures a & 2 == b & 2 ==> MainVs(a).y == MainVs(b).y
  {
  }

  /** The corners written for the indices 0, 1 and 2 a three-vertex draw uses, and for
      index 3, which such a draw never reaches. */
  lemma CornerPerIndex()
    ensures MainVs(Bits(0)) == Vec4(-1, -1, 0, 1)
    ensures MainVs(Bits(1)) == Vec4(3, -1, 0, 1)
    ensures MainVs(Bits(2)) == Vec4(-1, 3, 0, 1)
    ensures MainVs(Bits(3)) == Vec4(3, 3, 0, 1)
  {
  }

  /** In integer terms, for every i32 index, x is 3 for odd indices (negative ones
      included) and -1 for even ones. */
  lemma XIsParity(v: int)
    requires -0x8000_0000 <= v < 0x8000_0000
    ensures MainVs(Bits(v)).x == (if v % 2 == 1 then 3 else -1)
  {
    LowBitIsParity(v);
  }

  /** Bit 0 of the two's-complement pattern is the Euclidean parity of the value. */
  lemma LowBitIsParity(v: int)
    requires -0x8000_0000 <= v < 0x8000_0000
    ensures Bits(v) & 1 == 1 <==> v % 2 == 1
  {
    var u := v % 0x1_0000_0000;
    assert u % 2 == v % 2;
    PatternLowBit(u);
  }

  /** Bit 0 of a 32-bit pattern is set exactly when its unsigned value is odd. */
  lemma PatternLowBit(u: int)
    requires 0 <= u < 0x1_0000_0000
    ensures (u as bv32) & 1 == 1 <==> u % 2 == 1
  {
  }

  /** In integer terms, for the indices 0..3, `& 1` / `& 2` and the shifts are the
      remainder and the multiplications they stand for: x = 4 * (v % 2) - 1 and
      y = 4 * ((v / 2) % 2) - 1. */
  lemma IntegerView(v: int)
    requires 0 <= v < 4
    ensures MainVs(Bits(v)).x == 4 * (v % 2) - 1
    ensures MainVs(Bits(v)).y == 4 * ((v / 2) % 2) - 1
  {
    CornerPerIndex();
    if v == 0 {
      assert v % 2 == 0 && (v / 2) % 2 == 0;
    } else if v == 1 {
      assert v % 2 == 1 && (v / 2) % 2 == 0;
    } else if v == 2 {
      assert v % 2 == 0 && (v / 2) % 2 == 1;
    } else {
      assert v == 3;
      assert v % 2 == 1 && (v / 2) % 2 == 1;
    }
  }
}
