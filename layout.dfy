/** Fixed-width values as the renderer hands them to the GPU: bytes, 32-bit
    words, single-precision floats carried as their bit patterns, and the
    `Vertex` record with its byte layout. Floats are never computed with here;
    they are copied, so a bit pattern is all the model needs. Byte order is
    that of a little-endian host. */
module Layout {

  const U32Limit: int := 0x1_0000_0000

  type Byte = x: int | 0 <= x < 256

  /** Uint32 / unsigned int */
  type U32 = x: int | 0 <= x < 0x1_0000_0000

  /** An IEEE-754 single-precision value, as its bit pattern. */
  datatype F32 = F32(bits: U32)

  const ZeroF32: F32 := F32(0)         // 0.0f
  const OneF32: F32 := F32(0x3F80_0000) // 1.0f
  const TenthF32: F32 := F32(0x3DCC_CCCD) // 0.1f

  datatype Vec2 = Vec2(x: F32, y: F32)
  datatype Vec3 = Vec3(x: F32, y: F32, z: F32)

  /** Vertex.h: a position (3 floats) followed by a texture coordinate (2 floats). */
  datatype Vertex = Vertex(position: Vec3, uv: Vec2)

  /** sizeof(Vertex), offsetof(Vertex, position), offsetof(Vertex, uv), sizeof(Uint32) */
  const VertexSize: nat := 20
  const PositionOffset: nat := 0
  const UvOffset: nat := 12
  const IndexSize: nat := 4

  /** Slot `i` of `n` slots of `k` bytes each ends within the `n * k` bytes. */
  lemma SlotWithin(i: nat, n: nat, k: nat)
    requires i < n
    ensures i * k + k <= n * k
  {
    assert n * k == i * k + (n - i) * k;
    assert (n - i) * k == k + (n - i - 1) * k;
  }

  /** The four bytes of a 32-bit word, least significant first. */
  function U32Bytes(x: U32): (b: seq<Byte>)
    ensures |b| == 4
  {
    [x % 256, x / 256 % 256, x / 65536 % 256, x / 16777216]
  }

  /** The 32-bit word stored at byte offset `at`. */
  function ReadU32(b: seq<Byte>, at: nat): (x: U32)
    requires at + 4 <= |b|
  {
    var b0, b1, b2, b3 := b[at] as int, b[at + 1] as int, b[at + 2] as int, b[at + 3] as int;
    b0 + 256 * (b1 + 256 * (b2 + 256 * b3))
  }

  lemma ReadU32Bytes(x: U32)
    ensures ReadU32(U32Bytes(x), 0) == x
  {
  }

  lemma U32BytesRead(b: seq<Byte>, at: nat)
    requires at + 4 <= |b|
    ensures U32Bytes(ReadU32(b, at)) == b[at..at + 4]
  {
    var b0, b1, b2, b3 := b[at] as int, b[at + 1] as int, b[at + 2] as int, b[at + 3] as int;
    var x := ReadU32(b, at);
    assert x == b0 + 256 * (b1 + 256 * (b2 + 256 * b3));
    assert x % 256 == b0 && x / 256 == b1 + 256 * (b2 + 256 * b3);
    assert x / 65536 == (x / 256) / 256 == b2 + 256 * b3;
    assert x / 16777216 == (x / 65536) / 256 == b3;
  }

  /** The bytes of one vertex as it lies in memory: x, y, z of the position,
      then u, v, each a little-endian 32-bit float. */
  function VertexBytes(v: Vertex): (b: seq<Byte>)
    ensures |b| == VertexSize
  {
    U32Bytes(v.position.x.bits) + U32Bytes(v.position.y.bits) + U32Bytes(v.position.z.bits)
    + U32Bytes(v.uv.x.bits) + U32Bytes(v.uv.y.bits)
  }

  /** What a FLOAT3 vertex attribute fetch reads at byte offset `at`. */
  function ReadFloat3(b: seq<Byte>, at: nat): Vec3
    requires at + 12 <= |b|
  {
    Vec3(F32(ReadU32(b, at)), F32(ReadU32(b, at + 4)), F32(ReadU32(b, at + 8)))
  }

  /** What a FLOAT2 vertex attribute fetch reads at byte offset `at`. */
  function ReadFloat2(b: seq<Byte>, at: nat): Vec2
    requires at + 8 <= |b|
  {
    Vec2(F32(ReadU32(b, at)), F32(ReadU32(b, at + 4)))
  }

  /** A word reads back wherever its four bytes are placed. */
  lemma ReadU32Placed(b: seq<Byte>, at: nat, x: U32)
    requires at + 4 <= |b| && b[at..at + 4] == U32Bytes(x)
    ensures ReadU32(b, at) == x
  {
    assert b[at] == U32Bytes(x)[0] && b[at + 1] == U32Bytes(x)[1];
    assert b[at + 2] == U32Bytes(x)[2] && b[at + 3] == U32Bytes(x)[3];
    ReadU32Bytes(x);
  }

  /** Wherever a vertex's bytes are placed, the position attribute read at
      `PositionOffset` and the uv attribute read at `UvOffset` from there give
      back that vertex. */
  lemma VertexPlaced(b: seq<Byte>, at: nat, v: Vertex)
    requires at + VertexSize <= |b| && b[at..at + VertexSize] == VertexBytes(v)
    ensures ReadFloat3(b, at + PositionOffset) == v.position
    ensures ReadFloat2(b, at + UvOffset) == v.uv
  {
    var s := b[at..at + VertexSize];
    assert forall k | 0 <= k < VertexSize :: b[at + k] == s[k];
    assert b[at..at + 4] == s[0..4] == U32Bytes(v.position.x.bits);
    assert b[at + 4..at + 8] == s[4..8] == U32Bytes(v.position.y.bits);
    assert b[at + 8..at + 12] == s[8..12] == U32Bytes(v.position.z.bits);
    assert b[at + 12..at + 16] == s[12..16] == U32Bytes(v.uv.x.bits);
    assert b[at + 16..at + 20] == s[16..20] == U32Bytes(v.uv.y.bits);
    ReadU32Placed(b, at, v.position.x.bits);
    ReadU32Placed(b, at + 4, v.position.y.bits);
    ReadU32Placed(b, at + 8, v.position.z.bits);
    ReadU32Placed(b, at + 12, v.uv.x.bits);
    ReadU32Placed(b, at + 16, v.uv.y.bits);
  }
}
