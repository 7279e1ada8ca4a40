/** The staging buffers of the initial upload (SDL_AppInit, src/main.cpp:271-378).
    The geometry staging buffer holds every vertex, `VertexSize` bytes each, in
    model order, followed at byte `VertexBytesSize` by every index, four bytes
    each. Two upload regions are taken from it, one per GPU buffer. The pixel
    staging buffer holds the surface's `pitch * h` bytes verbatim. The copies
    (std::ranges::copy into the mapped memory) are loops over a byte array. */
module Staging {
  import opened Layout

  /** The bytes of a run of vertices laid out back to back. */
  function MeshVertexBytes(vs: seq<Vertex>): (b: seq<Byte>)
    ensures |b| == |vs| * VertexSize
  {
    if vs == [] then [] else MeshVertexBytes(vs[..|vs| - 1]) + VertexBytes(vs[|vs| - 1])
  }

  /** The bytes of a run of 32-bit indices laid out back to back. */
  function MeshIndexBytes(xs: seq<U32>): (b: seq<Byte>)
    ensures |b| == |xs| * IndexSize
  {
    if xs == [] then [] else MeshIndexBytes(xs[..|xs| - 1]) + U32Bytes(xs[|xs| - 1])
  }

  /** vertexBufferCreateInfo.size and indexBufferCreateInfo.size */
  function VertexBytesSize(vs: seq<Vertex>): nat {
    |vs| * VertexSize
  }

  function IndexBytesSize(xs: seq<U32>): nat {
    |xs| * IndexSize
  }

  /** The contents the geometry staging buffer is given. */
  function GeometryBytes(vs: seq<Vertex>, xs: seq<U32>): seq<Byte> {
    MeshVertexBytes(vs) + MeshIndexBytes(xs)
  }

  /** SDL_GPUTransferBufferLocation.offset together with SDL_GPUBufferRegion.size */
  datatype Region = Region(offset: nat, size: nat) {
    function End(): nat {
      offset + size
    }
  }

  /** The source of the vertex upload (src/main.cpp:346-353) and of the index
      upload (src/main.cpp:355-358). */
  function VertexRegion(vs: seq<Vertex>): Region {
    Region(0, VertexBytesSize(vs))
  }

  function IndexRegion(vs: seq<Vertex>, xs: seq<U32>): Region {
    Region(VertexBytesSize(vs), IndexBytesSize(xs))
  }

  /** Vertex `i` occupies bytes [i * VertexSize, (i + 1) * VertexSize). */
  lemma {:induction false} MeshVertexBytesAt(vs: seq<Vertex>, i: nat)
    requires i < |vs|
    ensures MeshVertexBytes(vs)[i * VertexSize..i * VertexSize + VertexSize] == VertexBytes(vs[i])
  {
    var n := |vs| - 1;
    var front := MeshVertexBytes(vs[..n]);
    assert MeshVertexBytes(vs) == front + VertexBytes(vs[n]);
    if i == n {
      assert MeshVertexBytes(vs)[|front|..] == VertexBytes(vs[n]);
    } else {
      MeshVertexBytesAt(vs[..n], i);
      assert i * VertexSize + VertexSize <= |front|;
      assert MeshVertexBytes(vs)[i * VertexSize..i * VertexSize + VertexSize]
          == front[i * VertexSize..i * VertexSize + VertexSize];
    }
  }

  /** Index `j` occupies bytes [j * 4, j * 4 + 4). */
  lemma {:induction false} MeshIndexBytesAt(xs: seq<U32>, j: nat)
    requires j < |xs|
    ensures MeshIndexBytes(xs)[j * IndexSize..j * IndexSize + IndexSize] == U32Bytes(xs[j])
  {
    var n := |xs| - 1;
    var front := MeshIndexBytes(xs[..n]);
    assert MeshIndexBytes(xs) == front + U32Bytes(xs[n]);
    if j == n {
      assert MeshIndexBytes(xs)[|front|..] == U32Bytes(xs[n]);
    } else {
      MeshIndexBytesAt(xs[..n], j);
      assert j * IndexSize + IndexSize <= |front|;
      assert MeshIndexBytes(xs)[j * IndexSize..j * IndexSize + IndexSize]
          == front[j * IndexSize..j * IndexSize + IndexSize];
    }
  }

  /** What the pipeline's vertex input reads for vertex `i` of a buffer holding
      `MeshVertexBytes(vs)` (pitch `VertexSize`, FLOAT3 at `PositionOffset`,
      FLOAT2 at `UvOffset`) is vertex `i` of the model. */
  lemma VertexFetch(vs: seq<Vertex>, i: nat)
    requires i < |vs|
    ensures ReadFloat3(MeshVertexBytes(vs), i * VertexSize + PositionOffset) == vs[i].position
    ensures ReadFloat2(MeshVertexBytes(vs), i * VertexSize + UvOffset) == vs[i].uv
  {
    SlotWithin(i, |vs|, VertexSize);
    MeshVertexBytesAt(vs, i);
    VertexPlaced(MeshVertexBytes(vs), i * VertexSize, vs[i]);
  }

  /** What a 32-bit index fetch reads for index `j` of a buffer holding
      `MeshIndexBytes(xs)` is index `j` of the model. */
  lemma IndexFetch(xs: seq<U32>, j: nat)
    requires j < |xs|
    ensures ReadU32(MeshIndexBytes(xs), j * IndexSize) == xs[j]
  {
    SlotWithin(j, |xs|, IndexSize);
    MeshIndexBytesAt(xs, j);
    ReadU32Placed(MeshIndexBytes(xs), j * IndexSize, xs[j]);
  }

  /** The two upload regions are adjacent, do not overlap, together cover the
      geometry staging buffer exactly, and carry the vertex bytes and the index
      bytes respectively. */
  lemma UploadRegionsCover(vs: seq<Vertex>, xs: seq<U32>)
    ensures VertexRegion(vs).offset == 0
    ensures VertexRegion(vs).End() == IndexRegion(vs, xs).offset
    ensures IndexRegion(vs, xs).End() == |GeometryBytes(vs, xs)|
    ensures GeometryBytes(vs, xs)[VertexRegion(vs).offset..VertexRegion(vs).End()] == MeshVertexBytes(vs)
    ensures GeometryBytes(vs, xs)[IndexRegion(vs, xs).offset..IndexRegion(vs, xs).End()] == MeshIndexBytes(xs)
  {
    var g := GeometryBytes(vs, xs);
    assert g[..|MeshVertexBytes(vs)|] == MeshVertexBytes(vs);
    assert g[|MeshVertexBytes(vs)|..] == MeshIndexBytes(xs);
  }

  /** Copies `bytes` into `mem` from byte `at` on, leaving every other byte alone. */
  method CopyBytes(mem: array<Byte>, at: nat, bytes: seq<Byte>)
    requires at + |bytes| <= mem.Length
    modifies mem
    ensures mem[at..at + |bytes|] == bytes
    ensures mem[..at] == old(mem[..at]) && mem[at + |bytes|..] == old(mem[at + |bytes|..])
  {
    var k := 0;
    while k < |bytes|
      invariant 0 <= k <= |bytes|
      invariant forall j :: 0 <= j < k ==> mem[at + j] == bytes[j]
      invariant forall j :: 0 <= j < mem.Length && !(at <= j < at + k) ==> mem[j] == old(mem[j])
    {
      mem[at + k] := bytes[k];
      k := k + 1;
    }
  }

  /** std::ranges::copy(vertices, vertexBufferData.begin()): vertex by vertex from
      byte 0. */
  method CopyVertices(mem: array<Byte>, vs: seq<Vertex>)
    requires VertexBytesSize(vs) <= mem.Length
    modifies mem
    ensures mem[..VertexBytesSize(vs)] == MeshVertexBytes(vs)
    ensures mem[VertexBytesSize(vs)..] == old(mem[VertexBytesSize(vs)..])
  {
    var i, at := 0, 0;
    while i < |vs|
      invariant 0 <= i <= |vs| && at == i * VertexSize
      invariant mem[..at] == MeshVertexBytes(vs[..i])
      invariant mem[VertexBytesSize(vs)..] == old(mem[VertexBytesSize(vs)..])
    {
      var before := mem[..at];
      CopyBytes(mem, at, VertexBytes(vs[i]));
      assert vs[..i + 1][..i] == vs[..i];
      assert mem[..at + VertexSize] == before + VertexBytes(vs[i]);
      i, at := i + 1, at + VertexSize;
    }
    assert vs[..i] == vs;
  }

  /** std::ranges::copy(indices, indexBufferData.begin()): index by index from
      byte `at`. */
  method CopyIndices(mem: array<Byte>, at: nat, xs: seq<U32>)
    requires at + IndexBytesSize(xs) <= mem.Length
    modifies mem
    ensures mem[at..at + IndexBytesSize(xs)] == MeshIndexBytes(xs)
    ensures mem[..at] == old(mem[..at])
    ensures mem[at + IndexBytesSize(xs)..] == old(mem[at + IndexBytesSize(xs)..])
  {
    var j, pos := 0, at;
    while j < |xs|
      invariant 0 <= j <= |xs| && pos == at + j * IndexSize
      invariant mem[at..pos] == MeshIndexBytes(xs[..j])
      invariant mem[..at] == old(mem[..at])
      invariant mem[at + IndexBytesSize(xs)..] == old(mem[at + IndexBytesSize(xs)..])
    {
      var before := mem[at..pos];
      CopyBytes(mem, pos, U32Bytes(xs[j]));
      assert mem[at..pos] == before;
      assert mem[at..pos + IndexSize] == mem[at..pos] + mem[pos..pos + IndexSize];
      assert xs[..j + 1][..j] == xs[..j];
      assert mem[at..pos + IndexSize] == before + U32Bytes(xs[j]);
      j, pos := j + 1, pos + IndexSize;
    }
    assert xs[..j] == xs;
  }

  /** Fills a geometry staging buffer: the vertices from byte 0, then the
      indices from byte `VertexBytesSize(vs)`. */
  method StageGeometry(mem: array<Byte>, vs: seq<Vertex>, xs: seq<U32>)
    requires mem.Length == VertexBytesSize(vs) + IndexBytesSize(xs)
    modifies mem
    ensures mem[..] == GeometryBytes(vs, xs)
  {
    CopyVertices(mem, vs);
    CopyIndices(mem, VertexBytesSize(vs), xs);
    assert mem[..] == mem[..VertexBytesSize(vs)] + mem[VertexBytesSize(vs)..];
  }
}
