/** The model loader (src/Model.cpp, src/Model.h): the meshes of an imported
    scene are flattened into one vertex list and one index list. The importer
    itself is foreign; its scene is an input here. */
module ModelLoading {
  import opened Wrappers
  import opened Layout

  /** aiFace: the vertex indices of one face, local to its mesh. */
  datatype Face = Face(indices: seq<U32>)

  /** aiMesh: mVertices, the first texture-coordinate channel mTextureCoords[0]
      (None when the mesh has none), and mFaces. */
  datatype Mesh = Mesh(vertices: seq<Vec3>, texCoords: Option<seq<Vec3>>, faces: seq<Face>)

  /** aiScene: mMeshes. */
  datatype Scene = Scene(meshes: seq<Mesh>)

  /** Model.h: the two vectors the constructor fills. */
  datatype Model = Model(vertices: seq<Vertex>, indices: seq<U32>)

  /** The importer's guarantee: a texture-coordinate channel, when present, has
      one entry per vertex. */
  predicate WellFormedMesh(m: Mesh) {
    m.texCoords.Some? ==> |m.texCoords.value| == |m.vertices|
  }

  predicate WellFormedMeshes(ms: seq<Mesh>) {
    forall i :: 0 <= i < |ms| ==> WellFormedMesh(ms[i])
  }

  /** Every face index of the mesh names one of the mesh's own vertices. */
  predicate FacesWithinMesh(m: Mesh) {
    forall f, k :: 0 <= f < |m.faces| && 0 <= k < |m.faces[f].indices| ==>
      m.faces[f].indices[k] < |m.vertices|
  }

  /** Every face is a triangle (what aiProcess_Triangulate asks for). */
  predicate Triangles(m: Mesh) {
    forall f :: 0 <= f < |m.faces| ==> |m.faces[f].indices| == 3
  }

  /** The output vertex made from vertex `j` of mesh `m`. */
  function MeshVertex(m: Mesh, j: nat): Vertex
    requires WellFormedMesh(m) && j < |m.vertices|
  {
    var p := m.vertices[j];
    var uv := if m.texCoords.Some? then Vec2(m.texCoords.value[j].x, m.texCoords.value[j].y)
              else Vec2(ZeroF32, ZeroF32);
    Vertex(Vec3(p.x, p.y, p.z), uv)
  }

  function MeshVertices(m: Mesh): seq<Vertex>
    requires WellFormedMesh(m)
  {
    seq(|m.vertices|, j requires 0 <= j < |m.vertices| => MeshVertex(m, j))
  }

  /** The indices of the faces, face after face. */
  function FaceIndices(fs: seq<Face>): seq<U32> {
    if fs == [] then [] else FaceIndices(fs[..|fs| - 1]) + fs[|fs| - 1].indices
  }

  /** The vertices of the meshes, mesh after mesh. */
  function SceneVertices(ms: seq<Mesh>): seq<Vertex>
    requires WellFormedMeshes(ms)
  {
    if ms == [] then [] else SceneVertices(ms[..|ms| - 1]) + MeshVertices(ms[|ms| - 1])
  }

  /** The face indices of the meshes, mesh after mesh, as they are. */
  function SceneIndices(ms: seq<Mesh>): seq<U32> {
    if ms == [] then [] else SceneIndices(ms[..|ms| - 1]) + FaceIndices(ms[|ms| - 1].faces)
  }

  /** The sum of mNumVertices over the meshes. */
  function VertexCount(ms: seq<Mesh>): nat {
    if ms == [] then 0 else VertexCount(ms[..|ms| - 1]) + |ms[|ms| - 1].vertices|
  }

  /** The sum of mNumIndices over the faces. */
  function FaceIndexCount(fs: seq<Face>): nat {
    if fs == [] then 0 else FaceIndexCount(fs[..|fs| - 1]) + |fs[|fs| - 1].indices|
  }

  /** The sum of mNumIndices over the faces of all meshes. */
  function IndexCount(ms: seq<Mesh>): nat {
    if ms == [] then 0 else IndexCount(ms[..|ms| - 1]) + FaceIndexCount(ms[|ms| - 1].faces)
  }

  /** Model::Model(): no scene is an error; otherwise the nested loops append
      every mesh's vertices, then its faces' indices, to initially empty lists. */
  method LoadModel(scene: Option<Scene>) returns (r: Result<Model>)
    requires scene.Some? ==> WellFormedMeshes(scene.value.meshes)
    ensures scene.None? ==> r == Err("Couldn't load model")
    ensures scene.Some? ==>
      r == Ok(Model(SceneVertices(scene.value.meshes), SceneIndices(scene.value.meshes)))
  {
    if scene.None? {
      return Err("Couldn't load model");
    }
    var ms := scene.value.meshes;
    var vertices: seq<Vertex> := [];
    var indices: seq<U32> := [];
    for i := 0 to |ms|
      invariant vertices == SceneVertices(ms[..i])
      invariant indices == SceneIndices(ms[..i])
    {
      var mesh := ms[i];
      assert ms[..i + 1][..i] == ms[..i];
      vertices := AppendMeshVertices(vertices, mesh);
      indices := AppendFaces(indices, mesh.faces);
    }
    assert ms[..|ms|] == ms;
    return Ok(Model(vertices, indices));
  }

  /** The vertex loop of Model::Model() (src/Model.cpp:17-23): every vertex
      of the mesh, with its first texture coordinate or (0, 0), appended to
      `vertices`. */
  method AppendMeshVertices(vertices: seq<Vertex>, mesh: Mesh) returns (out: seq<Vertex>)
    requires WellFormedMesh(mesh)
    ensures out == vertices + MeshVertices(mesh)
  {
    out := vertices;
    for j := 0 to |mesh.vertices|
      invariant out == vertices + MeshVertices(mesh)[..j]
    {
      var p := mesh.vertices[j];
      var uv := if mesh.texCoords.Some? then Vec2(mesh.texCoords.value[j].x, mesh.texCoords.value[j].y)
                else Vec2(ZeroF32, ZeroF32);
      out := out + [Vertex(Vec3(p.x, p.y, p.z), uv)];
      assert MeshVertices(mesh)[..j + 1] == MeshVertices(mesh)[..j] + [MeshVertex(mesh, j)];
    }
    assert MeshVertices(mesh)[..|mesh.vertices|] == MeshVertices(mesh);
  }

  /** The face loop of Model::Model() (src/Model.cpp:25-30): every corner of
      every face appended to `indices`, unchanged. */
  method AppendFaces(indices: seq<U32>, faces: seq<Face>) returns (out: seq<U32>)
    ensures out == indices + FaceIndices(faces)
  {
    out := indices;
    for j := 0 to |faces|
      invariant out == indices + FaceIndices(faces[..j])
    {
      var face := faces[j];
      for k := 0 to |face.indices|
        invariant out == indices + FaceIndices(faces[..j]) + face.indices[..k]
      {
        out := out + [face.indices[k]];
        assert face.indices[..k + 1] == face.indices[..k] + [face.indices[k]];
      }
      assert faces[..j + 1][..j] == faces[..j];
      assert face.indices[..|face.indices|] == face.indices;
    }
    assert faces[..|faces|] == faces;
  }

  /** |vertices| is the sum of mNumVertices over all meshes. */
  lemma {:induction false} SceneVerticesCount(ms: seq<Mesh>)
    requires WellFormedMeshes(ms)
    ensures |SceneVertices(ms)| == VertexCount(ms)
  {
    if ms != [] {
      SceneVerticesCount(ms[..|ms| - 1]);
    }
  }

  lemma {:induction false} FaceIndicesCount(fs: seq<Face>)
    ensures |FaceIndices(fs)| == FaceIndexCount(fs)
  {
    if fs != [] {
      FaceIndicesCount(fs[..|fs| - 1]);
    }
  }

  /** |indices| is the sum of mNumIndices over all faces of all meshes. */
  lemma {:induction false} SceneIndicesCount(ms: seq<Mesh>)
    ensures |SceneIndices(ms)| == IndexCount(ms)
  {
    if ms != [] {
      SceneIndicesCount(ms[..|ms| - 1]);
      FaceIndicesCount(ms[|ms| - 1].faces);
    }
  }

  /** Vertex `j` of mesh `m` lands after the vertices of the meshes before it,
      with the source position and the first channel's (x, y), or (0, 0) when
      the mesh has no texture coordinates. */
  lemma {:induction false} SceneVertexAt(ms: seq<Mesh>, m: nat, j: nat)
    requires WellFormedMeshes(ms) && m < |ms| && j < |ms[m].vertices|
    ensures VertexCount(ms[..m]) + j < |SceneVertices(ms)|
    ensures SceneVertices(ms)[VertexCount(ms[..m]) + j].position == ms[m].vertices[j]
    ensures SceneVertices(ms)[VertexCount(ms[..m]) + j].uv ==
      if ms[m].texCoords.Some? then Vec2(ms[m].texCoords.value[j].x, ms[m].texCoords.value[j].y)
      else Vec2(ZeroF32, ZeroF32)
  {
    var n := |ms| - 1;
    var front := ms[..n];
    SceneVerticesCount(front);
    SceneVerticesCount(ms);
    if m == n {
      assert SceneVertices(ms) == SceneVertices(front) + MeshVertices(ms[n]);
    } else {
      assert front[..m] == ms[..m];
      SceneVertexAt(front, m, j);
    }
  }

  /** Index `k` of face `f` of mesh `m` is appended unchanged (no offset by the
      vertices of earlier meshes), in mesh, face, corner order. */
  lemma {:induction false} SceneIndexAt(ms: seq<Mesh>, m: nat, f: nat, k: nat)
    requires m < |ms| && f < |ms[m].faces| && k < |ms[m].faces[f].indices|
    ensures IndexCount(ms[..m]) + FaceIndexCount(ms[m].faces[..f]) + k < |SceneIndices(ms)|
    ensures SceneIndices(ms)[IndexCount(ms[..m]) + FaceIndexCount(ms[m].faces[..f]) + k]
            == ms[m].faces[f].indices[k]
  {
    var n := |ms| - 1;
    var front := ms[..n];
    SceneIndicesCount(front);
    SceneIndicesCount(ms);
    if m == n {
      FaceIndexAt(ms[n].faces, f, k);
      assert SceneIndices(ms) == SceneIndices(front) + FaceIndices(ms[n].faces);
    } else {
      assert front[..m] == ms[..m];
      SceneIndexAt(front, m, f, k);
    }
  }

  lemma {:induction false} FaceIndexAt(fs: seq<Face>, f: nat, k: nat)
    requires f < |fs| && k < |fs[f].indices|
    ensures FaceIndexCount(fs[..f]) + k < |FaceIndices(fs)|
    ensures FaceIndices(fs)[FaceIndexCount(fs[..f]) + k] == fs[f].indices[k]
  {
    var n := |fs| - 1;
    FaceIndicesCount(fs[..n]);
    FaceIndicesCount(fs);
    if f == n {
      assert fs[..n] == fs[..f];
    } else {
      assert fs[..n][..f] == fs[..f];
      FaceIndexAt(fs[..n], f, k);
    }
  }

  /** When every face is a triangle, the index count is a multiple of 3. */
  lemma {:induction false} TriangleIndexCount(ms: seq<Mesh>)
    requires forall i :: 0 <= i < |ms| ==> Triangles(ms[i])
    ensures |SceneIndices(ms)| % 3 == 0
  {
    if ms != [] {
      TriangleIndexCount(ms[..|ms| - 1]);
      TriangleFaces(ms[|ms| - 1].faces);
    }
  }

  lemma {:induction false} TriangleFaces(fs: seq<Face>)
    requires forall f :: 0 <= f < |fs| ==> |fs[f].indices| == 3
    ensures |FaceIndices(fs)| == 3 * |fs|
  {
    if fs != [] {
      TriangleFaces(fs[..|fs| - 1]);
    }
  }

  /** When each face index is below its own mesh's vertex count, every output
      index is below the total vertex count. */
  lemma {:induction false} SceneIndicesInRange(ms: seq<Mesh>)
    requires WellFormedMeshes(ms)
    requires forall i :: 0 <= i < |ms| ==> FacesWithinMesh(ms[i])
    ensures forall x :: 0 <= x < |SceneIndices(ms)| ==> SceneIndices(ms)[x] < |SceneVertices(ms)|
  {
    if ms != [] {
      var n := |ms| - 1;
      SceneIndicesInRange(ms[..n]);
      FaceIndicesBelow(ms[n].faces, |ms[n].vertices|);
      SceneVerticesCount(ms);
      SceneVerticesCount(ms[..n]);
    }
  }

  lemma {:induction false} FaceIndicesBelow(fs: seq<Face>, bound: nat)
    requires forall f, k :: 0 <= f < |fs| && 0 <= k < |fs[f].indices| ==> fs[f].indices[k] < bound
    ensures forall x :: 0 <= x < |FaceIndices(fs)| ==> FaceIndices(fs)[x] < bound
  {
    if fs != [] {
      FaceIndicesBelow(fs[..|fs| - 1], bound);
    }
  }

  /** A one-mesh scene yields exactly that mesh's vertices and face indices. */
  lemma OneMeshModel(m: Mesh)
    requires WellFormedMesh(m)
    ensures SceneVertices([m]) == MeshVertices(m)
    ensures SceneIndices([m]) == FaceIndices(m.faces)
  {
    assert [m][..0] == [];
  }

  /* The loader copies face indices unchanged, so in a scene of several meshes
     the faces of every mesh after the first index the first meshes' vertices.
     The definitions below state the evidently intended loader, which offsets
     each mesh's indices by the number of vertices already emitted. */

  /** Two one-triangle meshes: the second mesh's first corner, index 0, is
      looked up among the output vertices and finds the first mesh's vertex. */
  lemma SharedIndicesReferFirstMesh()
    ensures var a := Mesh([Vec3(ZeroF32, ZeroF32, ZeroF32), Vec3(OneF32, ZeroF32, ZeroF32), Vec3(ZeroF32, OneF32, ZeroF32)],
                          None, [Face([0, 1, 2])]);
            var b := Mesh([Vec3(ZeroF32, ZeroF32, OneF32), Vec3(OneF32, ZeroF32, OneF32), Vec3(ZeroF32, OneF32, OneF32)],
                          None, [Face([0, 1, 2])]);
            var loaded := Model(SceneVertices([a, b]), SceneIndices([a, b]));
            |loaded.indices| == 6 && |loaded.vertices| == 6 &&
            loaded.indices[3] == b.faces[0].indices[0] &&
            loaded.vertices[loaded.indices[3]] != MeshVertex(b, b.faces[0].indices[0])
  {
    var a := Mesh([Vec3(ZeroF32, ZeroF32, ZeroF32), Vec3(OneF32, ZeroF32, ZeroF32), Vec3(ZeroF32, OneF32, ZeroF32)],
                  None, [Face([0, 1, 2])]);
    var b := Mesh([Vec3(ZeroF32, ZeroF32, OneF32), Vec3(OneF32, ZeroF32, OneF32), Vec3(ZeroF32, OneF32, OneF32)],
                  None, [Face([0, 1, 2])]);
    assert [a, b][..1] == [a];
    OneMeshModel(a);
    assert [a.faces[0]][..0] == [];
    assert FaceIndices(a.faces) == [0, 1, 2];
    assert [b.faces[0]][..0] == [];
    assert FaceIndices(b.faces) == [0, 1, 2];
  }

  /** Indices shifted by `base`, with the wrap-around of unsigned addition. */
  function Shifted(xs: seq<U32>, base: nat): (ys: seq<U32>)
    ensures |ys| == |xs|
  {
    seq(|xs|, i requires 0 <= i < |xs| => (base + xs[i]) % U32Limit)
  }

  /** The corrected index list: each mesh's face indices offset by the number
      of vertices of the meshes before it. */
  function RebasedSceneIndices(ms: seq<Mesh>): seq<U32> {
    if ms == [] then []
    else RebasedSceneIndices(ms[..|ms| - 1]) + Shifted(FaceIndices(ms[|ms| - 1].faces), VertexCount(ms[..|ms| - 1]))
  }

  /** The corrected loader: as `LoadModel`, but each index is offset by the
      number of vertices emitted before its mesh. */
  method LoadModelRebased(scene: Option<Scene>) returns (r: Result<Model>)
    requires scene.Some? ==> WellFormedMeshes(scene.value.meshes)
    ensures scene.None? ==> r == Err("Couldn't load model")
    ensures scene.Some? ==>
      r == Ok(Model(SceneVertices(scene.value.meshes), RebasedSceneIndices(scene.value.meshes)))
  {
    if scene.None? {
      return Err("Couldn't load model");
    }
    var ms := scene.value.meshes;
    var vertices: seq<Vertex> := [];
    var indices: seq<U32> := [];
    for i := 0 to |ms|
      invariant vertices == SceneVertices(ms[..i])
      invariant indices == RebasedSceneIndices(ms[..i])
    {
      var mesh := ms[i];
      assert ms[..i + 1][..i] == ms[..i];
      SceneVerticesCount(ms[..i]);
      var base := |vertices|;
      vertices := AppendMeshVertices(vertices, mesh);
      indices := AppendShiftedFaces(indices, mesh.faces, base);
    }
    assert ms[..|ms|] == ms;
    return Ok(Model(vertices, indices));
  }

  /** The face loop of the corrected loader: every corner of every face,
      offset by `base`, appended to `indices`. */
  method AppendShiftedFaces(indices: seq<U32>, faces: seq<Face>, base: nat) returns (out: seq<U32>)
    ensures out == indices + Shifted(FaceIndices(faces), base)
  {
    out := indices;
    for j := 0 to |faces|
      invariant out == indices + Shifted(FaceIndices(faces[..j]), base)
    {
      var face := faces[j];
      out := AppendShiftedCorners(out, face.indices, base);
      assert faces[..j + 1][..j] == faces[..j];
      ShiftedConcat(FaceIndices(faces[..j]), face.indices, base);
    }
    assert faces[..|faces|] == faces;
  }

  /** The corner loop of the corrected loader: each index of one face,
      offset by `base` in 32-bit arithmetic, appended to `indices`. */
  method AppendShiftedCorners(indices: seq<U32>, corners: seq<U32>, base: nat) returns (out: seq<U32>)
    ensures out == indices + Shifted(corners, base)
  {
    out := indices;
    for k := 0 to |corners|
      invariant out == indices + Shifted(corners[..k], base)
    {
      out := out + [(base + corners[k]) % U32Limit];
      assert corners[..k + 1] == corners[..k] + [corners[k]];
      ShiftedConcat(corners[..k], [corners[k]], base);
    }
    assert corners[..|corners|] == corners;
  }

  lemma ShiftedConcat(xs: seq<U32>, ys: seq<U32>, base: nat)
    ensures Shifted(xs + ys, base) == Shifted(xs, base) + Shifted(ys, base)
  {
  }

  lemma {:induction false} VertexCountPrefix(ms: seq<Mesh>, m: nat)
    requires m < |ms|
    ensures VertexCount(ms[..m]) + |ms[m].vertices| <= VertexCount(ms)
  {
    var n := |ms| - 1;
    if m < n {
      assert ms[..n][..m] == ms[..m];
      VertexCountPrefix(ms[..n], m);
    } else {
      assert ms[..n] == ms[..m];
    }
  }

  /** Corner `k` of face `f` of mesh `m` becomes the index of that corner's
      vertex among all the output vertices. */
  lemma {:induction false} RebasedIndexAt(ms: seq<Mesh>, m: nat, f: nat, k: nat)
    requires VertexCount(ms) <= U32Limit
    requires m < |ms| && f < |ms[m].faces| && k < |ms[m].faces[f].indices|
    requires FacesWithinMesh(ms[m])
    ensures IndexCount(ms[..m]) + FaceIndexCount(ms[m].faces[..f]) + k < |RebasedSceneIndices(ms)|
    ensures RebasedSceneIndices(ms)[IndexCount(ms[..m]) + FaceIndexCount(ms[m].faces[..f]) + k]
            == VertexCount(ms[..m]) + ms[m].faces[f].indices[k]
  {
    var n := |ms| - 1;
    var front := ms[..n];
    var tail := Shifted(FaceIndices(ms[n].faces), VertexCount(front));
    assert RebasedSceneIndices(ms) == RebasedSceneIndices(front) + tail;
    RebasedCount(front);
    if m == n {
      assert front == ms[..m];
      RebasedIndexInLast(ms, f, k);
    } else {
      assert front[..m] == ms[..m];
      assert VertexCount(ms) == VertexCount(front) + |ms[n].vertices|;
      RebasedIndexAt(front, m, f, k);
    }
  }

  /** The case of the last mesh: its indices come after all the others',
      shifted by the number of vertices before it. */
  lemma RebasedIndexInLast(ms: seq<Mesh>, f: nat, k: nat)
    requires VertexCount(ms) <= U32Limit && ms != []
    requires f < |ms[|ms| - 1].faces| && k < |ms[|ms| - 1].faces[f].indices|
    requires FacesWithinMesh(ms[|ms| - 1])
    ensures var n := |ms| - 1;
            var pos := IndexCount(ms[..n]) + FaceIndexCount(ms[n].faces[..f]) + k;
            pos < |RebasedSceneIndices(ms)|
            && RebasedSceneIndices(ms)[pos] == VertexCount(ms[..n]) + ms[n].faces[f].indices[k]
  {
    var n := |ms| - 1;
    var front := ms[..n];
    var faces := FaceIndices(ms[n].faces);
    var tail := Shifted(faces, VertexCount(front));
    var idx := ms[n].faces[f].indices[k];
    var pos := FaceIndexCount(ms[n].faces[..f]) + k;
    assert RebasedSceneIndices(ms) == RebasedSceneIndices(front) + tail;
    RebasedCount(front);
    FaceIndexAt(ms[n].faces, f, k);
    assert idx < |ms[n].vertices|;
    assert VertexCount(ms) == VertexCount(front) + |ms[n].vertices|;
    ShiftedAt(faces, VertexCount(front), pos);
  }

  lemma ShiftedAt(xs: seq<U32>, base: nat, i: nat)
    requires i < |xs| && base + xs[i] < U32Limit
    ensures Shifted(xs, base)[i] == base + xs[i]
  {
  }

  lemma {:induction false} RebasedCount(ms: seq<Mesh>)
    ensures |RebasedSceneIndices(ms)| == IndexCount(ms)
  {
    if ms != [] {
      RebasedCount(ms[..|ms| - 1]);
      FaceIndicesCount(ms[|ms| - 1].faces);
    }
  }

  /** With the corrected indices, every face corner of every mesh draws the
      vertex it names in its own mesh. */
  lemma RebasedIndicesResolve(ms: seq<Mesh>, m: nat, f: nat, k: nat)
    requires WellFormedMeshes(ms) && VertexCount(ms) <= U32Limit
    requires m < |ms| && f < |ms[m].faces| && k < |ms[m].faces[f].indices|
    requires FacesWithinMesh(ms[m])
    ensures var at := IndexCount(ms[..m]) + FaceIndexCount(ms[m].faces[..f]) + k;
            at < |RebasedSceneIndices(ms)| &&
            RebasedSceneIndices(ms)[at] < |SceneVertices(ms)| &&
            SceneVertices(ms)[RebasedSceneIndices(ms)[at]] == MeshVertex(ms[m], ms[m].faces[f].indices[k])
  {
    RebasedIndexAt(ms, m, f, k);
    SceneVertexAt(ms, m, ms[m].faces[f].indices[k]);
  }

  /** On a one-mesh scene the corrected loader and the loader as written agree. */
  lemma RebasedOneMesh(m: Mesh)
    ensures RebasedSceneIndices([m]) == SceneIndices([m])
  {
    assert [m][..0] == [];
    assert VertexCount([]) == 0;
  }
}
