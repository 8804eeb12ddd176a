/** The scene flattening of processMesh and processNode: every mesh the node tree
    references is appended, in pre-order, to one shared vertex buffer and one shared
    index buffer, and gets one draw range (a sub-mesh) recording where it starts. */
module Flatten {
  import opened Types

  /** An imported mesh, reduced to what the flattening reads. `texCoords` is UV
      channel 0, whose coordinates have three components of which two are used. */
  datatype Mesh = Mesh(
    positions: seq<Vec3>,
    normals: Option<seq<Vec3>>,
    texCoords: Option<seq<Vec3>>,
    faces: seq<seq<U32>>,
    materialIndex: U32)

  /** What the importer guarantees of a mesh: the optional per-vertex arrays have one
      entry per vertex, and the vertex and face counts fit their unsigned int fields. */
  predicate ValidMesh(mesh: Mesh) {
    && |mesh.positions| < U32_LIMIT
    && |mesh.faces| < U32_LIMIT
    && (mesh.normals.Some? ==> |mesh.normals.value| == |mesh.positions|)
    && (mesh.texCoords.Some? ==> |mesh.texCoords.value| == |mesh.positions|)
  }

  /** The scene's mesh table, every entry valid. */
  predicate ValidTable(table: seq<Mesh>) {
    forall m :: 0 <= m < |table| ==> ValidMesh(table[m])
  }

  /** A node of the scene graph: indices into the mesh table, then child nodes. */
  datatype Node = Node(meshes: seq<U32>, children: seq<Node>)

  /** The interleaved vertex layout. */
  datatype Vertex = Vertex(position: Vec3, normal: Vec3, texCoords: Vec2)

  /** One draw range: `indexCount` indices from `baseIndex` on, each offset by `baseVertex`. */
  datatype SubMesh = SubMesh(indexCount: U32, baseIndex: U32, baseVertex: U32, materialIndex: U32)

  /** The three growing lists the flattening fills. */
  datatype Buffers = Buffers(vertices: seq<Vertex>, indices: seq<U32>, subMeshes: seq<SubMesh>)

  const EMPTY_BUFFERS := Buffers([], [], [])

  /** The normal given to every vertex of a mesh without normals: straight up. */
  const DEFAULT_NORMAL := Vec3(0.0, 1.0, 0.0)

  /** The texture coordinate given to every vertex of a mesh without UV channel 0. */
  const DEFAULT_TEX_COORDS := Vec2(0.0, 0.0)

  /** The normal of vertex i: the mesh's own, or the default. */
  function NormalAt(mesh: Mesh, i: nat): Vec3
    requires ValidMesh(mesh) && i < |mesh.positions|
  {
    if mesh.normals.Some? then mesh.normals.value[i] else DEFAULT_NORMAL
  }

  /** The texture coordinate of vertex i: the first two components of channel 0, or the default. */
  function TexCoordsAt(mesh: Mesh, i: nat): Vec2
    requires ValidMesh(mesh) && i < |mesh.positions|
  {
    if mesh.texCoords.Some? then Vec2(mesh.texCoords.value[i].x, mesh.texCoords.value[i].y)
    else DEFAULT_TEX_COORDS
  }

  /** The first n vertices of a mesh, in the buffer layout. */
  function VerticesUpTo(mesh: Mesh, n: nat): seq<Vertex>
    requires ValidMesh(mesh) && n <= |mesh.positions|
  {
    if n == 0 then []
    else VerticesUpTo(mesh, n - 1) + [Vertex(mesh.positions[n - 1], NormalAt(mesh, n - 1), TexCoordsAt(mesh, n - 1))]
  }

  /** All vertices of a mesh, in the buffer layout. */
  function MeshVertices(mesh: Mesh): seq<Vertex>
    requires ValidMesh(mesh)
  {
    VerticesUpTo(mesh, |mesh.positions|)
  }

  /** The indices of the faces, concatenated in face order. */
  function FaceIndices(faces: seq<seq<U32>>): seq<U32> {
    if faces == [] then [] else FaceIndices(faces[..|faces| - 1]) + faces[|faces| - 1]
  }

  /** The draw range of a mesh appended to `b`. */
  function MeshSubMesh(b: Buffers, mesh: Mesh): SubMesh {
    SubMesh(Wrap32(|mesh.faces| * 3), Wrap32(|b.indices|), Wrap32(|b.vertices|), mesh.materialIndex)
  }

  /** The buffers after one mesh has been appended. */
  function AddMesh(b: Buffers, mesh: Mesh): Buffers
    requires ValidMesh(mesh)
  {
    Buffers(b.vertices + MeshVertices(mesh), b.indices + FaceIndices(mesh.faces), b.subMeshes + [MeshSubMesh(b, mesh)])
  }

  /** Every reference is an index into a table of n meshes. */
  predicate RefsIn(refs: seq<U32>, n: nat) {
    forall k :: 0 <= k < |refs| ==> refs[k] < n
  }

  /** The buffers after the referenced meshes have been appended, in order. */
  function AddMeshes(b: Buffers, table: seq<Mesh>, refs: seq<U32>): Buffers
    requires ValidTable(table) && RefsIn(refs, |table|)
  {
    if refs == [] then b
    else AddMesh(AddMeshes(b, table, refs[..|refs| - 1]), table[refs[|refs| - 1]])
  }

  /** The mesh references of a tree in depth-first pre-order: a node's own meshes,
      then each child's subtree in turn. */
  function PreOrder(node: Node): seq<U32> {
    node.meshes + Forest(node.children)
  }

  /** The pre-order references of a list of sibling subtrees. */
  function Forest(nodes: seq<Node>): seq<U32> {
    if nodes == [] then [] else Forest(nodes[..|nodes| - 1]) + PreOrder(nodes[|nodes| - 1])
  }

  /** The buffers after the scene's node tree has been flattened, starting empty. */
  function LoadedScene(table: seq<Mesh>, root: Node): Buffers
    requires ValidTable(table) && RefsIn(PreOrder(root), |table|)
  {
    AddMeshes(EMPTY_BUFFERS, table, PreOrder(root))
  }

  // ----- properties of one mesh -----

  /** Vertex i of the appended block carries the mesh's position i, its normal i or
      (0,1,0) when the mesh has no normals, and the x,y of its UV i or (0,0) when it
      has no UV channel 0. */
  lemma {:induction false} VerticesUpToAt(mesh: Mesh, n: nat)
    requires ValidMesh(mesh) && n <= |mesh.positions|
    ensures |VerticesUpTo(mesh, n)| == n
    ensures forall i :: 0 <= i < n ==>
      var v := VerticesUpTo(mesh, n)[i];
      && v.position == mesh.positions[i]
      && v.normal == (if mesh.normals.Some? then mesh.normals.value[i] else Vec3(0.0, 1.0, 0.0))
      && v.texCoords == (if mesh.texCoords.Some? then Vec2(mesh.texCoords.value[i].x, mesh.texCoords.value[i].y)
                         else Vec2(0.0, 0.0))
  {
    if n > 0 {
      VerticesUpToAt(mesh, n - 1);
    }
  }

  /** The face list's indices are the prefix's indices followed by the rest. */
  lemma {:induction false} FaceIndicesPrefix(faces: seq<seq<U32>>, k: nat)
    requires k <= |faces|
    ensures FaceIndices(faces[..k]) <= FaceIndices(faces)
    decreases |faces|
  {
    if k < |faces| {
      var init := faces[..|faces| - 1];
      assert init[..k] == faces[..k];
      FaceIndicesPrefix(init, k);
    } else {
      assert faces[..k] == faces;
    }
  }

  /** Index j of face k is appended verbatim, after the indices of faces 0..k-1, and
      is not offset by the mesh's base vertex. */
  lemma FaceIndexAt(faces: seq<seq<U32>>, k: nat, j: nat)
    requires k < |faces| && j < |faces[k]|
    ensures var offset := |FaceIndices(faces[..k])|;
      offset + j < |FaceIndices(faces)| && FaceIndices(faces)[offset + j] == faces[k][j]
  {
    assert faces[..k + 1][..k] == faces[..k];
    FaceIndicesPrefix(faces, k + 1);
  }

  /** Each face's index list has exactly three entries. */
  predicate Triangulated(mesh: Mesh) {
    forall f :: 0 <= f < |mesh.faces| ==> |mesh.faces[f]| == 3
  }

  /** When every face is a triangle, the indices appended number three per face:
      the index count the mesh's draw range records. */
  lemma {:induction false} TrianglesGiveThreeIndicesEach(faces: seq<seq<U32>>)
    requires forall f :: 0 <= f < |faces| ==> |faces[f]| == 3
    ensures |FaceIndices(faces)| == 3 * |faces|
    decreases |faces|
  {
    if faces != [] {
      TrianglesGiveThreeIndicesEach(faces[..|faces| - 1]);
    }
  }

  /** A face with two indices (a line) still counts three in the draw range: the
      range then reaches one index past what the mesh appended. */
  lemma LineFaceOvercounts(b: Buffers)
    ensures var mesh := Mesh([Vec3(0.0, 0.0, 0.0), Vec3(1.0, 0.0, 0.0)], None, None, [[0, 1]], 0);
      var after := AddMesh(b, mesh);
      && |after.indices| == |b.indices| + 2
      && after.subMeshes[|b.subMeshes|].indexCount == 3
  {
  }

  /** Every appended index is below n when every face index is. */
  lemma {:induction false} FaceIndicesBounded(faces: seq<seq<U32>>, n: nat)
    requires forall f, j :: 0 <= f < |faces| && 0 <= j < |faces[f]| ==> faces[f][j] < n
    ensures forall t :: 0 <= t < |FaceIndices(faces)| ==> FaceIndices(faces)[t] < n
    decreases |faces|
  {
    if faces != [] {
      var init := faces[..|faces| - 1];
      FaceIndicesBounded(init, n);
      var last := faces[|faces| - 1];
      assert FaceIndices(faces) == FaceIndices(init) + last;
      forall t | |FaceIndices(init)| <= t < |FaceIndices(faces)|
        ensures FaceIndices(faces)[t] < n
      {
        assert FaceIndices(faces)[t] == last[t - |FaceIndices(init)|];
      }
    }
  }

  /** A mesh's draw range starts at the buffer sizes before it was appended, counts
      three indices per face and copies the material index verbatim; the earlier
      contents of all three buffers are unchanged and exactly one range is added. */
  lemma AddMeshAppends(b: Buffers, mesh: Mesh)
    requires ValidMesh(mesh) && |b.vertices| < U32_LIMIT && |b.indices| < U32_LIMIT
    ensures var after := AddMesh(b, mesh);
      && |after.vertices| == |b.vertices| + |mesh.positions|
      && after.vertices[..|b.vertices|] == b.vertices
      && after.indices[..|b.indices|] == b.indices
      && |after.subMeshes| == |b.subMeshes| + 1
      && after.subMeshes[..|b.subMeshes|] == b.subMeshes
      && after.subMeshes[|b.subMeshes|].baseVertex == |b.vertices|
      && after.subMeshes[|b.subMeshes|].baseIndex == |b.indices|
      && after.subMeshes[|b.subMeshes|].indexCount == (3 * |mesh.faces|) % U32_LIMIT
      && after.subMeshes[|b.subMeshes|].materialIndex == mesh.materialIndex
  {
    VerticesUpToAt(mesh, |mesh.positions|);
  }

  /** The quad example: four vertices and two triangles give a range of six indices
      at base 0, and a second copy appended after it starts at index 6, vertex 4. */
  lemma QuadExample()
    ensures var quad := Mesh([Vec3(0.0, 0.0, 0.0), Vec3(1.0, 0.0, 0.0), Vec3(1.0, 1.0, 0.0), Vec3(0.0, 1.0, 0.0)],
                             None, None, [[0, 1, 2], [0, 2, 3]], 7);
      var once := AddMesh(EMPTY_BUFFERS, quad);
      var twice := AddMesh(once, quad);
      && once.indices == [0, 1, 2, 0, 2, 3]
      && once.subMeshes == [SubMesh(6, 0, 0, 7)]
      && twice.subMeshes == [SubMesh(6, 0, 0, 7), SubMesh(6, 6, 4, 7)]
  {
    var quad := Mesh([Vec3(0.0, 0.0, 0.0), Vec3(1.0, 0.0, 0.0), Vec3(1.0, 1.0, 0.0), Vec3(0.0, 1.0, 0.0)],
                     None, None, [[0, 1, 2], [0, 2, 3]], 7);
    var faces := quad.faces;
    assert faces[..1] == [[0, 1, 2]];
    assert faces[..1][..0] == faces[..0];
    assert FaceIndices(faces) == [0, 1, 2, 0, 2, 3];
    VerticesUpToAt(quad, 4);
  }

  // ----- properties of the tree walk -----

  /** Appending two reference lists one after the other is appending their concatenation. */
  lemma {:induction false} AddMeshesAppend(b: Buffers, table: seq<Mesh>, xs: seq<U32>, ys: seq<U32>)
    requires ValidTable(table) && RefsIn(xs, |table|) && RefsIn(ys, |table|)
    ensures RefsIn(xs + ys, |table|)
    ensures AddMeshes(b, table, xs + ys) == AddMeshes(AddMeshes(b, table, xs), table, ys)
    decreases |ys|
  {
    assert forall k :: 0 <= k < |xs + ys| ==> (xs + ys)[k] == if k < |xs| then xs[k] else ys[k - |xs|];
    if ys != [] {
      var init := ys[..|ys| - 1];
      AddMeshesAppend(b, table, xs, init);
      assert (xs + ys)[..|xs + ys| - 1] == xs + init;
    } else {
      assert xs + ys == xs;
    }
  }

  /** The flattening only appends: the earlier contents of all three buffers are kept. */
  lemma {:induction false} AddMeshesOnlyAppends(b: Buffers, table: seq<Mesh>, refs: seq<U32>)
    requires ValidTable(table) && RefsIn(refs, |table|)
    ensures var after := AddMeshes(b, table, refs);
      && b.vertices <= after.vertices
      && b.indices <= after.indices
      && b.subMeshes <= after.subMeshes
    decreases |refs|
  {
    if refs != [] {
      AddMeshesOnlyAppends(b, table, refs[..|refs| - 1]);
    }
  }

  /** The flattening appends one draw range per reference, in reference order: range
      j of the new ones belongs to mesh refs[j] and counts three indices per face. */
  lemma {:induction false} AddMeshesRanges(b: Buffers, table: seq<Mesh>, refs: seq<U32>)
    requires ValidTable(table) && RefsIn(refs, |table|)
    ensures var after := AddMeshes(b, table, refs);
      && |after.subMeshes| == |b.subMeshes| + |refs|
      && forall j :: 0 <= j < |refs| ==>
           && after.subMeshes[|b.subMeshes| + j].materialIndex == table[refs[j]].materialIndex
           && after.subMeshes[|b.subMeshes| + j].indexCount == (3 * |table[refs[j]].faces|) % U32_LIMIT
    decreases |refs|
  {
    if refs != [] {
      var init := refs[..|refs| - 1];
      AddMeshesRanges(b, table, init);
      var mid := AddMeshes(b, table, init);
      var after := AddMesh(mid, table[refs[|refs| - 1]]);
      forall j | 0 <= j < |refs|
        ensures after.subMeshes[|b.subMeshes| + j].materialIndex == table[refs[j]].materialIndex
        ensures after.subMeshes[|b.subMeshes| + j].indexCount == (3 * |table[refs[j]].faces|) % U32_LIMIT
      {
        if j < |init| {
          assert after.subMeshes[|b.subMeshes| + j] == mid.subMeshes[|b.subMeshes| + j];
          assert refs[j] == init[j];
        }
      }
    }
  }

  /** References that are all in range stay so in any prefix, and a concatenation is
      in range exactly when both parts are. */
  lemma RefsInParts(xs: seq<U32>, ys: seq<U32>, n: nat)
    ensures RefsIn(xs + ys, n) <==> RefsIn(xs, n) && RefsIn(ys, n)
    ensures xs <= ys && RefsIn(ys, n) ==> RefsIn(xs, n)
  {
    if RefsIn(xs, n) && RefsIn(ys, n) {
      forall k | 0 <= k < |xs + ys| ensures (xs + ys)[k] < n {
        if k >= |xs| {
          assert (xs + ys)[k] == ys[k - |xs|];
        }
      }
    }
    if RefsIn(xs + ys, n) {
      forall k | 0 <= k < |xs| ensures xs[k] < n {
        assert xs[k] == (xs + ys)[k];
      }
      forall k | 0 <= k < |ys| ensures ys[k] < n {
        assert ys[k] == (xs + ys)[|xs| + k];
      }
    }
  }

  /** The subtrees of the first k children come first in the pre-order of the siblings. */
  lemma {:induction false} ForestPrefix(nodes: seq<Node>, k: nat)
    requires k <= |nodes|
    ensures Forest(nodes[..k]) <= Forest(nodes)
    decreases |nodes|
  {
    if k < |nodes| {
      var init := nodes[..|nodes| - 1];
      assert init[..k] == nodes[..k];
      ForestPrefix(init, k);
    } else {
      assert nodes[..k] == nodes;
    }
  }

  /** Child k's subtree follows, in its parent's pre-order, the parent's own meshes
      and the subtrees of children 0..k-1. */
  lemma ChildSubtreeInPreOrder(node: Node, k: nat)
    requires k < |node.children|
    ensures node.meshes + Forest(node.children[..k + 1])
         == node.meshes + Forest(node.children[..k]) + PreOrder(node.children[k])
    ensures node.meshes + Forest(node.children[..k + 1]) <= PreOrder(node)
  {
    assert node.children[..k + 1][..k] == node.children[..k];
    ForestPrefix(node.children, k + 1);
  }

  // ----- the draw ranges stay inside the buffers -----

  /** A draw range lies inside the index buffer, and every index in it, offset by the
      range's base vertex, names a vertex of the vertex buffer. */
  predicate RangeInside(b: Buffers, sm: SubMesh) {
    && sm.baseIndex + sm.indexCount <= |b.indices|
    && forall j :: sm.baseIndex <= j < sm.baseIndex + sm.indexCount ==> sm.baseVertex + b.indices[j] < |b.vertices|
  }

  /** Every draw range lies inside the buffers. */
  predicate Drawable(b: Buffers) {
    forall s :: 0 <= s < |b.subMeshes| ==> RangeInside(b, b.subMeshes[s])
  }

  /** Every face index of the mesh names one of its own vertices. */
  predicate IndicesInMesh(mesh: Mesh) {
    forall f, j :: 0 <= f < |mesh.faces| && 0 <= j < |mesh.faces[f]| ==> mesh.faces[f][j] < |mesh.positions|
  }

  /** A range inside some buffers stays inside them after more is appended. */
  lemma RangeInsideGrown(b: Buffers, c: Buffers, sm: SubMesh)
    requires RangeInside(b, sm)
    requires |b.indices| <= |c.indices| && c.indices[..|b.indices|] == b.indices
    requires |b.vertices| <= |c.vertices|
    ensures RangeInside(c, sm)
  {
  }

  /** Appending a triangulated mesh whose indices name its own vertices keeps every
      draw range inside the buffers, provided no offset or count wraps around. */
  lemma AddMeshKeepsDrawable(b: Buffers, mesh: Mesh)
    requires ValidMesh(mesh) && Triangulated(mesh) && IndicesInMesh(mesh)
    requires |b.vertices| < U32_LIMIT && |b.indices| < U32_LIMIT && 3 * |mesh.faces| < U32_LIMIT
    requires Drawable(b)
    ensures Drawable(AddMesh(b, mesh))
  {
    var after := AddMesh(b, mesh);
    VerticesUpToAt(mesh, |mesh.positions|);
    TrianglesGiveThreeIndicesEach(mesh.faces);
    FaceIndicesBounded(mesh.faces, |mesh.positions|);
    assert after.indices[..|b.indices|] == b.indices;
    forall s | 0 <= s < |after.subMeshes|
      ensures RangeInside(after, after.subMeshes[s])
    {
      if s < |b.subMeshes| {
        RangeInsideGrown(b, after, b.subMeshes[s]);
      } else {
        var sm := after.subMeshes[s];
        assert sm == MeshSubMesh(b, mesh);
        forall j | sm.baseIndex <= j < sm.baseIndex + sm.indexCount
          ensures sm.baseVertex + after.indices[j] < |after.vertices|
        {
          assert after.indices[j] == FaceIndices(mesh.faces)[j - |b.indices|];
        }
      }
    }
  }

  /** Flattening triangulated meshes whose indices name their own vertices keeps every
      draw range inside the buffers, as long as the final buffers fit unsigned int offsets. */
  lemma {:induction false} AddMeshesKeepsDrawable(b: Buffers, table: seq<Mesh>, refs: seq<U32>)
    requires ValidTable(table) && RefsIn(refs, |table|)
    requires forall m :: 0 <= m < |table| ==> Triangulated(table[m]) && IndicesInMesh(table[m])
    requires Drawable(b)
    requires |AddMeshes(b, table, refs).vertices| < U32_LIMIT && |AddMeshes(b, table, refs).indices| < U32_LIMIT
    ensures Drawable(AddMeshes(b, table, refs))
    decreases |refs|
  {
    if refs != [] {
      var init := refs[..|refs| - 1];
      var mesh := table[refs[|refs| - 1]];
      var mid := AddMeshes(b, table, init);
      TrianglesGiveThreeIndicesEach(mesh.faces);
      assert |AddMesh(mid, mesh).indices| == |mid.indices| + 3 * |mesh.faces|;
      AddMeshesKeepsDrawable(b, table, init);
      AddMeshKeepsDrawable(mid, mesh);
    }
  }

  /** The loaded scene: one draw range per mesh reference of the tree, in pre-order,
      each inside the buffers when the meshes are triangulated and the buffers fit
      unsigned int offsets. */
  lemma LoadedSceneRanges(table: seq<Mesh>, root: Node)
    requires ValidTable(table) && RefsIn(PreOrder(root), |table|)
    ensures var refs := PreOrder(root);
      var scene := LoadedScene(table, root);
      && |scene.subMeshes| == |refs|
      && forall j :: 0 <= j < |refs| ==> scene.subMeshes[j].materialIndex == table[refs[j]].materialIndex
    ensures (forall m :: 0 <= m < |table| ==> Triangulated(table[m]) && IndicesInMesh(table[m]))
        && |LoadedScene(table, root).vertices| < U32_LIMIT && |LoadedScene(table, root).indices| < U32_LIMIT
        ==> Drawable(LoadedScene(table, root))
  {
    AddMeshesRanges(EMPTY_BUFFERS, table, PreOrder(root));
    if (forall m :: 0 <= m < |table| ==> Triangulated(table[m]) && IndicesInMesh(table[m]))
        && |LoadedScene(table, root).vertices| < U32_LIMIT && |LoadedScene(table, root).indices| < U32_LIMIT {
      AddMeshesKeepsDrawable(EMPTY_BUFFERS, table, PreOrder(root));
    }
  }

  // ----- the flattening as the program runs it -----

  /** The process-wide vertex, index and sub-mesh lists. */
  class MeshBuffers {
    var vertices: seq<Vertex>
    var indices: seq<U32>
    var subMeshes: seq<SubMesh>

    function Contents(): Buffers
      reads this
    {
      Buffers(vertices, indices, subMeshes)
    }

    constructor ()
      ensures Contents() == EMPTY_BUFFERS
    {
      vertices := [];
      indices := [];
      subMeshes := [];
    }

    /** processMesh: append the mesh's vertices, then its face indices, then its draw range. */
    method ProcessMesh(mesh: Mesh)
      requires ValidMesh(mesh)
      modifies this
      ensures Contents() == AddMesh(old(Contents()), mesh)
    {
      var sm := SubMesh(Wrap32(|mesh.faces| * 3), Wrap32(|indices|), Wrap32(|vertices|), mesh.materialIndex);
      ghost var start := Contents();
      assert sm == MeshSubMesh(start, mesh);

      var i := 0;
      while i < |mesh.positions|
        invariant i <= |mesh.positions|
        invariant vertices == start.vertices + VerticesUpTo(mesh, i)
        invariant indices == start.indices && subMeshes == start.subMeshes
      {
        var normal := DEFAULT_NORMAL;
        if mesh.normals.Some? {
          normal := mesh.normals.value[i];
        }
        var texCoords := DEFAULT_TEX_COORDS;
        if mesh.texCoords.Some? {
          texCoords := Vec2(mesh.texCoords.value[i].x, mesh.texCoords.value[i].y);
        }
        vertices := vertices + [Vertex(mesh.positions[i], normal, texCoords)];
        i := i + 1;
      }

      i := 0;
      while i < |mesh.faces|
        invariant i <= |mesh.faces|
        invariant vertices == start.vertices + MeshVertices(mesh)
        invariant indices == start.indices + FaceIndices(mesh.faces[..i])
        invariant subMeshes == start.subMeshes
      {
        var face := mesh.faces[i];
        var j := 0;
        while j < |face|
          invariant j <= |face|
          invariant vertices == start.vertices + MeshVertices(mesh)
          invariant indices == start.indices + FaceIndices(mesh.faces[..i]) + face[..j]
          invariant subMeshes == start.subMeshes
        {
          indices := indices + [face[j]];
          j := j + 1;
        }
        assert face[..j] == face;
        assert mesh.faces[..i + 1][..i] == mesh.faces[..i];
        i := i + 1;
      }
      assert mesh.faces[..i] == mesh.faces;

      subMeshes := subMeshes + [sm];
    }

    /** processNode: the node's own meshes in order, then each child's subtree in turn. */
    method ProcessNode(node: Node, table: seq<Mesh>)
      requires ValidTable(table) && RefsIn(PreOrder(node), |table|)
      modifies this
      ensures Contents() == AddMeshes(old(Contents()), table, PreOrder(node))
      decreases node
    {
      ghost var start := Contents();
      var i := 0;
      while i < |node.meshes|
        invariant i <= |node.meshes|
        invariant RefsIn(node.meshes[..i], |table|)
        invariant Contents() == AddMeshes(start, table, node.meshes[..i])
      {
        assert node.meshes[..i + 1] <= PreOrder(node);
        RefsInParts(node.meshes[..i + 1], PreOrder(node), |table|);
        assert node.meshes[..i + 1][..i] == node.meshes[..i];
        ProcessMesh(table[node.meshes[i]]);
        i := i + 1;
      }
      assert node.meshes + Forest(node.children[..0]) == node.meshes[..i];

      i := 0;
      while i < |node.children|
        invariant i <= |node.children|
        invariant RefsIn(node.meshes + Forest(node.children[..i]), |table|)
        invariant Contents() == AddMeshes(start, table, node.meshes + Forest(node.children[..i]))
      {
        ghost var done := node.meshes + Forest(node.children[..i]);
        ghost var sub := PreOrder(node.children[i]);
        ChildSubtreeInPreOrder(node, i);
        RefsInParts(done + sub, PreOrder(node), |table|);
        RefsInParts(done, sub, |table|);
        ProcessNode(node.children[i], table);
        AddMeshesAppend(start, table, done, sub);
        i := i + 1;
      }
      assert node.children[..i] == node.children;
    }
  }
}
