/** The per-frame draw loop over the sub-meshes: each range is drawn with its own
    index count and offsets, under the material its index selects when that index is
    inside the material list; otherwise whatever material was bound before stays bound. */
module Render {
  import opened Types
  import opened Materials
  import opened Flatten

  /** Bytes per entry of the index buffer (unsigned int). */
  const INDEX_SIZE: nat := 4

  /** One glDrawElementsBaseVertex call of triangles, with the material whose texture
      and uniforms are bound when it is issued (None: none bound since start-up). */
  datatype DrawCall = DrawCall(count: U32, indexOffsetBytes: nat, baseVertex: U32, bound: Option<Material>)

  /** The bound material after the loop has visited `visited`, starting from `prior`. */
  function BoundAfter(prior: Option<Material>, visited: seq<SubMesh>, materials: seq<Material>): Option<Material> {
    if visited == [] then prior
    else if visited[|visited| - 1].materialIndex < |materials| then Some(materials[visited[|visited| - 1].materialIndex])
    else BoundAfter(prior, visited[..|visited| - 1], materials)
  }

  /** The draw call issued for one range. */
  function DrawOf(sm: SubMesh, bound: Option<Material>): DrawCall {
    DrawCall(sm.indexCount, INDEX_SIZE * sm.baseIndex, sm.baseVertex, bound)
  }

  /** One frame's loop: one call per range, in order; `bound` is what stays bound for
      the next frame. */
  method DrawSubMeshes(subMeshes: seq<SubMesh>, materials: seq<Material>, prior: Option<Material>)
      returns (calls: seq<DrawCall>, bound: Option<Material>)
    ensures |calls| == |subMeshes|
    ensures forall i :: 0 <= i < |subMeshes| ==>
      calls[i] == DrawOf(subMeshes[i], BoundAfter(prior, subMeshes[..i + 1], materials))
    ensures bound == BoundAfter(prior, subMeshes, materials)
  {
    calls := [];
    bound := prior;
    var i := 0;
    while i < |subMeshes|
      invariant i <= |subMeshes|
      invariant |calls| == i
      invariant forall k :: 0 <= k < i ==> calls[k] == DrawOf(subMeshes[k], BoundAfter(prior, subMeshes[..k + 1], materials))
      invariant bound == BoundAfter(prior, subMeshes[..i], materials)
    {
      var matIdx := subMeshes[i].materialIndex;
      if matIdx < |materials| {
        bound := Some(materials[matIdx]);
      }
      assert subMeshes[..i + 1][..i] == subMeshes[..i];
      calls := calls + [DrawCall(subMeshes[i].indexCount, INDEX_SIZE * subMeshes[i].baseIndex, subMeshes[i].baseVertex, bound)];
      i := i + 1;
    }
    assert subMeshes[..i] == subMeshes;
  }

  /** When no visited index is inside the list, the prior material is still bound. */
  lemma {:induction false} NoBindingKeepsPrior(prior: Option<Material>, visited: seq<SubMesh>, materials: seq<Material>)
    requires forall k :: 0 <= k < |visited| ==> visited[k].materialIndex >= |materials|
    ensures BoundAfter(prior, visited, materials) == prior
    decreases |visited|
  {
    if visited != [] {
      var init := visited[..|visited| - 1];
      assert forall k :: 0 <= k < |init| ==> init[k] == visited[k];
      NoBindingKeepsPrior(prior, init, materials);
    }
  }

  /** The bound material is that of the last visited range whose index is inside the list. */
  lemma {:induction false} BoundIsLastInRange(prior: Option<Material>, visited: seq<SubMesh>, materials: seq<Material>, k: nat)
    requires k < |visited| && visited[k].materialIndex < |materials|
    requires forall l :: k < l < |visited| ==> visited[l].materialIndex >= |materials|
    ensures BoundAfter(prior, visited, materials) == Some(materials[visited[k].materialIndex])
    decreases |visited|
  {
    if k < |visited| - 1 {
      var init := visited[..|visited| - 1];
      assert forall l :: k <= l < |init| ==> init[l] == visited[l];
      BoundIsLastInRange(prior, init, materials, k);
    }
  }

  /** A range whose index is inside the list is drawn with its own material; one whose
      index is outside is drawn with whatever the previous call had bound. */
  lemma DrawBindsOwnOrKeeps(subMeshes: seq<SubMesh>, materials: seq<Material>, prior: Option<Material>, i: nat)
    requires i < |subMeshes|
    ensures subMeshes[i].materialIndex < |materials| ==>
      BoundAfter(prior, subMeshes[..i + 1], materials) == Some(materials[subMeshes[i].materialIndex])
    ensures subMeshes[i].materialIndex >= |materials| ==>
      BoundAfter(prior, subMeshes[..i + 1], materials) == BoundAfter(prior, subMeshes[..i], materials)
  {
    assert subMeshes[..i + 1][..i] == subMeshes[..i];
  }

  /** Every bound material is the prior one or an entry of the list; so when the prior
      one and every entry name a texture (non-zero), every draw call has one bound. */
  lemma {:induction false} BoundComesFromList(prior: Option<Material>, visited: seq<SubMesh>, materials: seq<Material>)
    ensures BoundAfter(prior, visited, materials) == prior
        || exists m :: 0 <= m < |materials| && BoundAfter(prior, visited, materials) == Some(materials[m])
    ensures (prior.Some? ==> prior.value.textureID != 0)
        && (forall m :: 0 <= m < |materials| ==> materials[m].textureID != 0)
        && BoundAfter(prior, visited, materials).Some?
        ==> BoundAfter(prior, visited, materials).value.textureID != 0
    decreases |visited|
  {
    if visited != [] {
      BoundComesFromList(prior, visited[..|visited| - 1], materials);
    }
  }
}
