/** A drawable instance (mesh id + material id + transform) and the three
    per-item draw helpers that look both assets up in the GPU cache. */
module Renderables {
  import opened Common
  import opened GpuAssets

  /** `Renderable`: the transform defaults to the identity, the flag to
      persistent and the selection id to 0. */
  datatype Renderable = Renderable(
    meshId: Id,
    materialId: Id,
    transform: Matrix,
    frameAllocated: bool,
    selectionId: nat)

  function NewRenderable(meshId: Id, materialId: Id, frameAllocated: bool): (r: Renderable)
    ensures r.meshId == meshId && r.materialId == materialId
    ensures r.transform == Identity && r.frameAllocated == frameAllocated && r.selectionId == 0
  {
    Renderable(meshId, materialId, Identity, frameAllocated, 0)
  }

  /** One `draw_indexed(index_count, instance_count, 0, 0, first_instance)`. */
  datatype Draw = Draw(indexCount: nat, instanceCount: nat, firstInstance: int)

  /** `upload_dependencies`: unless either id is the null id 0, the mesh and
      then the material are looked up in the cache, each loaded on a miss. */
  method UploadDependencies(r: Renderable, cache: GpuAssetCache,
                            meshSource: map<Id, MeshGpu>, materialSource: map<Id, MaterialGpu>)
    modifies cache
    ensures r.meshId == 0 || r.materialId == 0 ==>
      cache.meshes == old(cache.meshes) && cache.materials == old(cache.materials)
    ensures r.meshId != 0 && r.materialId != 0 ==>
      cache.meshes == Fill(old(cache.meshes), r.meshId, meshSource) &&
      cache.materials == Fill(old(cache.materials), r.materialId, materialSource)
    ensures cache.textures == old(cache.textures) && cache.paths == old(cache.paths)
  {
    if r.meshId == 0 || r.materialId == 0 {
      return;
    }
    var _ := cache.GetMeshOrUpload(r.meshId, meshSource);
    var _ := cache.GetMaterialOrUpload(r.materialId, materialSource);
  }

  /** Whether `upload_dependencies` asks the cache for this renderable's assets. */
  predicate Requests(r: Renderable)
  {
    r.meshId != 0 && r.materialId != 0
  }

  /** The mesh ids `upload_dependencies` asks for, over a list of renderables. */
  function MeshRequests(rs: seq<Renderable>): set<Id>
  {
    set i | 0 <= i < |rs| && Requests(rs[i]) :: rs[i].meshId
  }

  function MaterialRequests(rs: seq<Renderable>): set<Id>
  {
    set i | 0 <= i < |rs| && Requests(rs[i]) :: rs[i].materialId
  }

  lemma {:induction false} RequestsAppend(rs: seq<Renderable>, r: Renderable)
    ensures MeshRequests(rs + [r]) == MeshRequests(rs) + (if Requests(r) then {r.meshId} else {})
    ensures MaterialRequests(rs + [r]) == MaterialRequests(rs) + (if Requests(r) then {r.materialId} else {})
  {
    var t := rs + [r];
    assert forall i :: 0 <= i < |rs| ==> t[i] == rs[i];
    assert t[|rs|] == r;
    assert MeshRequests(t) == MeshRequests(rs) + (if Requests(r) then {r.meshId} else {}) by {
      forall x | x in MeshRequests(t) ensures x in MeshRequests(rs) + (if Requests(r) then {r.meshId} else {}) {
        var i :| 0 <= i < |t| && Requests(t[i]) && t[i].meshId == x;
        if i < |rs| {
          assert rs[i] == t[i];
        }
      }
    }
    assert MaterialRequests(t) == MaterialRequests(rs) + (if Requests(r) then {r.materialId} else {}) by {
      forall x | x in MaterialRequests(t) ensures x in MaterialRequests(rs) + (if Requests(r) then {r.materialId} else {}) {
        var i :| 0 <= i < |t| && Requests(t[i]) && t[i].materialId == x;
        if i < |rs| {
          assert rs[i] == t[i];
        }
      }
    }
  }

  /** `int* item_index`: a shared, nullable instance counter. */
  class Counter {
    var value: int

    constructor (v: int)
      ensures value == v
    {
      value := v;
    }
  }

  /** `render_item`: draws one instance when both assets are cached, taking
      the instance index from the counter when there is one; the counter
      advances by one whether or not anything was drawn. */
  method RenderItem(r: Renderable, cache: GpuAssetCache, itemIndex: Counter?) returns (draw: Option<Draw>)
    modifies itemIndex
    ensures draw.Some? <==> r.meshId in cache.meshes && r.materialId in cache.materials
    ensures draw.Some? ==>
      draw.value == Draw(cache.meshes[r.meshId].indexCount, 1, if itemIndex == null then 0 else old(itemIndex.value))
    ensures itemIndex != null ==> itemIndex.value == old(itemIndex.value) + 1
  {
    if !(r.meshId in cache.meshes && r.materialId in cache.materials) {
      if itemIndex != null {
        itemIndex.value := itemIndex.value + 1;
      }
      return None;
    }
    var first := 0;
    if itemIndex != null {
      first := itemIndex.value;
      itemIndex.value := itemIndex.value + 1;
    }
    draw := Some(Draw(cache.meshes[r.meshId].indexCount, 1, first));
  }

  /** `render_widget`: like `render_item`, except that a widget whose assets
      are missing leaves the counter where it was. */
  method RenderWidget(r: Renderable, cache: GpuAssetCache, itemIndex: Counter?) returns (draw: Option<Draw>)
    modifies itemIndex
    ensures draw.Some? <==> r.meshId in cache.meshes && r.materialId in cache.materials
    ensures draw.Some? ==>
      draw.value == Draw(cache.meshes[r.meshId].indexCount, 1, if itemIndex == null then 0 else old(itemIndex.value))
    ensures itemIndex != null ==>
      itemIndex.value == old(itemIndex.value) + (if draw.Some? then 1 else 0)
  {
    if !(r.meshId in cache.meshes && r.materialId in cache.materials) {
      return None;
    }
    var first := 0;
    if itemIndex != null {
      first := itemIndex.value;
      itemIndex.value := itemIndex.value + 1;
    }
    draw := Some(Draw(cache.meshes[r.meshId].indexCount, 1, first));
  }

  /** `render_shadow`: only the mesh matters; the counter is dereferenced
      unconditionally, so it must exist, and it always advances. */
  method RenderShadow(r: Renderable, cache: GpuAssetCache, itemIndex: Counter) returns (draw: Option<Draw>)
    modifies itemIndex
    ensures draw.Some? <==> r.meshId in cache.meshes
    ensures draw.Some? ==> draw.value == Draw(cache.meshes[r.meshId].indexCount, 1, old(itemIndex.value))
    ensures itemIndex.value == old(itemIndex.value) + 1
  {
    if r.meshId !in cache.meshes {
      itemIndex.value := itemIndex.value + 1;
      return None;
    }
    draw := Some(Draw(cache.meshes[r.meshId].indexCount, 1, itemIndex.value));
    itemIndex.value := itemIndex.value + 1;
  }
}
