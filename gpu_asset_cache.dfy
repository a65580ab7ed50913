/** The process-wide GPU asset cache: id-keyed maps of uploaded meshes,
    materials and textures, each entry tagged persistent or frame-allocated.
    Only the cache's declaration is part of the model; uploads themselves are
    external, so entries are opaque records. */
module GpuAssets {
  import opened Common

  datatype MeshGpu = MeshGpu(indexCount: nat, frameAllocated: bool)
  datatype MaterialGpu = MaterialGpu(pipeline: nat, frameAllocated: bool)
  datatype TextureGpu = TextureGpu(image: nat, frameAllocated: bool)

  /** The entries of `m` that survive the end-of-frame sweep. */
  function Persistent<V>(m: map<Id, V>, frameAllocated: V -> bool): (r: map<Id, V>)
    ensures forall k :: k in r <==> k in m && !frameAllocated(m[k])
    ensures forall k :: k in r ==> r[k] == m[k]
  {
    map k | k in m && !frameAllocated(m[k]) :: m[k]
  }

  /** The map after a `get_*_or_upload(id)`: a cached entry is kept as it is;
      on a miss, the entry `source` can load is added; an id nothing can load
      leaves the map alone. */
  function Fill<V>(m: map<Id, V>, id: Id, source: map<Id, V>): (r: map<Id, V>)
    ensures r.Keys == m.Keys + (if id in source then {id} else {})
    ensures forall k :: k in m ==> r[k] == m[k]
    ensures id in r && id !in m ==> r[id] == source[id]
  {
    if id in m || id !in source then m else m[id := source[id]]
  }

  /** The map after `get_*_or_upload` of every id in `ids`, in any order. */
  function FillAll<V>(m: map<Id, V>, ids: set<Id>, source: map<Id, V>): (r: map<Id, V>)
    ensures r.Keys == m.Keys + (ids * source.Keys)
    ensures forall k :: k in m ==> r[k] == m[k]
    ensures forall k :: k in r && k !in m ==> r[k] == source[k]
  {
    map k | k in m.Keys + (ids * source.Keys) :: if k in m then m[k] else source[k]
  }

  /** One more lookup extends the batch by its id: the outcome does not depend
      on the order in which ids are requested. */
  lemma {:induction false} FillStep<V>(m: map<Id, V>, ids: set<Id>, id: Id, source: map<Id, V>)
    ensures Fill(FillAll(m, ids, source), id, source) == FillAll(m, ids + {id}, source)
  {
    var l, r := Fill(FillAll(m, ids, source), id, source), FillAll(m, ids + {id}, source);
    assert l.Keys == r.Keys;
    forall k | k in l ensures l[k] == r[k] {
    }
  }

  /** Two batches of lookups amount to one batch of their union. */
  lemma {:induction false} FillAllUnion<V>(m: map<Id, V>, a: set<Id>, b: set<Id>, source: map<Id, V>)
    ensures FillAll(FillAll(m, a, source), b, source) == FillAll(m, a + b, source)
  {
    var l, r := FillAll(FillAll(m, a, source), b, source), FillAll(m, a + b, source);
    assert l.Keys == r.Keys;
    forall k | k in l ensures l[k] == r[k] {
    }
  }

  function MeshFrameAllocated(e: MeshGpu): bool { e.frameAllocated }
  function MaterialFrameAllocated(e: MaterialGpu): bool { e.frameAllocated }
  function TextureFrameAllocated(e: TextureGpu): bool { e.frameAllocated }

  class GpuAssetCache {
    var meshes: map<Id, MeshGpu>
    var materials: map<Id, MaterialGpu>
    var textures: map<Id, TextureGpu>
    var paths: map<Id, string>

    constructor ()
      ensures meshes == map[] && materials == map[] && textures == map[] && paths == map[]
    {
      meshes, materials, textures, paths := map[], map[], map[], map[];
    }

    /** `get_mesh_or_upload`. Only the declaration is in the source; the
        behaviour is the documented lookup-or-load contract, with the loader
        and the upload abstracted into `source`. That the other maps
        (materials, textures, paths) stay as they were is an assumption of
        the model, since the body is not available. */
    method GetMeshOrUpload(id: Id, source: map<Id, MeshGpu>) returns (entry: Option<MeshGpu>)
      modifies this
      ensures meshes == Fill(old(meshes), id, source)
      ensures materials == old(materials) && textures == old(textures) && paths == old(paths)
      ensures entry == if id in meshes then Some(meshes[id]) else None
    {
      meshes := Fill(meshes, id, source);
      entry := if id in meshes then Some(meshes[id]) else None;
    }

    /** `get_material_or_upload`, as above, with the same assumption that
        the meshes, textures and paths stay as they were. */
    method GetMaterialOrUpload(id: Id, source: map<Id, MaterialGpu>) returns (entry: Option<MaterialGpu>)
      modifies this
      ensures materials == Fill(old(materials), id, source)
      ensures meshes == old(meshes) && textures == old(textures) && paths == old(paths)
      ensures entry == if id in materials then Some(materials[id]) else None
    {
      materials := Fill(materials, id, source);
      entry := if id in materials then Some(materials[id]) else None;
    }

    /** `upload_mesh`: the uploaded mesh is stored under its id (the hash of
        its file path), replacing an earlier entry. Only the declaration's
        call sites are in the source; that an upload replaces and touches no
        other map is an assumption of the model. */
    method UploadMesh(id: Id, e: MeshGpu)
      modifies this
      ensures meshes == old(meshes)[id := e]
      ensures materials == old(materials) && textures == old(textures) && paths == old(paths)
    {
      meshes := meshes[id := e];
    }

    /** `upload_material` (material.hpp:80), with the same assumption. */
    method UploadMaterial(id: Id, e: MaterialGpu)
      modifies this
      ensures materials == old(materials)[id := e]
      ensures meshes == old(meshes) && textures == old(textures) && paths == old(paths)
    {
      materials := materials[id := e];
    }

    /** `clear_frame_allocated_assets`: every frame-allocated entry goes, every
        persistent one stays untouched. Only the declaration is in the
        source; that the paths stay as they were is an assumption of the
        model. */
    method ClearFrameAllocatedAssets()
      modifies this
      ensures meshes == Persistent(old(meshes), MeshFrameAllocated)
      ensures materials == Persistent(old(materials), MaterialFrameAllocated)
      ensures textures == Persistent(old(textures), TextureFrameAllocated)
      ensures paths == old(paths)
    {
      meshes := Persistent(meshes, MeshFrameAllocated);
      materials := Persistent(materials, MaterialFrameAllocated);
      textures := Persistent(textures, TextureFrameAllocated);
    }

    /** `clear`: the whole cache is emptied (shutdown only). */
    method Clear()
      modifies this
      ensures meshes == map[] && materials == map[] && textures == map[] && paths == map[]
    {
      meshes, materials, textures, paths := map[], map[], map[], map[];
    }
  }
}
