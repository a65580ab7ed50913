/** `renderables_built`: the per-frame grouping of a scene's renderables by
    material and then by mesh, the packed model-matrix and selection-id
    buffers, and the instanced draws that index into them.

    The source keeps the grouping in two nested unordered maps whose
    iteration order is unspecified. Here each map is an association list in
    first-insertion order; every property below about offsets and draws holds
    for any order of the groups, so the choice does not matter. */
module Batching {
  import opened Common
  import opened Renderables
  import opened GpuAssets

  /** `BuiltRenderable`: a selection id and (a pointer to) a transform. */
  datatype BuiltRenderable = BuiltRenderable(selectionId: nat, transform: Matrix)

  /** The inner map entry: one mesh and the list of its instances. */
  datatype MeshList = MeshList(mesh: Id, items: seq<BuiltRenderable>)

  /** The outer map entry: one material and its inner map. */
  datatype MaterialMap = MaterialMap(material: Id, meshes: seq<MeshList>)

  type Built = seq<MaterialMap>

  /** One (material, mesh) group, as the draw loops visit it. */
  datatype Group = Group(material: Id, mesh: Id, items: seq<BuiltRenderable>)

  function Entry(r: Renderable): BuiltRenderable
  {
    BuiltRenderable(r.selectionId, r.transform)
  }

  function Entries(rs: seq<Renderable>): (es: seq<BuiltRenderable>)
    ensures |es| == |rs|
  {
    seq(|rs|, i requires 0 <= i < |rs| => Entry(rs[i]))
  }

  /** A renderable takes part in the frame only when both of its assets are
      resident in the GPU cache. */
  predicate Resolves(r: Renderable, meshKeys: set<Id>, materialKeys: set<Id>)
  {
    r.materialId in materialKeys && r.meshId in meshKeys
  }

  function ResolvesIn(meshKeys: set<Id>, materialKeys: set<Id>): Renderable -> bool
  {
    r => Resolves(r, meshKeys, materialKeys)
  }

  /** The renderables that belong in group (material, mesh). */
  function Selects(material: Id, mesh: Id, meshKeys: set<Id>, materialKeys: set<Id>): Renderable -> bool
  {
    r => Resolves(r, meshKeys, materialKeys) && r.materialId == material && r.meshId == mesh
  }

  function MeshKeys(ms: seq<MeshList>): set<Id>
  {
    set i | 0 <= i < |ms| :: ms[i].mesh
  }

  function MaterialKeys(b: Built): set<Id>
  {
    set i | 0 <= i < |b| :: b[i].material
  }

  /** No key repeats and no list is empty: what two nested maps filled only
      by `try_emplace` followed by `emplace_back` look like. */
  predicate MeshesWellFormed(ms: seq<MeshList>)
  {
    (forall i, j :: 0 <= i < j < |ms| ==> ms[i].mesh != ms[j].mesh) &&
    (forall i :: 0 <= i < |ms| ==> |ms[i].items| > 0)
  }

  predicate WellFormed(b: Built)
  {
    (forall i, j :: 0 <= i < j < |b| ==> b[i].material != b[j].material) &&
    (forall i :: 0 <= i < |b| ==> |b[i].meshes| > 0 && MeshesWellFormed(b[i].meshes))
  }

  /** Every key of the grouping names an asset that is in the cache. */
  predicate KeysResolve(b: Built, meshKeys: set<Id>, materialKeys: set<Id>)
  {
    forall i :: 0 <= i < |b| ==> b[i].material in materialKeys && MeshKeys(b[i].meshes) <= meshKeys
  }

  /** `mat_map.try_emplace(mesh).first->second.emplace_back(x)`. */
  function InsertMesh(ms: seq<MeshList>, mesh: Id, x: BuiltRenderable): seq<MeshList>
    decreases |ms|
  {
    if ms == [] then [MeshList(mesh, [x])]
    else if ms[0].mesh == mesh then [MeshList(mesh, ms[0].items + [x])] + ms[1..]
    else [ms[0]] + InsertMesh(ms[1..], mesh, x)
  }

  /** `renderables_built.try_emplace(material).first->second`, then the mesh
      insertion above. */
  function Insert(b: Built, material: Id, mesh: Id, x: BuiltRenderable): Built
    decreases |b|
  {
    if b == [] then [MaterialMap(material, [MeshList(mesh, [x])])]
    else if b[0].material == material then [MaterialMap(material, InsertMesh(b[0].meshes, mesh, x))] + b[1..]
    else [b[0]] + Insert(b[1..], material, mesh, x)
  }

  lemma {:induction false} MeshKeysCons(head: MeshList, tail: seq<MeshList>)
    ensures MeshKeys([head] + tail) == {head.mesh} + MeshKeys(tail)
  {
    var ms := [head] + tail;
    forall k | k in MeshKeys(ms) ensures k in {head.mesh} + MeshKeys(tail) {
      var i :| 0 <= i < |ms| && ms[i].mesh == k;
      if i > 0 { assert tail[i - 1].mesh == k; }
    }
    forall k | k in MeshKeys(tail) ensures k in MeshKeys(ms) {
      var i :| 0 <= i < |tail| && tail[i].mesh == k;
      assert ms[i + 1].mesh == k;
    }
    assert ms[0].mesh == head.mesh;
  }

  lemma {:induction false} MaterialKeysCons(head: MaterialMap, tail: Built)
    ensures MaterialKeys([head] + tail) == {head.material} + MaterialKeys(tail)
  {
    var b := [head] + tail;
    forall k | k in MaterialKeys(b) ensures k in {head.material} + MaterialKeys(tail) {
      var i :| 0 <= i < |b| && b[i].material == k;
      if i > 0 { assert tail[i - 1].material == k; }
    }
    forall k | k in MaterialKeys(tail) ensures k in MaterialKeys(b) {
      var i :| 0 <= i < |tail| && tail[i].material == k;
      assert b[i + 1].material == k;
    }
    assert b[0].material == head.material;
  }

  lemma {:induction false} MeshesTail(ms: seq<MeshList>)
    requires MeshesWellFormed(ms) && ms != []
    ensures MeshesWellFormed(ms[1..]) && ms[0].mesh !in MeshKeys(ms[1..])
  {
    forall i, j | 0 <= i < j < |ms[1..]| ensures ms[1..][i].mesh != ms[1..][j].mesh {
      assert ms[1..][i] == ms[i + 1] && ms[1..][j] == ms[j + 1];
    }
    forall i | 0 <= i < |ms[1..]| ensures ms[1..][i].mesh != ms[0].mesh && |ms[1..][i].items| > 0 {
      assert ms[1..][i] == ms[i + 1];
    }
  }

  lemma {:induction false} MeshesCons(head: MeshList, tail: seq<MeshList>)
    requires MeshesWellFormed(tail) && head.mesh !in MeshKeys(tail) && |head.items| > 0
    ensures MeshesWellFormed([head] + tail)
  {
    var ms := [head] + tail;
    forall i, j | 0 <= i < j < |ms| ensures ms[i].mesh != ms[j].mesh {
      assert ms[j] == tail[j - 1];
      if i > 0 {
        assert ms[i] == tail[i - 1];
      } else {
        assert tail[j - 1].mesh in MeshKeys(tail);
      }
    }
    forall i | 0 < i < |ms| ensures |ms[i].items| > 0 {
      assert ms[i] == tail[i - 1];
    }
  }

  lemma {:induction false} MaterialsTail(b: Built)
    requires WellFormed(b) && b != []
    ensures WellFormed(b[1..]) && b[0].material !in MaterialKeys(b[1..])
  {
    forall i, j | 0 <= i < j < |b[1..]| ensures b[1..][i].material != b[1..][j].material {
      assert b[1..][i] == b[i + 1] && b[1..][j] == b[j + 1];
    }
    forall i | 0 <= i < |b[1..]|
      ensures b[1..][i].material != b[0].material && |b[1..][i].meshes| > 0 && MeshesWellFormed(b[1..][i].meshes)
    {
      assert b[1..][i] == b[i + 1];
    }
  }

  lemma {:induction false} MaterialsCons(head: MaterialMap, tail: Built)
    requires WellFormed(tail) && head.material !in MaterialKeys(tail)
    requires |head.meshes| > 0 && MeshesWellFormed(head.meshes)
    ensures WellFormed([head] + tail)
  {
    var b := [head] + tail;
    forall i, j | 0 <= i < j < |b| ensures b[i].material != b[j].material {
      assert b[j] == tail[j - 1];
      if i > 0 {
        assert b[i] == tail[i - 1];
      } else {
        assert tail[j - 1].material in MaterialKeys(tail);
      }
    }
    forall i | 0 < i < |b| ensures |b[i].meshes| > 0 && MeshesWellFormed(b[i].meshes) {
      assert b[i] == tail[i - 1];
    }
  }

  /** Inserting adds exactly the new mesh key. */
  lemma {:induction false} InsertMeshKeys(ms: seq<MeshList>, mesh: Id, x: BuiltRenderable)
    ensures MeshKeys(InsertMesh(ms, mesh, x)) == MeshKeys(ms) + {mesh}
    decreases |ms|
  {
    var r := InsertMesh(ms, mesh, x);
    if ms == [] {
      MeshKeysCons(r[0], []);
      assert r == [r[0]] + [];
    } else {
      assert ms == [ms[0]] + ms[1..];
      MeshKeysCons(ms[0], ms[1..]);
      if ms[0].mesh == mesh {
        MeshKeysCons(r[0], ms[1..]);
        assert r == [r[0]] + ms[1..];
      } else {
        InsertMeshKeys(ms[1..], mesh, x);
        MeshKeysCons(ms[0], InsertMesh(ms[1..], mesh, x));
      }
    }
  }

  /** Inserting keeps mesh keys distinct and lists non-empty. */
  lemma {:induction false} InsertMeshWellFormed(ms: seq<MeshList>, mesh: Id, x: BuiltRenderable)
    requires MeshesWellFormed(ms)
    ensures MeshesWellFormed(InsertMesh(ms, mesh, x))
    decreases |ms|
  {
    var r := InsertMesh(ms, mesh, x);
    if ms == [] {
      MeshesCons(r[0], []);
      assert r == [r[0]] + [];
    } else {
      MeshesTail(ms);
      if ms[0].mesh == mesh {
        MeshesCons(r[0], ms[1..]);
      } else {
        InsertMeshWellFormed(ms[1..], mesh, x);
        InsertMeshKeys(ms[1..], mesh, x);
        MeshesCons(ms[0], InsertMesh(ms[1..], mesh, x));
      }
    }
  }

  /** Inserting adds exactly the new material key. */
  lemma {:induction false} InsertKeys(b: Built, material: Id, mesh: Id, x: BuiltRenderable)
    ensures MaterialKeys(Insert(b, material, mesh, x)) == MaterialKeys(b) + {material}
    decreases |b|
  {
    var r := Insert(b, material, mesh, x);
    if b == [] {
      MaterialKeysCons(r[0], []);
      assert r == [r[0]] + [];
    } else {
      assert b == [b[0]] + b[1..];
      MaterialKeysCons(b[0], b[1..]);
      if b[0].material == material {
        MaterialKeysCons(r[0], b[1..]);
        assert r == [r[0]] + b[1..];
      } else {
        InsertKeys(b[1..], material, mesh, x);
        MaterialKeysCons(b[0], Insert(b[1..], material, mesh, x));
      }
    }
  }

  /** Inserting keeps the grouping a genuine two-level map. */
  lemma {:induction false} InsertWellFormed(b: Built, material: Id, mesh: Id, x: BuiltRenderable)
    requires WellFormed(b)
    ensures WellFormed(Insert(b, material, mesh, x))
    decreases |b|
  {
    var r := Insert(b, material, mesh, x);
    if b == [] {
      MaterialsCons(r[0], []);
      assert r == [r[0]] + [];
    } else {
      MaterialsTail(b);
      if b[0].material == material {
        InsertMeshWellFormed(b[0].meshes, mesh, x);
        MaterialsCons(r[0], b[1..]);
      } else {
        InsertWellFormed(b[1..], material, mesh, x);
        InsertKeys(b[1..], material, mesh, x);
        MaterialsCons(b[0], Insert(b[1..], material, mesh, x));
      }
    }
  }

  /** The list stored under `mesh`, or the empty list when there is none. */
  function LookupMesh(ms: seq<MeshList>, mesh: Id): seq<BuiltRenderable>
    decreases |ms|
  {
    if ms == [] then []
    else if ms[0].mesh == mesh then ms[0].items
    else LookupMesh(ms[1..], mesh)
  }

  /** The list stored under (material, mesh), or the empty list. */
  function Lookup(b: Built, material: Id, mesh: Id): seq<BuiltRenderable>
    decreases |b|
  {
    if b == [] then []
    else if b[0].material == material then LookupMesh(b[0].meshes, mesh)
    else Lookup(b[1..], material, mesh)
  }

  lemma {:induction false} InsertMeshLookup(ms: seq<MeshList>, mesh: Id, x: BuiltRenderable, other: Id)
    ensures LookupMesh(InsertMesh(ms, mesh, x), other) ==
      LookupMesh(ms, other) + (if other == mesh then [x] else [])
    decreases |ms|
  {
    if ms != [] && ms[0].mesh != mesh {
      var r := InsertMesh(ms, mesh, x);
      assert r[1..] == InsertMesh(ms[1..], mesh, x);
      InsertMeshLookup(ms[1..], mesh, x, other);
    }
  }

  /** Inserting `x` under (material, mesh) appends it to that list and to no other. */
  lemma {:induction false} InsertLookup(b: Built, material: Id, mesh: Id, x: BuiltRenderable, m: Id, n: Id)
    ensures Lookup(Insert(b, material, mesh, x), m, n) ==
      Lookup(b, m, n) + (if m == material && n == mesh then [x] else [])
    decreases |b|
  {
    var r := Insert(b, material, mesh, x);
    if b == [] {
      var ms := [MeshList(mesh, [x])];
      assert r == [MaterialMap(material, ms)];
      assert LookupMesh(ms, n) == if n == mesh then [x] else LookupMesh(ms[1..], n);
      assert ms[1..] == [];
      assert Lookup(r, m, n) == if m == material then LookupMesh(ms, n) else Lookup(r[1..], m, n);
      assert r[1..] == [];
    } else if b[0].material == material {
      if m == material {
        InsertMeshLookup(b[0].meshes, mesh, x, n);
      }
    } else {
      assert r[1..] == Insert(b[1..], material, mesh, x);
      InsertLookup(b[1..], material, mesh, x, m, n);
    }
  }

  lemma {:induction false} InsertResolves(b: Built, material: Id, mesh: Id, x: BuiltRenderable,
                                          meshKeys: set<Id>, materialKeys: set<Id>)
    requires KeysResolve(b, meshKeys, materialKeys) && material in materialKeys && mesh in meshKeys
    ensures KeysResolve(Insert(b, material, mesh, x), meshKeys, materialKeys)
    decreases |b|
  {
    if b != [] {
      var r := Insert(b, material, mesh, x);
      if b[0].material == material {
        InsertMeshKeys(b[0].meshes, mesh, x);
        assert forall i :: 0 < i < |b| ==> r[i] == b[i];
      } else {
        InsertResolves(b[1..], material, mesh, x, meshKeys, materialKeys);
        assert r[1..] == Insert(b[1..], material, mesh, x);
      }
    }
  }

  /** The grouping built from `rs` by the first loop of
      `setup_renderables_for_passes`: renderables are visited in order and
      each one that resolves is appended to its (material, mesh) list. */
  function Build(rs: seq<Renderable>, meshKeys: set<Id>, materialKeys: set<Id>): Built
    decreases |rs|
  {
    if rs == [] then []
    else
      var b := Build(rs[..|rs| - 1], meshKeys, materialKeys);
      var r := rs[|rs| - 1];
      if Resolves(r, meshKeys, materialKeys) then Insert(b, r.materialId, r.meshId, Entry(r)) else b
  }

  /** Each (material, mesh) list holds exactly the resolving renderables with
      that material and mesh, in scene order; a pair no resolving renderable
      has is absent. */
  lemma {:induction false} BuildLookup(rs: seq<Renderable>, meshKeys: set<Id>, materialKeys: set<Id>,
                                       material: Id, mesh: Id)
    ensures Lookup(Build(rs, meshKeys, materialKeys), material, mesh) ==
      Entries(Filter(rs, Selects(material, mesh, meshKeys, materialKeys)))
    decreases |rs|
  {
    if rs != [] {
      var init := rs[..|rs| - 1];
      var r := rs[|rs| - 1];
      var keep := Selects(material, mesh, meshKeys, materialKeys);
      assert rs == init + [r];
      BuildLookup(init, meshKeys, materialKeys, material, mesh);
      FilterAppend(init, r, keep);
      var f := Filter(init, keep);
      assert Entries(f + [r]) == Entries(f) + [Entry(r)];
      var b := Build(init, meshKeys, materialKeys);
      if Resolves(r, meshKeys, materialKeys) {
        InsertLookup(b, r.materialId, r.meshId, Entry(r), material, mesh);
      }
    }
  }

  /** The grouping is a genuine two-level map, and every key in it is cached. */
  lemma {:induction false} BuildWellFormed(rs: seq<Renderable>, meshKeys: set<Id>, materialKeys: set<Id>)
    ensures WellFormed(Build(rs, meshKeys, materialKeys))
    ensures KeysResolve(Build(rs, meshKeys, materialKeys), meshKeys, materialKeys)
    decreases |rs|
  {
    if rs != [] {
      var r := rs[|rs| - 1];
      BuildWellFormed(rs[..|rs| - 1], meshKeys, materialKeys);
      if Resolves(r, meshKeys, materialKeys) {
        var b := Build(rs[..|rs| - 1], meshKeys, materialKeys);
        InsertResolves(b, r.materialId, r.meshId, Entry(r), meshKeys, materialKeys);
        InsertWellFormed(b, r.materialId, r.meshId, Entry(r));
      }
    }
  }

  // ---------------------------------------------------------------------
  // The groups in the order the nested draw loops visit them, and the
  // packed order of their instances.

  function MeshGroups(m: MaterialMap): (gs: seq<Group>)
    ensures |gs| == |m.meshes|
  {
    seq(|m.meshes|, j requires 0 <= j < |m.meshes| => Group(m.material, m.meshes[j].mesh, m.meshes[j].items))
  }

  function Groups(b: Built): seq<Group>
    decreases |b|
  {
    if b == [] then [] else MeshGroups(b[0]) + Groups(b[1..])
  }

  function GroupItems(gs: seq<Group>): seq<BuiltRenderable>
    decreases |gs|
  {
    if gs == [] then [] else gs[0].items + GroupItems(gs[1..])
  }

  /** The instances in packed order: the rows of the id buffer and the first
      rows of the model-matrix buffer. */
  function Flat(b: Built): seq<BuiltRenderable>
  {
    GroupItems(Groups(b))
  }

  /** `item_index` when the draw loops reach group `k`. */
  function Offset(gs: seq<Group>, k: nat): nat
    requires k <= |gs|
  {
    |GroupItems(gs[..k])|
  }

  lemma {:induction false} GroupItemsAppend(a: seq<Group>, c: seq<Group>)
    ensures GroupItems(a + c) == GroupItems(a) + GroupItems(c)
    decreases |a|
  {
    if a == [] {
      assert a + c == c;
    } else {
      assert (a + c)[1..] == a[1..] + c;
      GroupItemsAppend(a[1..], c);
    }
  }

  lemma {:induction false} GroupsAppend(a: Built, c: Built)
    ensures Groups(a + c) == Groups(a) + Groups(c)
    decreases |a|
  {
    if a == [] {
      assert a + c == c;
    } else {
      assert (a + c)[1..] == a[1..] + c;
      GroupsAppend(a[1..], c);
    }
  }

  /** Group `k`'s instances sit contiguously at `Offset(gs, k)`, and the next
      group starts right after them. */
  lemma {:induction false} OffsetStep(gs: seq<Group>, k: nat)
    requires k < |gs|
    ensures Offset(gs, k + 1) == Offset(gs, k) + |gs[k].items|
    ensures Offset(gs, k) + |gs[k].items| <= |GroupItems(gs)|
    ensures GroupItems(gs)[Offset(gs, k)..Offset(gs, k) + |gs[k].items|] == gs[k].items
  {
    assert gs[..k + 1] == gs[..k] + [gs[k]];
    GroupItemsAppend(gs[..k], [gs[k]]);
    assert GroupItems([gs[k]]) == gs[k].items by {
      assert [gs[k]][1..] == [];
    }
    assert gs == gs[..k + 1] + gs[k + 1..];
    GroupItemsAppend(gs[..k + 1], gs[k + 1..]);
  }

  lemma {:induction false} OffsetEnd(gs: seq<Group>)
    ensures Offset(gs, |gs|) == |GroupItems(gs)|
  {
    assert gs[..|gs|] == gs;
  }

  /** Where the `j`-th mesh list of the `i`-th material lands among the groups. */
  lemma {:induction false} GroupAt(b: Built, i: nat, j: nat)
    requires i < |b| && j < |b[i].meshes|
    ensures |Groups(b[..i])| + j < |Groups(b)|
    ensures Groups(b)[|Groups(b[..i])| + j] == Group(b[i].material, b[i].meshes[j].mesh, b[i].meshes[j].items)
  {
    assert b == b[..i] + ([b[i]] + b[i + 1..]);
    GroupsAppend(b[..i], [b[i]] + b[i + 1..]);
    assert ([b[i]] + b[i + 1..])[1..] == b[i + 1..];
  }

  lemma {:induction false} GroupsPrefixStep(b: Built, i: nat)
    requires i < |b|
    ensures |Groups(b[..i + 1])| == |Groups(b[..i])| + |b[i].meshes|
  {
    assert b[..i + 1] == b[..i] + [b[i]];
    GroupsAppend(b[..i], [b[i]]);
    assert [b[i]][1..] == [];
  }

  // ---------------------------------------------------------------------
  // Sizes.

  lemma {:induction false} MeshGroupsCons(material: Id, head: MeshList, tail: seq<MeshList>)
    ensures GroupItems(MeshGroups(MaterialMap(material, [head] + tail))) ==
      head.items + GroupItems(MeshGroups(MaterialMap(material, tail)))
  {
    var gs := MeshGroups(MaterialMap(material, [head] + tail));
    assert gs[1..] == MeshGroups(MaterialMap(material, tail));
  }

  lemma {:induction false} InsertMeshSize(material: Id, ms: seq<MeshList>, mesh: Id, x: BuiltRenderable)
    ensures |GroupItems(MeshGroups(MaterialMap(material, InsertMesh(ms, mesh, x))))| ==
      |GroupItems(MeshGroups(MaterialMap(material, ms)))| + 1
    decreases |ms|
  {
    var r := InsertMesh(ms, mesh, x);
    if ms == [] {
      MeshGroupsCons(material, r[0], []);
      assert r == [r[0]] + [];
    } else {
      assert ms == [ms[0]] + ms[1..];
      MeshGroupsCons(material, ms[0], ms[1..]);
      if ms[0].mesh == mesh {
        MeshGroupsCons(material, r[0], ms[1..]);
      } else {
        assert r == [ms[0]] + InsertMesh(ms[1..], mesh, x);
        MeshGroupsCons(material, ms[0], InsertMesh(ms[1..], mesh, x));
        InsertMeshSize(material, ms[1..], mesh, x);
      }
    }
  }

  lemma {:induction false} InsertSize(b: Built, material: Id, mesh: Id, x: BuiltRenderable)
    ensures |Flat(Insert(b, material, mesh, x))| == |Flat(b)| + 1
    decreases |b|
  {
    var r := Insert(b, material, mesh, x);
    if b == [] {
      InsertMeshSize(material, [], mesh, x);
      assert r[1..] == [];
      GroupItemsAppend(MeshGroups(r[0]), []);
    } else if b[0].material == material {
      assert r[1..] == b[1..];
      InsertMeshSize(material, b[0].meshes, mesh, x);
      GroupItemsAppend(MeshGroups(r[0]), Groups(b[1..]));
      GroupItemsAppend(MeshGroups(b[0]), Groups(b[1..]));
    } else {
      assert r[1..] == Insert(b[1..], material, mesh, x);
      InsertSize(b[1..], material, mesh, x);
      GroupItemsAppend(MeshGroups(b[0]), Groups(r[1..]));
      GroupItemsAppend(MeshGroups(b[0]), Groups(b[1..]));
    }
  }

  /** `count` at the end of the first loop: the number of resolving
      renderables, which is also the number of packed instances. */
  lemma {:induction false} BuildSize(rs: seq<Renderable>, meshKeys: set<Id>, materialKeys: set<Id>)
    ensures |Flat(Build(rs, meshKeys, materialKeys))| == |Filter(rs, ResolvesIn(meshKeys, materialKeys))|
    decreases |rs|
  {
    if rs != [] {
      var init := rs[..|rs| - 1];
      var r := rs[|rs| - 1];
      assert rs == init + [r];
      BuildSize(init, meshKeys, materialKeys);
      FilterAppend(init, r, ResolvesIn(meshKeys, materialKeys));
      if Resolves(r, meshKeys, materialKeys) {
        InsertSize(Build(init, meshKeys, materialKeys), r.materialId, r.meshId, Entry(r));
      }
    }
  }

  // ---------------------------------------------------------------------
  // From groups back to the scene.

  lemma {:induction false} LookupMeshAt(ms: seq<MeshList>, j: nat)
    requires MeshesWellFormed(ms) && j < |ms|
    ensures LookupMesh(ms, ms[j].mesh) == ms[j].items
    decreases j
  {
    if j > 0 {
      assert ms[1..][j - 1] == ms[j];
      assert MeshesWellFormed(ms[1..]) by {
        forall p, q | 0 <= p < q < |ms[1..]| ensures ms[1..][p].mesh != ms[1..][q].mesh {
          assert ms[1..][p] == ms[p + 1] && ms[1..][q] == ms[q + 1];
        }
      }
      LookupMeshAt(ms[1..], j - 1);
    }
  }

  lemma {:induction false} GroupMaterialIn(b: Built, k: nat)
    requires k < |Groups(b)|
    ensures Groups(b)[k].material in MaterialKeys(b)
    decreases |b|
  {
    assert b == [b[0]] + b[1..];
    MaterialKeysCons(b[0], b[1..]);
    var head := MeshGroups(b[0]);
    if k >= |head| {
      GroupMaterialIn(b[1..], k - |head|);
    }
  }

  /** In a well-formed grouping, each group visited by the draw loops holds
      exactly the list the map stores under its key. */
  lemma {:induction false} GroupsAreLookups(b: Built, k: nat)
    requires WellFormed(b) && k < |Groups(b)|
    ensures Groups(b)[k].items == Lookup(b, Groups(b)[k].material, Groups(b)[k].mesh)
    decreases |b|
  {
    var head := MeshGroups(b[0]);
    var g := Groups(b)[k];
    if k < |head| {
      LookupMeshAt(b[0].meshes, k);
    } else {
      assert WellFormed(b[1..]) by {
        forall p, q | 0 <= p < q < |b[1..]| ensures b[1..][p].material != b[1..][q].material {
          assert b[1..][p] == b[p + 1] && b[1..][q] == b[q + 1];
        }
        forall p | 0 <= p < |b[1..]|
          ensures |b[1..][p].meshes| > 0 && MeshesWellFormed(b[1..][p].meshes)
        {
          assert b[1..][p] == b[p + 1];
        }
      }
      GroupsAreLookups(b[1..], k - |head|);
      GroupMaterialIn(b[1..], k - |head|);
      forall p | 0 <= p < |b[1..]| ensures b[1..][p].material != b[0].material {
        assert b[1..][p] == b[p + 1];
      }
    }
  }

  lemma {:induction false} GroupsResolve(b: Built, meshKeys: set<Id>, materialKeys: set<Id>, k: nat)
    requires KeysResolve(b, meshKeys, materialKeys) && k < |Groups(b)|
    ensures Groups(b)[k].material in materialKeys && Groups(b)[k].mesh in meshKeys
    decreases |b|
  {
    var head := MeshGroups(b[0]);
    if k < |head| {
      assert head[k].mesh in MeshKeys(b[0].meshes);
    } else {
      assert KeysResolve(b[1..], meshKeys, materialKeys) by {
        forall p | 0 <= p < |b[1..]|
          ensures b[1..][p].material in materialKeys && MeshKeys(b[1..][p].meshes) <= meshKeys
        {
          assert b[1..][p] == b[p + 1];
        }
      }
      GroupsResolve(b[1..], meshKeys, materialKeys, k - |head|);
    }
  }

  /** The headline property of the first loop of `setup_renderables_for_passes`:
      each group the draw loops visit has cached assets and holds exactly the
      resolving renderables with its material and mesh, in scene order. */
  lemma {:induction false} BuiltGroupContents(rs: seq<Renderable>, meshKeys: set<Id>, materialKeys: set<Id>, k: nat)
    requires k < |Groups(Build(rs, meshKeys, materialKeys))|
    ensures var g := Groups(Build(rs, meshKeys, materialKeys))[k];
      g.material in materialKeys && g.mesh in meshKeys &&
      g.items == Entries(Filter(rs, Selects(g.material, g.mesh, meshKeys, materialKeys)))
  {
    var b := Build(rs, meshKeys, materialKeys);
    var g := Groups(b)[k];
    BuildWellFormed(rs, meshKeys, materialKeys);
    GroupsResolve(b, meshKeys, materialKeys, k);
    GroupsAreLookups(b, k);
    BuildLookup(rs, meshKeys, materialKeys, g.material, g.mesh);
  }

  // ---------------------------------------------------------------------
  // The packed buffers and the instanced draws.

  function Transforms(es: seq<BuiltRenderable>): (ms: seq<Matrix>)
    ensures |ms| == |es|
  {
    seq(|es|, i requires 0 <= i < |es| => es[i].transform)
  }

  function SelectionIds(es: seq<BuiltRenderable>): (ids: seq<nat>)
    ensures |ids| == |es|
  {
    seq(|es|, i requires 0 <= i < |es| => es[i].selectionId)
  }

  /** The intended contents of `buffer_model_mats`: the packed instances,
      then one row per widget renderable. */
  function ModelRows(b: Built, widgets: seq<Renderable>): seq<Matrix>
  {
    Transforms(Flat(b)) + Transforms(Entries(widgets))
  }

  predicate Drawable(gs: seq<Group>, meshes: map<Id, MeshGpu>)
  {
    forall k :: 0 <= k < |gs| ==> gs[k].mesh in meshes
  }

  /** One instanced draw per group, with the group's instance count and its
      offset in the packed buffers as first instance. */
  function InstancedDraws(gs: seq<Group>, meshes: map<Id, MeshGpu>): (ds: seq<Draw>)
    requires Drawable(gs, meshes)
    ensures |ds| == |gs|
  {
    seq(|gs|, k requires 0 <= k < |gs| => Draw(meshes[gs[k].mesh].indexCount, |gs[k].items|, Offset(gs, k)))
  }

  /** Three draws per group (one per projection axis), all three at the
      group's offset. */
  function VoxelizationDraws(gs: seq<Group>, meshes: map<Id, MeshGpu>): (ds: seq<Draw>)
    requires Drawable(gs, meshes)
    ensures |ds| == 3 * |gs|
  {
    seq(3 * |gs|, t requires 0 <= t < 3 * |gs| =>
      Draw(meshes[gs[t / 3].mesh].indexCount, |gs[t / 3].items|, Offset(gs, t / 3)))
  }

  /** Copying a slice of instances copies the same slice of their columns. */
  lemma {:induction false} ColumnsSlice(flat: seq<BuiltRenderable>, lo: nat, hi: nat, items: seq<BuiltRenderable>)
    requires lo <= hi <= |flat| && flat[lo..hi] == items
    ensures Transforms(flat)[lo..hi] == Transforms(items)
    ensures SelectionIds(flat)[lo..hi] == SelectionIds(items)
  {
    forall q | 0 <= q < hi - lo ensures Transforms(flat)[lo..hi][q] == Transforms(items)[q] {
      assert flat[lo + q] == items[q];
    }
    forall q | 0 <= q < hi - lo ensures SelectionIds(flat)[lo..hi][q] == SelectionIds(items)[q] {
      assert flat[lo + q] == items[q];
    }
  }

  /** The rows draw `k` reads (`first_instance` up to `first_instance +
      instance_count`) hold exactly group `k`'s transforms and selection ids. */
  lemma {:induction false} DrawReadsGroup(b: Built, meshes: map<Id, MeshGpu>, widgets: seq<Renderable>, k: nat)
    requires Drawable(Groups(b), meshes) && k < |Groups(b)|
    ensures var d := InstancedDraws(Groups(b), meshes)[k];
      0 <= d.firstInstance && d.firstInstance + d.instanceCount <= |Flat(b)| &&
      ModelRows(b, widgets)[d.firstInstance..d.firstInstance + d.instanceCount] == Transforms(Groups(b)[k].items) &&
      SelectionIds(Flat(b))[d.firstInstance..d.firstInstance + d.instanceCount] == SelectionIds(Groups(b)[k].items)
  {
    var gs := Groups(b);
    OffsetStep(gs, k);
    var lo, hi := Offset(gs, k), Offset(gs, k) + |gs[k].items|;
    ColumnsSlice(Flat(b), lo, hi, gs[k].items);
    var rows := ModelRows(b, widgets);
    assert rows[lo..hi] == Transforms(Flat(b))[lo..hi] by {
      assert rows == Transforms(Flat(b)) + Transforms(Entries(widgets));
    }
  }

  /** Every group of a built batch has its mesh cached, so the draw loops
      never dereference a missing mesh. */
  lemma {:induction false} BuildDrawable(rs: seq<Renderable>, meshes: map<Id, MeshGpu>, materialKeys: set<Id>)
    ensures Drawable(Groups(Build(rs, meshes.Keys, materialKeys)), meshes)
  {
    var b := Build(rs, meshes.Keys, materialKeys);
    BuildWellFormed(rs, meshes.Keys, materialKeys);
    forall k | 0 <= k < |Groups(b)| ensures Groups(b)[k].mesh in meshes {
      GroupsResolve(b, meshes.Keys, materialKeys, k);
    }
  }

  lemma {:induction false} InstancedDrawsStep(gs: seq<Group>, meshes: map<Id, MeshGpu>, g: nat)
    requires Drawable(gs, meshes) && g < |gs|
    ensures InstancedDraws(gs, meshes)[..g + 1] ==
      InstancedDraws(gs, meshes)[..g] + [Draw(meshes[gs[g].mesh].indexCount, |gs[g].items|, Offset(gs, g))]
  {
    var ds := InstancedDraws(gs, meshes);
    assert ds[..g + 1] == ds[..g] + [ds[g]];
  }

  /** The inner loop of the `sun_depth` and `forward` draws over material
      `i`'s mesh lists. */
  method MaterialInstancedDraws(b: Built, meshes: map<Id, MeshGpu>, i: nat, draws0: seq<Draw>, itemIndex0: nat)
    returns (draws: seq<Draw>, itemIndex: nat)
    requires Drawable(Groups(b), meshes) && i < |b| && |Groups(b[..i])| <= |Groups(b)|
    requires itemIndex0 == Offset(Groups(b), |Groups(b[..i])|)
    requires draws0 == InstancedDraws(Groups(b), meshes)[..|Groups(b[..i])|]
    ensures |Groups(b[..i + 1])| <= |Groups(b)|
    ensures itemIndex == Offset(Groups(b), |Groups(b[..i + 1])|)
    ensures draws == InstancedDraws(Groups(b), meshes)[..|Groups(b[..i + 1])|]
  {
    ghost var gs := Groups(b);
    ghost var g := |Groups(b[..i])|;
    draws, itemIndex := draws0, itemIndex0;
    var meshLists := b[i].meshes;
    var j := 0;
    while j < |meshLists|
      invariant 0 <= j <= |meshLists|
      invariant g == |Groups(b[..i])| + j <= |gs|
      invariant itemIndex == Offset(gs, g)
      invariant draws == InstancedDraws(gs, meshes)[..g]
    {
      GroupAt(b, i, j);
      OffsetStep(gs, g);
      InstancedDrawsStep(gs, meshes, g);
      var meshList := meshLists[j];
      draws := draws + [Draw(meshes[meshList.mesh].indexCount, |meshList.items|, itemIndex)];
      itemIndex := itemIndex + |meshList.items|;
      g := g + 1;
      j := j + 1;
    }
    GroupsPrefixStep(b, i);
  }

  /** The draw loop of the `sun_depth` and `forward` passes: `item_index`
      starts at 0 and advances by each list's size. */
  method InstancedPassDraws(b: Built, meshes: map<Id, MeshGpu>) returns (draws: seq<Draw>)
    requires Drawable(Groups(b), meshes)
    ensures draws == InstancedDraws(Groups(b), meshes)
  {
    draws := [];
    var itemIndex := 0;
    var i := 0;
    while i < |b|
      invariant 0 <= i <= |b|
      invariant |Groups(b[..i])| <= |Groups(b)|
      invariant itemIndex == Offset(Groups(b), |Groups(b[..i])|)
      invariant draws == InstancedDraws(Groups(b), meshes)[..|Groups(b[..i])|]
    {
      draws, itemIndex := MaterialInstancedDraws(b, meshes, i, draws, itemIndex);
      i := i + 1;
    }
    assert b[..|b|] == b;
  }

  lemma {:induction false} VoxelizationDrawsStep(gs: seq<Group>, meshes: map<Id, MeshGpu>, g: nat, axis: nat)
    requires Drawable(gs, meshes) && g < |gs| && axis < 3
    ensures VoxelizationDraws(gs, meshes)[..3 * g + axis + 1] ==
      VoxelizationDraws(gs, meshes)[..3 * g + axis] + [Draw(meshes[gs[g].mesh].indexCount, |gs[g].items|, Offset(gs, g))]
  {
    var ds := VoxelizationDraws(gs, meshes);
    assert (3 * g + axis) / 3 == g;
    assert ds[3 * g + axis] == Draw(meshes[gs[g].mesh].indexCount, |gs[g].items|, Offset(gs, g));
    assert ds[..3 * g + axis + 1] == ds[..3 * g + axis] + [ds[3 * g + axis]];
  }

  /** The inner loops of the `voxelization` draws over material `i`'s mesh
      lists: three draws per list, one per axis. */
  method MaterialVoxelizationDraws(b: Built, meshes: map<Id, MeshGpu>, i: nat, draws0: seq<Draw>, itemIndex0: nat)
    returns (draws: seq<Draw>, itemIndex: nat)
    requires Drawable(Groups(b), meshes) && i < |b| && |Groups(b[..i])| <= |Groups(b)|
    requires itemIndex0 == Offset(Groups(b), |Groups(b[..i])|)
    requires draws0 == VoxelizationDraws(Groups(b), meshes)[..3 * |Groups(b[..i])|]
    ensures |Groups(b[..i + 1])| <= |Groups(b)|
    ensures itemIndex == Offset(Groups(b), |Groups(b[..i + 1])|)
    ensures draws == VoxelizationDraws(Groups(b), meshes)[..3 * |Groups(b[..i + 1])|]
  {
    ghost var gs := Groups(b);
    ghost var start := |Groups(b[..i])|;
    draws, itemIndex := draws0, itemIndex0;
    var j := 0;
    while j < |b[i].meshes|
      invariant 0 <= j <= |b[i].meshes| && start + j <= |gs|
      invariant itemIndex == Offset(gs, start + j)
      invariant draws == VoxelizationDraws(gs, meshes)[..3 * (start + j)]
    {
      draws, itemIndex := MeshListVoxelizationDraws(b, meshes, i, j, draws, itemIndex);
      j := j + 1;
    }
    GroupsPrefixStep(b, i);
  }

  /** One turn of the loop over material `i`'s mesh lists: the draws for
      mesh list `j`. */
  method MeshListVoxelizationDraws(b: Built, meshes: map<Id, MeshGpu>, i: nat, j: nat, draws0: seq<Draw>, itemIndex0: nat)
    returns (draws: seq<Draw>, itemIndex: nat)
    requires Drawable(Groups(b), meshes) && i < |b| && j < |b[i].meshes| && |Groups(b[..i])| + j <= |Groups(b)|
    requires itemIndex0 == Offset(Groups(b), |Groups(b[..i])| + j)
    requires draws0 == VoxelizationDraws(Groups(b), meshes)[..3 * (|Groups(b[..i])| + j)]
    ensures |Groups(b[..i])| + j < |Groups(b)|
    ensures itemIndex == Offset(Groups(b), |Groups(b[..i])| + j + 1)
    ensures draws == VoxelizationDraws(Groups(b), meshes)[..3 * (|Groups(b[..i])| + j + 1)]
  {
    ghost var gs := Groups(b);
    ghost var g := |Groups(b[..i])| + j;
    GroupAt(b, i, j);
    OffsetStep(gs, g);
    var meshList := b[i].meshes[j];
    assert gs[g] == Group(b[i].material, meshList.mesh, meshList.items);
    draws := AxisDraws(gs, meshes, g, meshList.items, meshes[meshList.mesh].indexCount, itemIndex0, draws0);
    itemIndex := itemIndex0 + |meshList.items|;
  }

  /** The innermost loop of the `voxelization` draws: the same draw once per
      projection axis. */
  method AxisDraws(ghost gs: seq<Group>, meshes: map<Id, MeshGpu>, ghost g: nat, items: seq<BuiltRenderable>,
                   indexCount: nat, itemIndex: nat, draws0: seq<Draw>)
    returns (draws: seq<Draw>)
    requires Drawable(gs, meshes) && g < |gs| && items == gs[g].items
    requires indexCount == meshes[gs[g].mesh].indexCount && itemIndex == Offset(gs, g)
    requires draws0 == VoxelizationDraws(gs, meshes)[..3 * g]
    ensures draws == VoxelizationDraws(gs, meshes)[..3 * g + 3]
  {
    draws := draws0;
    var axis := 0;
    while axis < 3
      invariant 0 <= axis <= 3
      invariant draws == VoxelizationDraws(gs, meshes)[..3 * g + axis]
    {
      VoxelizationDrawsStep(gs, meshes, g, axis);
      draws := draws + [Draw(indexCount, |items|, itemIndex)];
      axis := axis + 1;
    }
  }

  /** The draw loop of the `voxelization` pass. */
  method VoxelizationPassDraws(b: Built, meshes: map<Id, MeshGpu>) returns (draws: seq<Draw>)
    requires Drawable(Groups(b), meshes)
    ensures draws == VoxelizationDraws(Groups(b), meshes)
  {
    draws := [];
    var itemIndex := 0;
    var i := 0;
    while i < |b|
      invariant 0 <= i <= |b|
      invariant |Groups(b[..i])| <= |Groups(b)|
      invariant itemIndex == Offset(Groups(b), |Groups(b[..i])|)
      invariant draws == VoxelizationDraws(Groups(b), meshes)[..3 * |Groups(b[..i])|]
    {
      draws, itemIndex := MaterialVoxelizationDraws(b, meshes, i, draws, itemIndex);
      i := i + 1;
    }
    assert b[..|b|] == b;
  }

  /** The instances of one group copied to rows `lo` onwards. */
  method PackGroup(ghost flat: seq<BuiltRenderable>, items: seq<BuiltRenderable>, lo: nat,
                   modelMats: array<Matrix>, ids: array<nat>)
    requires lo + |items| <= |flat| <= modelMats.Length && ids.Length == |flat|
    requires flat[lo..lo + |items|] == items
    requires forall q :: 0 <= q < lo ==> modelMats[q] == flat[q].transform
    requires forall q :: 0 <= q < lo ==> ids[q] == flat[q].selectionId
    modifies modelMats, ids
    ensures forall q :: 0 <= q < lo + |items| ==> modelMats[q] == flat[q].transform
    ensures forall q :: 0 <= q < lo + |items| ==> ids[q] == flat[q].selectionId
    ensures modelMats[|flat|..] == old(modelMats[|flat|..])
  {
    var row := lo;
    var k := 0;
    while k < |items|
      invariant 0 <= k <= |items|
      invariant row == lo + k
      invariant forall q :: 0 <= q < row ==> modelMats[q] == flat[q].transform
      invariant forall q :: 0 <= q < row ==> ids[q] == flat[q].selectionId
      invariant modelMats[|flat|..] == old(modelMats[|flat|..])
    {
      assert flat[row] == items[k] by {
        assert flat[lo..lo + |items|][k] == items[k];
      }
      modelMats[row] := items[k].transform;
      ids[row] := items[k].selectionId;
      row := row + 1;
      k := k + 1;
    }
  }

  /** The instances of material `mi`'s mesh lists copied out, from the row
      the draw loops give its first list. */
  method PackMaterial(b: Built, mi: nat, row0: nat, modelMats: array<Matrix>, ids: array<nat>) returns (row: nat)
    requires mi < |b| && |Groups(b[..mi])| <= |Groups(b)|
    requires |Flat(b)| <= modelMats.Length && ids.Length == |Flat(b)|
    requires row0 == Offset(Groups(b), |Groups(b[..mi])|) <= |Flat(b)|
    requires forall q :: 0 <= q < row0 ==> modelMats[q] == Flat(b)[q].transform
    requires forall q :: 0 <= q < row0 ==> ids[q] == Flat(b)[q].selectionId
    modifies modelMats, ids
    ensures |Groups(b[..mi + 1])| <= |Groups(b)|
    ensures row == Offset(Groups(b), |Groups(b[..mi + 1])|) <= |Flat(b)|
    ensures forall q :: 0 <= q < row ==> modelMats[q] == Flat(b)[q].transform
    ensures forall q :: 0 <= q < row ==> ids[q] == Flat(b)[q].selectionId
    ensures modelMats[|Flat(b)|..] == old(modelMats[|Flat(b)|..])
  {
    ghost var gs := Groups(b);
    ghost var flat := Flat(b);
    ghost var g := |Groups(b[..mi])|;
    row := row0;
    var meshLists := b[mi].meshes;
    var j := 0;
    while j < |meshLists|
      invariant 0 <= j <= |meshLists|
      invariant g == |Groups(b[..mi])| + j <= |gs|
      invariant row == Offset(gs, g) <= |flat|
      invariant forall q :: 0 <= q < row ==> modelMats[q] == flat[q].transform
      invariant forall q :: 0 <= q < row ==> ids[q] == flat[q].selectionId
      invariant modelMats[|flat|..] == old(modelMats[|flat|..])
    {
      GroupAt(b, mi, j);
      OffsetStep(gs, g);
      var items := meshLists[j].items;
      PackGroup(flat, items, row, modelMats, ids);
      row := row + |items|;
      g := g + 1;
      j := j + 1;
    }
    GroupsPrefixStep(b, mi);
  }

  /** The second loop of `setup_renderables_for_passes`: the instances are
      copied out in draw-loop order. */
  method PackInstances(b: Built, modelMats: array<Matrix>, ids: array<nat>)
    requires |Flat(b)| <= modelMats.Length && ids.Length == |Flat(b)|
    modifies modelMats, ids
    ensures forall q :: 0 <= q < |Flat(b)| ==> modelMats[q] == Flat(b)[q].transform
    ensures ids[..] == SelectionIds(Flat(b))
    ensures modelMats[|Flat(b)|..] == old(modelMats[|Flat(b)|..])
  {
    var row := 0;
    var mi := 0;
    while mi < |b|
      invariant 0 <= mi <= |b|
      invariant |Groups(b[..mi])| <= |Groups(b)|
      invariant row == Offset(Groups(b), |Groups(b[..mi])|) <= |Flat(b)|
      invariant forall q :: 0 <= q < row ==> modelMats[q] == Flat(b)[q].transform
      invariant forall q :: 0 <= q < row ==> ids[q] == Flat(b)[q].selectionId
      invariant modelMats[|Flat(b)|..] == old(modelMats[|Flat(b)|..])
    {
      row := PackMaterial(b, mi, row, modelMats, ids);
      mi := mi + 1;
    }
    assert b[..|b|] == b;
    OffsetEnd(Groups(b));
  }

  /** The whole of the buffer filling in `setup_renderables_for_passes`: a
      model buffer of `count + widgets` rows and an id buffer of `count` rows,
      the instances first, then the widget transforms. `count` is the first
      loop's tally. */
  method Pack(b: Built, count: nat, widgets: seq<Renderable>) returns (modelMats: array<Matrix>, ids: array<nat>)
    requires count == |Flat(b)|
    ensures modelMats.Length == count + |widgets| && ids.Length == count
    ensures modelMats[..] == ModelRows(b, widgets)
    ensures ids[..] == SelectionIds(Flat(b))
  {
    modelMats := new Matrix[count + |widgets|](_ => Identity);
    ids := new nat[count](_ => 0);
    PackInstances(b, modelMats, ids);
    var row := count;
    var w := 0;
    while w < |widgets|
      invariant 0 <= w <= |widgets|
      invariant row == count + w
      invariant forall q :: 0 <= q < count ==> modelMats[q] == Flat(b)[q].transform
      invariant forall q :: 0 <= q < w ==> modelMats[count + q] == widgets[q].transform
      invariant ids[..] == SelectionIds(Flat(b))
    {
      modelMats[row] := widgets[w].transform;
      row := row + 1;
      w := w + 1;
    }
    assert modelMats[..] == ModelRows(b, widgets) by {
      forall q | 0 <= q < modelMats.Length ensures modelMats[..][q] == ModelRows(b, widgets)[q] {
        if q >= count {
          assert Entries(widgets)[q - count] == Entry(widgets[q - count]);
        }
      }
    }
  }
}
