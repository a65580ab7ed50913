/** The node hierarchy of a `ModelCPU` (`model.cpp`). Nodes live in the
    process-wide `id_ptr<Node>` registry and refer to one another by id, with
    0 the null id. Copying a model copies its nodes under fresh ids and remaps
    every link through the old-to-new table; instancing a model adds one
    renderable per node that names both a mesh and a material file. */
module ModelNodes {
  import opened Common
  import opened GpuAssets
  import opened Renderables
  import opened Scene

  /** `ModelCPU::Node` without its cached world transform. */
  datatype Node = Node(name: string, meshAssetPath: string, materialAssetPath: string,
                       transform: Matrix, parent: Id, children: seq<Id>)

  /** The `id_ptr<Node>` registry: every node by id. The allocator behind
      `emplace` is not part of this model, so callers name the fresh id. */
  class NodeStore {
    var nodes: map<Id, Node>

    constructor ()
      ensures nodes == map[]
    {
      nodes := map[];
    }

    /** `id_ptr<Node>::emplace`: a new node under an unused, non-null id. */
    method Emplace(id: Id, node: Node)
      requires id != 0 && id !in nodes
      modifies this
      ensures nodes == old(nodes)[id := node]
    {
      nodes := nodes[id := node];
    }
  }

  /** `id_ptr::valid`: not null and present in the registry. */
  predicate ValidId(store: map<Id, Node>, id: Id) {
    id != 0 && id in store
  }

  /** `ModelCPU`: its file fields, its nodes in order and its root. */
  class ModelCpu {
    var filePath: string
    var dependencies: seq<string>
    var nodes: seq<Id>
    var rootNode: Id

    constructor ()
      ensures filePath == "" && dependencies == [] && nodes == [] && rootNode == 0
    {
      filePath, dependencies, nodes, rootNode := "", [], [], 0;
    }
  }

  /** Ids the copy can use for its new nodes: non-null, unused and distinct. */
  predicate FreshIds(store: map<Id, Node>, newIds: seq<Id>) {
    && (forall i :: 0 <= i < |newIds| ==> newIds[i] != 0 && newIds[i] !in store)
    && (forall i, j :: 0 <= i < j < |newIds| ==> newIds[i] != newIds[j])
  }

  predicate Distinct(ids: seq<Id>) {
    forall i, j :: 0 <= i < j < |ids| ==> ids[i] != ids[j]
  }

  /** `old_to_new` once the copy loop has seen `olds`, paired with `newIds`. */
  function OldToNew(olds: seq<Id>, newIds: seq<Id>): map<Id, Id>
    requires |olds| == |newIds|
  {
    if olds == [] then map[]
    else OldToNew(olds[..|olds| - 1], newIds[..|newIds| - 1])[olds[|olds| - 1] := newIds[|newIds| - 1]]
  }

  /** With distinct old ids, each old id maps to the id of its copy. */
  lemma {:induction false} OldToNewAt(olds: seq<Id>, newIds: seq<Id>, j: nat)
    requires |olds| == |newIds| && Distinct(olds) && j < |olds|
    ensures olds[j] in OldToNew(olds, newIds) && OldToNew(olds, newIds)[olds[j]] == newIds[j]
  {
    var n := |olds| - 1;
    if j < n {
      OldToNewAt(olds[..n], newIds[..n], j);
    }
  }

  /** `old_to_new[id]`: `operator[]` yields 0 for an id it has not seen. */
  function Remap(m: map<Id, Id>, id: Id): Id {
    if id in m then m[id] else 0
  }

  /** Every child id passed through the table. */
  function RemappedIds(m: map<Id, Id>, ids: seq<Id>): (r: seq<Id>)
    ensures |r| == |ids| && forall k :: 0 <= k < |ids| ==> r[k] == Remap(m, ids[k])
  {
    seq(|ids|, k requires 0 <= k < |ids| => Remap(m, ids[k]))
  }

  /** A node after the remap loop: a non-null parent and every child go
      through the table; a null parent stays null. */
  function RemapLinks(m: map<Id, Id>, n: Node): (r: Node)
    ensures r.name == n.name && r.meshAssetPath == n.meshAssetPath
    ensures r.materialAssetPath == n.materialAssetPath && r.transform == n.transform
    ensures n.parent == 0 ==> r.parent == 0
  {
    n.(parent := if n.parent != 0 then Remap(m, n.parent) else n.parent,
       children := RemappedIds(m, n.children))
  }

  /** The registry after the copy loop: each `newIds[i]` holds a plain copy of
      node `olds[i]`, links not yet remapped. */
  function Copied(store: map<Id, Node>, olds: seq<Id>, newIds: seq<Id>): map<Id, Node>
    requires |olds| == |newIds| && forall i :: 0 <= i < |olds| ==> olds[i] in store
  {
    if olds == [] then store
    else
      var n := |olds| - 1;
      Copied(store, olds[..n], newIds[..n])[newIds[n] := store[olds[n]]]
  }

  /** A copied entry holds the node it copies; the entries the registry had
      are untouched. */
  lemma {:induction false} CopiedAt(store: map<Id, Node>, olds: seq<Id>, newIds: seq<Id>)
    requires |olds| == |newIds| && forall i :: 0 <= i < |olds| ==> olds[i] in store
    requires FreshIds(store, newIds)
    ensures forall i :: 0 <= i < |newIds| ==>
      newIds[i] in Copied(store, olds, newIds) && Copied(store, olds, newIds)[newIds[i]] == store[olds[i]]
    ensures forall x :: x in store ==> x in Copied(store, olds, newIds) && Copied(store, olds, newIds)[x] == store[x]
    ensures forall x :: x in Copied(store, olds, newIds) ==> x in store || x in newIds
  {
    if olds != [] {
      var n := |olds| - 1;
      CopiedAt(store, olds[..n], newIds[..n]);
    }
  }

  /** The registry after the remap loop has visited `ids` in order. */
  function Remapped(store: map<Id, Node>, ids: seq<Id>, m: map<Id, Id>): (r: map<Id, Node>)
    requires forall i :: 0 <= i < |ids| ==> ids[i] in store
    ensures r.Keys == store.Keys
  {
    if ids == [] then store
    else
      var n := |ids| - 1;
      var s := Remapped(store, ids[..n], m);
      s[ids[n] := RemapLinks(m, s[ids[n]])]
  }

  /** Visiting distinct ids remaps each of them once and nothing else. */
  lemma {:induction false} RemappedAt(store: map<Id, Node>, ids: seq<Id>, m: map<Id, Id>)
    requires (forall i :: 0 <= i < |ids| ==> ids[i] in store) && Distinct(ids)
    ensures forall i :: 0 <= i < |ids| ==> Remapped(store, ids, m)[ids[i]] == RemapLinks(m, store[ids[i]])
    ensures forall x :: x in store && x !in ids ==> Remapped(store, ids, m)[x] == store[x]
  {
    forall i | 0 <= i < |ids|
      ensures Remapped(store, ids, m)[ids[i]] == RemapLinks(m, store[ids[i]])
    {
      RemappedVisited(store, ids, m, i);
    }
    forall x | x in store && x !in ids
      ensures Remapped(store, ids, m)[x] == store[x]
    {
      RemappedUnvisited(store, ids, m, x);
    }
  }

  /** An id the loop does not visit keeps its node. */
  lemma {:induction false} RemappedUnvisited(store: map<Id, Node>, ids: seq<Id>, m: map<Id, Id>, x: Id)
    requires (forall i :: 0 <= i < |ids| ==> ids[i] in store) && x in store && x !in ids
    ensures Remapped(store, ids, m)[x] == store[x]
  {
    if ids != [] {
      var n := |ids| - 1;
      assert x != ids[n] && x !in ids[..n];
      RemappedUnvisited(store, ids[..n], m, x);
    }
  }

  /** A visited id, visited once, has its links remapped once. */
  lemma {:induction false} RemappedVisited(store: map<Id, Node>, ids: seq<Id>, m: map<Id, Id>, i: nat)
    requires (forall i :: 0 <= i < |ids| ==> ids[i] in store) && Distinct(ids) && i < |ids|
    ensures Remapped(store, ids, m)[ids[i]] == RemapLinks(m, store[ids[i]])
  {
    var n := |ids| - 1;
    var prefix := ids[..n];
    if i == n {
      assert ids[n] !in prefix;
      RemappedUnvisited(store, prefix, m, ids[n]);
    } else {
      assert Distinct(prefix) by {
        assert forall k :: 0 <= k < n ==> prefix[k] == ids[k];
      }
      assert ids[i] == prefix[i] && ids[i] != ids[n];
      RemappedVisited(store, prefix, m, i);
    }
  }

  /** The remap loop's step for the children: `child.id = old_to_new[child.id]`
      for each child in turn. */
  method RemapChildren(m: map<Id, Id>, children: seq<Id>) returns (r: seq<Id>)
    ensures r == RemappedIds(m, children)
  {
    r := children;
    var k := 0;
    while k < |r|
      invariant 0 <= k <= |r| == |children|
      invariant forall q :: 0 <= q < |r| ==> r[q] == if q < k then Remap(m, children[q]) else children[q]
    {
      r := r[k := Remap(m, r[k])];
      k := k + 1;
    }
  }

  /** `ModelCPU::operator=` as written: the file fields are copied; every
      node of `oth` is copied, in order, under the next fresh id and
      appended to the target's nodes, which are not cleared first; the root
      and then every link of every node of the target, old ones included,
      are remapped through the old-to-new table. (The cached world
      transforms are not part of this model.) */
  method Assign(store: NodeStore, target: ModelCpu, oth: ModelCpu, newIds: seq<Id>)
    requires target != oth
    requires |newIds| == |oth.nodes| && FreshIds(store.nodes, newIds)
    requires forall i :: 0 <= i < |oth.nodes| ==> oth.nodes[i] in store.nodes
    requires forall i :: 0 <= i < |target.nodes| ==> target.nodes[i] in store.nodes
    modifies store, target
    ensures target.filePath == oth.filePath && target.dependencies == oth.dependencies
    ensures target.nodes == old(target.nodes) + newIds
    ensures target.rootNode == Remap(OldToNew(oth.nodes, newIds), oth.rootNode)
    ensures store.nodes == Assigned(old(store.nodes), old(target.nodes), oth.nodes, newIds)
  {
    target.filePath := oth.filePath;
    target.dependencies := oth.dependencies;
    var oldToNew := CopyNodes(store, target, oth, newIds);
    target.rootNode := Remap(oldToNew, oth.rootNode);
    RemapNodes(store, target.nodes, oldToNew);
  }

  /** The copy loop of `operator=`: each node of `oth` in turn is emplaced
      under the next fresh id, recorded in the old-to-new table and appended
      to the target's nodes. */
  method CopyNodes(store: NodeStore, target: ModelCpu, oth: ModelCpu, newIds: seq<Id>)
    returns (oldToNew: map<Id, Id>)
    requires target != oth
    requires |newIds| == |oth.nodes| && FreshIds(store.nodes, newIds)
    requires forall i :: 0 <= i < |oth.nodes| ==> oth.nodes[i] in store.nodes
    requires forall i :: 0 <= i < |target.nodes| ==> target.nodes[i] in store.nodes
    modifies store, target`nodes
    ensures store.nodes == Copied(old(store.nodes), oth.nodes, newIds)
    ensures oldToNew == OldToNew(oth.nodes, newIds)
    ensures target.nodes == old(target.nodes) + newIds
    ensures forall i :: 0 <= i < |target.nodes| ==> target.nodes[i] in store.nodes
  {
    ghost var store0, nodes0 := store.nodes, target.nodes;
    var olds := oth.nodes;
    oldToNew := map[];
    var i := 0;
    while i < |olds|
      invariant 0 <= i <= |olds|
      invariant store.nodes == Copied(store0, olds[..i], newIds[..i])
      invariant oldToNew == OldToNew(olds[..i], newIds[..i])
      invariant target.nodes == nodes0 + newIds[..i]
    {
      CopyStep(store0, olds, newIds, i);
      var copy := store.nodes[olds[i]];
      store.Emplace(newIds[i], copy);
      oldToNew := oldToNew[olds[i] := newIds[i]];
      target.nodes := target.nodes + [newIds[i]];
      i := i + 1;
    }
    assert olds[..i] == olds && newIds[..i] == newIds;
    CopiedAt(store0, olds, newIds);
  }

  /** One turn of the copy loop: the next fresh id is still unused, the node
      it copies is still the original, and both tables grow by one entry. */
  lemma {:induction false} CopyStep(store: map<Id, Node>, olds: seq<Id>, newIds: seq<Id>, i: nat)
    requires |olds| == |newIds| && forall q :: 0 <= q < |olds| ==> olds[q] in store
    requires FreshIds(store, newIds) && i < |olds|
    ensures var before := Copied(store, olds[..i], newIds[..i]);
      && newIds[i] != 0 && newIds[i] !in before
      && olds[i] in before && before[olds[i]] == store[olds[i]]
      && Copied(store, olds[..i + 1], newIds[..i + 1]) == before[newIds[i] := store[olds[i]]]
      && OldToNew(olds[..i + 1], newIds[..i + 1]) == OldToNew(olds[..i], newIds[..i])[olds[i] := newIds[i]]
  {
    assert olds[..i + 1][..i] == olds[..i] && newIds[..i + 1][..i] == newIds[..i];
    CopiedAt(store, olds[..i], newIds[..i]);
    assert newIds[i] !in newIds[..i];
  }

  /** The remap loop of `operator=`: every node in `ids`, in order, has a
      non-null parent and each child replaced through the table. */
  method RemapNodes(store: NodeStore, ids: seq<Id>, oldToNew: map<Id, Id>)
    requires forall q :: 0 <= q < |ids| ==> ids[q] in store.nodes
    modifies store
    ensures store.nodes == Remapped(old(store.nodes), ids, oldToNew)
  {
    var j := 0;
    while j < |ids|
      invariant 0 <= j <= |ids|
      invariant store.nodes == Remapped(old(store.nodes), ids[..j], oldToNew)
    {
      assert ids[..j + 1][..j] == ids[..j];
      var id := ids[j];
      var node := store.nodes[id];
      var children := RemapChildren(oldToNew, node.children);
      if node.parent != 0 {
        node := node.(parent := Remap(oldToNew, node.parent));
      }
      store.nodes := store.nodes[id := node.(children := children)];
      j := j + 1;
    }
    assert ids[..j] == ids;
  }

  /** The registry `operator=` leaves behind. */
  function Assigned(store: map<Id, Node>, targetNodes: seq<Id>, olds: seq<Id>, newIds: seq<Id>): (r: map<Id, Node>)
    requires |olds| == |newIds| && FreshIds(store, newIds)
    requires forall i :: 0 <= i < |olds| ==> olds[i] in store
    requires forall i :: 0 <= i < |targetNodes| ==> targetNodes[i] in store
    ensures forall x :: x in store ==> x in r
    ensures forall i :: 0 <= i < |newIds| ==> newIds[i] in r
  {
    CopiedAt(store, olds, newIds);
    Remapped(Copied(store, olds, newIds), targetNodes + newIds, OldToNew(olds, newIds))
  }

  /** The hierarchy of `olds` refers only to its own nodes. */
  predicate Closed(store: map<Id, Node>, olds: seq<Id>)
    requires forall i :: 0 <= i < |olds| ==> olds[i] in store
  {
    forall i :: 0 <= i < |olds| ==>
      && (store[olds[i]].parent == 0 || store[olds[i]].parent in olds)
      && (forall k :: 0 <= k < |store[olds[i]].children| ==> store[olds[i]].children[k] in olds)
  }

  /** Into a model with no nodes, each copy is its original with its links
      remapped, and the registry's earlier entries are left alone. */
  lemma {:induction false} AssignedAt(store: map<Id, Node>, olds: seq<Id>, newIds: seq<Id>, i: nat)
    requires |olds| == |newIds| && FreshIds(store, newIds)
    requires forall q :: 0 <= q < |olds| ==> olds[q] in store
    requires i < |olds|
    ensures Assigned(store, [], olds, newIds)[newIds[i]] == RemapLinks(OldToNew(olds, newIds), store[olds[i]])
    ensures forall x :: x in store ==> Assigned(store, [], olds, newIds)[x] == store[x]
  {
    var copied := Copied(store, olds, newIds);
    CopiedAt(store, olds, newIds);
    assert [] + newIds == newIds;
    RemappedAt(copied, newIds, OldToNew(olds, newIds));
  }

  /** Copied into a model with no nodes, a model whose hierarchy is closed
      comes out as an exact copy under the fresh ids: same names, files and
      transforms, a null parent stays null, a parent or child that was node
      `j` becomes copy `j`, so every link stays among the copies. The source
      model's nodes are untouched. */
  lemma {:induction false} CopyIsIsomorphic(store: map<Id, Node>, olds: seq<Id>, newIds: seq<Id>, i: nat)
    requires |olds| == |newIds| && FreshIds(store, newIds) && Distinct(olds)
    requires forall q :: 0 <= q < |olds| ==> olds[q] in store
    requires Closed(store, olds) && i < |olds|
    ensures var after := Assigned(store, [], olds, newIds);
      var original, copy := store[olds[i]], after[newIds[i]];
      && copy.name == original.name && copy.meshAssetPath == original.meshAssetPath
      && copy.materialAssetPath == original.materialAssetPath && copy.transform == original.transform
      && (original.parent == 0 ==> copy.parent == 0)
      && (forall j :: 0 <= j < |olds| && original.parent != 0 && original.parent == olds[j] ==> copy.parent == newIds[j])
      && (original.parent != 0 ==> copy.parent in newIds)
      && |copy.children| == |original.children|
      && (forall k, j :: 0 <= k < |original.children| && 0 <= j < |olds| && original.children[k] == olds[j] ==>
            copy.children[k] == newIds[j])
      && (forall k :: 0 <= k < |copy.children| ==> copy.children[k] in newIds)
      && after[olds[i]] == original
  {
    AssignedAt(store, olds, newIds, i);
    var m := OldToNew(olds, newIds);
    var original := store[olds[i]];
    var copy := RemapLinks(m, original);
    forall j | 0 <= j < |olds|
      ensures olds[j] in m && m[olds[j]] == newIds[j]
    {
      OldToNewAt(olds, newIds, j);
    }
    if original.parent != 0 {
      var j :| 0 <= j < |olds| && olds[j] == original.parent;
      assert copy.parent == newIds[j];
    }
    forall k | 0 <= k < |copy.children|
      ensures copy.children[k] in newIds
    {
      var j :| 0 <= j < |olds| && olds[j] == original.children[k];
      assert copy.children[k] == newIds[j];
    }
  }

  /** The target's earlier nodes are remapped too, through a table that
      only knows the copied model's ids: a model with nodes 1 (child 2) and
      2 (parent 1), assigned a one-node model, is left with node 2 parentless
      and node 1's child turned into the null id. */
  lemma {:induction false} AssignAsWrittenBreaksLinks()
    ensures var store := map[1 := Node("a", "", "", Identity, 0, [2]),
                             2 := Node("b", "", "", Identity, 1, []),
                             5 := Node("c", "", "", Identity, 0, [])];
      var after := Assigned(store, [1, 2], [5], [9]);
      && store[2].parent == 1 && after[2].parent == 0
      && store[1].children == [2] && after[1].children == [0]
  {
    var store := map[1 := Node("a", "", "", Identity, 0, [2]),
                     2 := Node("b", "", "", Identity, 1, []),
                     5 := Node("c", "", "", Identity, 0, [])];
    var m := OldToNew([5], [9]);
    assert [5][..0] == [] && [9][..0] == [];
    assert m == map[5 := 9];
    var copied := Copied(store, [5], [9]);
    assert copied == store[9 := store[5]];
    assert [1, 2] + [9] == [1, 2, 9];
    assert [1, 2, 9][..2] == [1, 2] && [1, 2][..1] == [1] && [1][..0] == [];
    assert Remapped(copied, [], m) == copied;
    var s1 := Remapped(copied, [1], m);
    assert s1 == copied[1 := RemapLinks(m, copied[1])];
    assert RemappedIds(m, [2]) == [0];
    var s2 := Remapped(copied, [1, 2], m);
    assert s2 == s1[2 := RemapLinks(m, s1[2])];
    var s3 := Remapped(copied, [1, 2, 9], m);
    assert s3 == s2[9 := RemapLinks(m, s2[9])];
  }

  /** `operator=` as a copy assignment is meant to work: the target's nodes
      are replaced by the copies, so its hierarchy is an exact copy of the
      source's (see `CopyIsIsomorphic`) and every node the registry already
      held, the target's former nodes included, stays as it was. */
  method AssignReplacing(store: NodeStore, target: ModelCpu, oth: ModelCpu, newIds: seq<Id>)
    requires target != oth
    requires |newIds| == |oth.nodes| && FreshIds(store.nodes, newIds)
    requires forall i :: 0 <= i < |oth.nodes| ==> oth.nodes[i] in store.nodes
    modifies store, target
    ensures target.filePath == oth.filePath && target.dependencies == oth.dependencies
    ensures target.nodes == newIds
    ensures target.rootNode == Remap(OldToNew(oth.nodes, newIds), oth.rootNode)
    ensures store.nodes == Assigned(old(store.nodes), [], oth.nodes, newIds)
    ensures forall x :: x in old(store.nodes) ==> x in store.nodes && store.nodes[x] == old(store.nodes)[x]
  {
    target.nodes := [];
    ghost var store0 := store.nodes;
    Assign(store, target, oth, newIds);
    CopiedAt(store0, oth.nodes, newIds);
    assert [] + newIds == newIds;
    RemappedAt(Copied(store0, oth.nodes, newIds), newIds, OldToNew(oth.nodes, newIds));
  }

  /** The node is drawn: both of its asset paths name files. `is_file` is
      not part of this model and is passed in. */
  predicate Instantiated(n: Node, isFile: string -> bool) {
    isFile(n.meshAssetPath) && isFile(n.materialAssetPath)
  }

  /** The renderable `instance_model` adds for a node: ids hashed from the
      two paths, the node's own transform, the given frame flag. */
  function InstanceOf(n: Node, hash: string -> Id, frame: bool): Renderable {
    Renderable(hash(n.meshAssetPath), hash(n.materialAssetPath), n.transform, frame, 0)
  }

  /** The renderables added for `ids`, in node order. */
  function Instances(store: map<Id, Node>, ids: seq<Id>, isFile: string -> bool, hash: string -> Id,
                     frame: bool): (r: seq<Renderable>)
    requires forall i :: 0 <= i < |ids| ==> ids[i] in store
    ensures |r| <= |ids|
    ensures forall k :: 0 <= k < |r| ==> r[k].frameAllocated == frame && r[k].selectionId == 0
  {
    if ids == [] then []
    else
      var n := |ids| - 1;
      var node := store[ids[n]];
      Instances(store, ids[..n], isFile, hash, frame)
        + (if Instantiated(node, isFile) then [InstanceOf(node, hash, frame)] else [])
  }

  /** When every node names both files, there is one renderable per node,
      in node order; when none does, there are none. */
  lemma {:induction false} InstancesOfAll(store: map<Id, Node>, ids: seq<Id>, isFile: string -> bool,
                                          hash: string -> Id, frame: bool)
    requires forall i :: 0 <= i < |ids| ==> ids[i] in store
    ensures (forall i :: 0 <= i < |ids| ==> Instantiated(store[ids[i]], isFile)) ==>
      |Instances(store, ids, isFile, hash, frame)| == |ids|
      && forall k :: 0 <= k < |ids| ==> Instances(store, ids, isFile, hash, frame)[k] == InstanceOf(store[ids[k]], hash, frame)
    ensures (forall i :: 0 <= i < |ids| ==> !Instantiated(store[ids[i]], isFile)) ==>
      Instances(store, ids, isFile, hash, frame) == []
  {
    if ids != [] {
      InstancesOfAll(store, ids[..|ids| - 1], isFile, hash, frame);
    }
  }

  /** The nodes among `ids` that are drawn. */
  function Drawn(store: map<Id, Node>, ids: seq<Id>, isFile: string -> bool): set<Id>
    requires forall i :: 0 <= i < |ids| ==> ids[i] in store
  {
    set i | 0 <= i < |ids| && Instantiated(store[ids[i]], isFile) :: ids[i]
  }

  /** `paths` after `instance_model` recorded both paths of every drawn node
      under their hashes. */
  function PathsAfter(paths: map<Id, string>, store: map<Id, Node>, ids: seq<Id>,
                      isFile: string -> bool, hash: string -> Id): (r: map<Id, string>)
    requires forall i :: 0 <= i < |ids| ==> ids[i] in store
    ensures paths.Keys <= r.Keys
  {
    if ids == [] then paths
    else
      var n := |ids| - 1;
      var node := store[ids[n]];
      var before := PathsAfter(paths, store, ids[..n], isFile, hash);
      if Instantiated(node, isFile) then
        before[hash(node.meshAssetPath) := node.meshAssetPath][hash(node.materialAssetPath) := node.materialAssetPath]
      else before
  }

  /** With a collision-free hash, every drawn node's paths can be looked up
      by the ids its renderable carries. */
  lemma {:induction false} PathsRecorded(paths: map<Id, string>, store: map<Id, Node>, ids: seq<Id>,
                                         isFile: string -> bool, hash: string -> Id, i: nat)
    requires forall q :: 0 <= q < |ids| ==> ids[q] in store
    requires forall a, b :: hash(a) == hash(b) ==> a == b
    requires i < |ids| && Instantiated(store[ids[i]], isFile)
    ensures var r := PathsAfter(paths, store, ids, isFile, hash);
      var node := store[ids[i]];
      && hash(node.meshAssetPath) in r && r[hash(node.meshAssetPath)] == node.meshAssetPath
      && hash(node.materialAssetPath) in r && r[hash(node.materialAssetPath)] == node.materialAssetPath
  {
    var n := |ids| - 1;
    if i < n {
      PathsRecorded(paths, store, ids[..n], isFile, hash, i);
    }
  }

  /** One more node: its renderable and paths come after those of the
      nodes before it. */
  lemma {:induction false} InstanceStep(paths: map<Id, string>, store: map<Id, Node>, ids: seq<Id>, i: nat,
                     isFile: string -> bool, hash: string -> Id, frame: bool)
    requires forall q :: 0 <= q < |ids| ==> ids[q] in store
    requires i < |ids|
    ensures var node := store[ids[i]];
      && Instances(store, ids[..i + 1], isFile, hash, frame) ==
           Instances(store, ids[..i], isFile, hash, frame) + (if Instantiated(node, isFile) then [InstanceOf(node, hash, frame)] else [])
      && PathsAfter(paths, store, ids[..i + 1], isFile, hash) ==
           (var before := PathsAfter(paths, store, ids[..i], isFile, hash);
            if Instantiated(node, isFile) then
              before[hash(node.meshAssetPath) := node.meshAssetPath][hash(node.materialAssetPath) := node.materialAssetPath]
            else before)
      && Drawn(store, ids[..i + 1], isFile) == Drawn(store, ids[..i], isFile) + (if Instantiated(node, isFile) then {ids[i]} else {})
  {
    assert ids[..i + 1][..i] == ids[..i];
  }

  /** What the loop of `instance_model` has done after the first `i` nodes. */
  ghost predicate InstancedUpTo(scene: RenderScene, cache: GpuAssetCache, renderables: map<Id, nat>,
                                nodes: map<Id, Node>, ids: seq<Id>, i: nat,
                                isFile: string -> bool, hash: string -> Id, frame: bool,
                                before: seq<Renderable>, paths0: map<Id, string>, widgets0: seq<Renderable>)
    reads scene, cache
    requires forall q :: 0 <= q < |ids| ==> ids[q] in nodes
    requires i <= |ids|
  {
    && scene.renderables == before + Instances(nodes, ids[..i], isFile, hash, frame)
    && scene.widgetRenderables == widgets0
    && cache.paths == PathsAfter(paths0, nodes, ids[..i], isFile, hash)
    && renderables.Keys == Drawn(nodes, ids[..i], isFile)
    && forall id :: id in renderables ==>
      |before| <= renderables[id] < |scene.renderables|
      && scene.renderables[renderables[id]] == InstanceOf(nodes[id], hash, frame)
  }

  /** One turn of the loop of `instance_model`. */
  method InstanceNode(scene: RenderScene, cache: GpuAssetCache, renderables: map<Id, nat>,
                      nodes: map<Id, Node>, ids: seq<Id>, i: nat,
                      isFile: string -> bool, hash: string -> Id, frame: bool,
                      ghost before: seq<Renderable>, ghost paths0: map<Id, string>, ghost widgets0: seq<Renderable>)
    returns (out: map<Id, nat>)
    requires forall q :: 0 <= q < |ids| ==> ids[q] in nodes
    requires i < |ids|
    requires InstancedUpTo(scene, cache, renderables, nodes, ids, i, isFile, hash, frame, before, paths0, widgets0)
    modifies scene, cache`paths
    ensures InstancedUpTo(scene, cache, out, nodes, ids, i + 1, isFile, hash, frame, before, paths0, widgets0)
  {
    InstanceStep(paths0, nodes, ids, i, isFile, hash, frame);
    out := renderables;
    var id := ids[i];
    var node := nodes[id];
    if !isFile(node.meshAssetPath) || !isFile(node.materialAssetPath) {
      return;
    }
    var meshId, materialId := hash(node.meshAssetPath), hash(node.materialAssetPath);
    cache.paths := cache.paths[meshId := node.meshAssetPath];
    cache.paths := cache.paths[materialId := node.materialAssetPath];
    ghost var previous := scene.renderables;
    var index := scene.AddRenderable(Renderable(meshId, materialId, node.transform, frame, 0));
    out := renderables[id := index];
    forall k | k in out
      ensures |before| <= out[k] < |scene.renderables|
      ensures scene.renderables[out[k]] == InstanceOf(nodes[k], hash, frame)
    {
      if k != id {
        assert scene.renderables[out[k]] == previous[renderables[k]];
      }
    }
  }

  /** `instance_model`: for each node in order, a node without both files is
      skipped; otherwise its two paths are recorded in the GPU cache under
      their hashes and a renderable with the node's transform and the given
      frame flag is added to the scene and remembered for the node. */
  method InstanceModel(scene: RenderScene, cache: GpuAssetCache, store: NodeStore, model: ModelCpu,
                       isFile: string -> bool, hash: string -> Id, frame: bool)
    returns (renderables: map<Id, nat>)
    requires forall i :: 0 <= i < |model.nodes| ==> model.nodes[i] in store.nodes
    modifies scene, cache`paths
    ensures scene.renderables == old(scene.renderables) + Instances(store.nodes, model.nodes, isFile, hash, frame)
    ensures scene.widgetRenderables == old(scene.widgetRenderables)
    ensures cache.paths == PathsAfter(old(cache.paths), store.nodes, model.nodes, isFile, hash)
    ensures renderables.Keys == Drawn(store.nodes, model.nodes, isFile)
    ensures forall id :: id in renderables ==>
      old(|scene.renderables|) <= renderables[id] < |scene.renderables|
      && scene.renderables[renderables[id]] == InstanceOf(store.nodes[id], hash, frame)
  {
    var ids, nodes := model.nodes, store.nodes;
    ghost var before, paths0, widgets0 := scene.renderables, cache.paths, scene.widgetRenderables;
    renderables := map[];
    var i := 0;
    while i < |ids|
      invariant 0 <= i <= |ids|
      invariant InstancedUpTo(scene, cache, renderables, nodes, ids, i, isFile, hash, frame, before, paths0, widgets0)
    {
      renderables := InstanceNode(scene, cache, renderables, nodes, ids, i, isFile, hash, frame, before, paths0, widgets0);
      i := i + 1;
    }
    assert ids[..i] == ids;
  }
}
