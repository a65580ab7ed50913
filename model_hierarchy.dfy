/** The node hierarchy `convert_to_model` builds out of a glTF scene
    (`model.cpp`): one blank node per glTF node, parent and child links taken
    from the glTF child lists, the root found or synthesised, and the nodes
    that lead to nothing drawable pruned. */
module ModelHierarchy {
  import opened Common
  import opened ModelNodes

  /** A node as `id_ptr<Node>::emplace()` makes it: no name, no files, the
      value-initialised transform (kept symbolic), no parent, no children. */
  const BLANK: Node := Node("", "", "", Opaque(0), 0, [])

  /** The fields a node carries besides its links. */
  predicate SameContent(a: Node, b: Node) {
    a.name == b.name && a.meshAssetPath == b.meshAssetPath &&
    a.materialAssetPath == b.materialAssetPath && a.transform == b.transform
  }

  /** Every node a model lists is in the registry. */
  predicate Stored(m: map<Id, Node>, ids: seq<Id>) {
    forall i :: 0 <= i < |ids| ==> ids[i] in m
  }

  // ---------------------------------------------------------------------
  // Blank nodes and child links (the "calculate parent hierarchies" loops)
  // ---------------------------------------------------------------------

  /** glTF child lists that index `n` nodes. */
  predicate RowsInRange(rows: seq<seq<nat>>, n: nat) {
    forall i, k :: 0 <= i < |rows| && 0 <= k < |rows[i]| ==> rows[i][k] < n
  }

  /** The node ids a glTF child list names. */
  function Targets(nodes: seq<Id>, cs: seq<nat>): (r: seq<Id>)
    requires forall k :: 0 <= k < |cs| ==> cs[k] < |nodes|
    ensures |r| == |cs| && forall k :: 0 <= k < |cs| ==> r[k] == nodes[cs[k]]
  {
    seq(|cs|, k requires 0 <= k < |cs| => nodes[cs[k]])
  }

  /** One step of the inner loop: the child is appended to the parent's
      children, then its parent is set. */
  function LinkChild(m: map<Id, Node>, p: Id, c: Id): (r: map<Id, Node>)
    requires p in m && c in m
    ensures r.Keys == m.Keys
  {
    var m1 := m[p := m[p].(children := m[p].children + [c])];
    m1[c := m1[c].(parent := p)]
  }

  /** The inner loop over one glTF node's child list. */
  function LinkRow(m: map<Id, Node>, nodes: seq<Id>, p: Id, cs: seq<nat>): (r: map<Id, Node>)
    requires p in m && Stored(m, nodes)
    requires forall k :: 0 <= k < |cs| ==> cs[k] < |nodes|
    ensures r.Keys == m.Keys
  {
    if cs == [] then m
    else LinkChild(LinkRow(m, nodes, p, cs[..|cs| - 1]), p, nodes[cs[|cs| - 1]])
  }

  /** The outer loop over the first `|rows|` glTF nodes. */
  function Linked(m: map<Id, Node>, nodes: seq<Id>, rows: seq<seq<nat>>): (r: map<Id, Node>)
    requires Stored(m, nodes) && |rows| <= |nodes| && RowsInRange(rows, |nodes|)
    ensures r.Keys == m.Keys
  {
    if rows == [] then m
    else
      var n := |rows| - 1;
      LinkRow(Linked(m, nodes, rows[..n]), nodes, nodes[n], rows[n])
  }

  /** The last glTF node whose child list names node `c`. */
  function LastRow(rows: seq<seq<nat>>, c: nat): (r: Option<nat>)
    ensures r.Some? ==> r.value < |rows| && c in rows[r.value]
    ensures r.Some? ==> forall j :: r.value < j < |rows| ==> c !in rows[j]
    ensures r.None? ==> forall j :: 0 <= j < |rows| ==> c !in rows[j]
  {
    if rows == [] then None
    else if c in rows[|rows| - 1] then Some(|rows| - 1)
    else LastRow(rows[..|rows| - 1], c)
  }

  /** The inner loop appends the row's targets to the parent's children and
      makes the parent the parent of each target; nothing else changes. */
  lemma {:induction false} LinkRowShape(m: map<Id, Node>, nodes: seq<Id>, p: Id, cs: seq<nat>)
    requires p in m && Stored(m, nodes)
    requires forall k :: 0 <= k < |cs| ==> cs[k] < |nodes|
    ensures var r := LinkRow(m, nodes, p, cs);
      forall x :: x in m ==>
        && SameContent(r[x], m[x])
        && r[x].children == m[x].children + (if x == p then Targets(nodes, cs) else [])
        && r[x].parent == (if x in Targets(nodes, cs) then p else m[x].parent)
  {
    if cs != [] {
      var n := |cs| - 1;
      var c := nodes[cs[n]];
      var before, after := LinkRow(m, nodes, p, cs[..n]), LinkRow(m, nodes, p, cs);
      var targets, earlier := Targets(nodes, cs), Targets(nodes, cs[..n]);
      LinkRowShape(m, nodes, p, cs[..n]);
      assert after == LinkChild(before, p, c);
      LinkChildShape(before, p, c);
      TargetsAppend(nodes, cs);
      forall x | x in m
        ensures SameContent(after[x], m[x])
        ensures after[x].children == m[x].children + (if x == p then targets else [])
        ensures after[x].parent == (if x in targets then p else m[x].parent)
      {
        if x == p {
          assert m[x].children + earlier + [c] == m[x].children + targets;
        }
      }
    }
  }

  lemma {:induction false} TargetsAppend(nodes: seq<Id>, cs: seq<nat>)
    requires cs != [] && forall k :: 0 <= k < |cs| ==> cs[k] < |nodes|
    ensures var n := |cs| - 1;
      && Targets(nodes, cs) == Targets(nodes, cs[..n]) + [nodes[cs[n]]]
      && forall x :: x in Targets(nodes, cs) <==> x in Targets(nodes, cs[..n]) || x == nodes[cs[n]]
  {
    var n := |cs| - 1;
    assert Targets(nodes, cs) == Targets(nodes, cs[..n]) + [nodes[cs[n]]];
  }

  /** One step of the inner loop appends `c` to `p`'s children and makes
      `p` its parent; nothing else changes. */
  lemma {:induction false} LinkChildShape(m: map<Id, Node>, p: Id, c: Id)
    requires p in m && c in m
    ensures var r := LinkChild(m, p, c);
      forall x :: x in m ==>
        && SameContent(r[x], m[x])
        && r[x].children == m[x].children + (if x == p then [c] else [])
        && r[x].parent == (if x == c then p else m[x].parent)
  {
  }

  /** After the outer loop no name, file or transform has changed, and
      registry entries that are not among the nodes are untouched. */
  lemma {:induction false} LinkedKeeps(m: map<Id, Node>, nodes: seq<Id>, rows: seq<seq<nat>>)
    requires Stored(m, nodes) && |rows| <= |nodes| && RowsInRange(rows, |nodes|)
    ensures var r := Linked(m, nodes, rows);
      && (forall x :: x in m ==> SameContent(r[x], m[x]))
      && (forall x :: x in m && x !in nodes ==> r[x] == m[x])
  {
    if rows != [] {
      var n := |rows| - 1;
      var before := Linked(m, nodes, rows[..n]);
      LinkedKeeps(m, nodes, rows[..n]);
      LinkRowShape(before, nodes, nodes[n], rows[n]);
      forall x | x in m && x !in nodes
        ensures Linked(m, nodes, rows)[x] == m[x]
      {
        assert x !in Targets(nodes, rows[n]);
      }
    }
  }

  /** After the outer loop, glTF node `i`'s children are the nodes its
      child list names, in order, after any it had. */
  lemma {:induction false} LinkedChildren(m: map<Id, Node>, nodes: seq<Id>, rows: seq<seq<nat>>)
    requires Stored(m, nodes) && Distinct(nodes) && |rows| <= |nodes| && RowsInRange(rows, |nodes|)
    ensures var r := Linked(m, nodes, rows);
      && (forall i :: 0 <= i < |rows| ==>
            r[nodes[i]].children == m[nodes[i]].children + Targets(nodes, rows[i]))
      && (forall i :: |rows| <= i < |nodes| ==> r[nodes[i]].children == m[nodes[i]].children)
  {
    if rows != [] {
      var n := |rows| - 1;
      var before := Linked(m, nodes, rows[..n]);
      LinkedChildren(m, nodes, rows[..n]);
      LinkRowShape(before, nodes, nodes[n], rows[n]);
    }
  }

  /** The inner loop sets a node's parent exactly when the row names it. */
  lemma {:induction false} LinkRowParentAt(m: map<Id, Node>, nodes: seq<Id>, p: Id, cs: seq<nat>, c: nat)
    requires p in m && Stored(m, nodes) && Distinct(nodes)
    requires forall k :: 0 <= k < |cs| ==> cs[k] < |nodes|
    requires c < |nodes|
    ensures LinkRow(m, nodes, p, cs)[nodes[c]].parent == if c in cs then p else m[nodes[c]].parent
  {
    LinkRowShape(m, nodes, p, cs);
    if c in cs {
      var k :| 0 <= k < |cs| && cs[k] == c;
      assert Targets(nodes, cs)[k] == nodes[c];
    } else {
      assert nodes[c] !in Targets(nodes, cs);
    }
  }

  /** After the outer loop each node's parent is the last glTF node whose
      child list names it; a node no list names keeps its parent. */
  lemma {:induction false} LinkedParentIsLast(m: map<Id, Node>, nodes: seq<Id>, rows: seq<seq<nat>>, c: nat)
    requires Stored(m, nodes) && Distinct(nodes) && |rows| <= |nodes| && RowsInRange(rows, |nodes|)
    requires c < |nodes|
    ensures LastRow(rows, c).Some? ==> Linked(m, nodes, rows)[nodes[c]].parent == nodes[LastRow(rows, c).value]
    ensures LastRow(rows, c).None? ==> Linked(m, nodes, rows)[nodes[c]].parent == m[nodes[c]].parent
  {
    if rows != [] {
      var n := |rows| - 1;
      var before := Linked(m, nodes, rows[..n]);
      LinkedParentIsLast(m, nodes, rows[..n], c);
      LinkRowParentAt(before, nodes, nodes[n], rows[n], c);
      assert Linked(m, nodes, rows) == LinkRow(before, nodes, nodes[n], rows[n]);
      if c !in rows[n] {
        assert LastRow(rows, c) == LastRow(rows[..n], c);
      }
    }
  }

  /** Every glTF node is the child of at most one other node, as glTF 2.0
      requires of a node hierarchy. */
  predicate SingleParents(rows: seq<seq<nat>>) {
    forall i, j, c :: 0 <= i < j < |rows| && c in rows[i] ==> c !in rows[j]
  }

  /** With blank nodes under non-null ids and a glTF file whose nodes each
      have at most one parent, node `c`'s parent is node `i` exactly when
      `c` is in glTF node `i`'s child list, and the null id exactly when no
      child list names it. */
  lemma {:induction false} LinkedParents(m: map<Id, Node>, nodes: seq<Id>, rows: seq<seq<nat>>, c: nat, i: nat)
    requires Stored(m, nodes) && Distinct(nodes) && |rows| == |nodes| && RowsInRange(rows, |nodes|)
    requires forall q :: 0 <= q < |nodes| ==> nodes[q] != 0 && m[nodes[q]].parent == 0
    requires SingleParents(rows) && c < |nodes| && i < |nodes|
    ensures Linked(m, nodes, rows)[nodes[c]].parent == nodes[i] <==> c in rows[i]
    ensures Linked(m, nodes, rows)[nodes[c]].parent == 0 <==> forall j :: 0 <= j < |rows| ==> c !in rows[j]
  {
    LinkedParentIsLast(m, nodes, rows, c);
  }

  /** The first loop: one blank node per glTF node, under the fresh ids, is
      emplaced and appended to the model's nodes. */
  method AddBlankNodes(store: NodeStore, model: ModelCpu, newIds: seq<Id>)
    requires FreshIds(store.nodes, newIds)
    modifies store, model`nodes
    ensures model.nodes == old(model.nodes) + newIds
    ensures store.nodes.Keys == old(store.nodes.Keys) + (set i | 0 <= i < |newIds| :: newIds[i])
    ensures forall x :: x in old(store.nodes) ==> store.nodes[x] == old(store.nodes[x])
    ensures forall i :: 0 <= i < |newIds| ==> store.nodes[newIds[i]] == BLANK
  {
    ghost var store0 := store.nodes;
    var i := 0;
    while i < |newIds|
      invariant 0 <= i <= |newIds|
      invariant model.nodes == old(model.nodes) + newIds[..i]
      invariant store.nodes.Keys == store0.Keys + (set q | 0 <= q < i :: newIds[q])
      invariant forall x :: x in store0 ==> store.nodes[x] == store0[x]
      invariant forall q :: 0 <= q < i ==> store.nodes[newIds[q]] == BLANK
    {
      assert newIds[i] !in store.nodes;
      store.Emplace(newIds[i], BLANK);
      model.nodes := model.nodes + [newIds[i]];
      i := i + 1;
    }
    assert newIds[..i] == newIds;
  }

  /** The second loop: for each glTF node in order and each index in its
      child list, the indexed node is appended to its children and gets it
      as parent. */
  method LinkChildren(store: NodeStore, nodes: seq<Id>, rows: seq<seq<nat>>)
    requires Stored(store.nodes, nodes) && |rows| == |nodes| && RowsInRange(rows, |nodes|)
    modifies store
    ensures store.nodes == Linked(old(store.nodes), nodes, rows)
  {
    ghost var store0 := store.nodes;
    var i := 0;
    while i < |nodes|
      invariant 0 <= i <= |nodes|
      invariant store.nodes == Linked(store0, nodes, rows[..i])
    {
      assert rows[..i + 1][..i] == rows[..i];
      LinkRowInPlace(store, nodes, nodes[i], rows[i]);
      i := i + 1;
    }
    assert rows[..i] == rows;
  }

  /** The inner loop: each index in the child list in turn. */
  method LinkRowInPlace(store: NodeStore, nodes: seq<Id>, p: Id, cs: seq<nat>)
    requires p in store.nodes && Stored(store.nodes, nodes)
    requires forall k :: 0 <= k < |cs| ==> cs[k] < |nodes|
    modifies store
    ensures store.nodes == LinkRow(old(store.nodes), nodes, p, cs)
  {
    ghost var rowStart := store.nodes;
    var k := 0;
    while k < |cs|
      invariant 0 <= k <= |cs|
      invariant store.nodes.Keys == rowStart.Keys
      invariant store.nodes == LinkRow(rowStart, nodes, p, cs[..k])
    {
      assert cs[..k + 1][..k] == cs[..k];
      var c := nodes[cs[k]];
      var parentNode := store.nodes[p];
      store.nodes := store.nodes[p := parentNode.(children := parentNode.children + [c])];
      var childNode := store.nodes[c];
      store.nodes := store.nodes[c := childNode.(parent := p)];
      k := k + 1;
    }
    assert cs[..k] == cs;
  }

  // ---------------------------------------------------------------------
  // Finding the root, and synthesising one when several nodes are roots
  // ---------------------------------------------------------------------

  /** Every node of the model is a valid id. */
  predicate AllValid(m: map<Id, Node>, ids: seq<Id>) {
    forall i :: 0 <= i < |ids| ==> ValidId(m, ids[i])
  }

  /** The nodes among `ids` whose parent is not a valid id, in order. */
  function Parentless(m: map<Id, Node>, ids: seq<Id>): (r: seq<Id>)
    requires Stored(m, ids)
    ensures |r| <= |ids|
  {
    if ids == [] then []
    else
      var n := |ids| - 1;
      Parentless(m, ids[..n]) + (if !ValidId(m, m[ids[n]].parent) then [ids[n]] else [])
  }

  /** The parentless list holds listed nodes without a valid parent, and
      every such node. */
  lemma {:induction false} ParentlessExactly(m: map<Id, Node>, ids: seq<Id>)
    requires Stored(m, ids)
    ensures var r := Parentless(m, ids);
      forall k :: 0 <= k < |r| ==> r[k] in ids && r[k] in m && !ValidId(m, m[r[k]].parent)
    ensures var r := Parentless(m, ids);
      forall i :: 0 <= i < |ids| && !ValidId(m, m[ids[i]].parent) ==> ids[i] in r
  {
    if ids != [] {
      var n := |ids| - 1;
      var prefix := ids[..n];
      ParentlessExactly(m, prefix);
      var r := Parentless(m, ids);
      var before := Parentless(m, prefix);
      assert r == before + (if !ValidId(m, m[ids[n]].parent) then [ids[n]] else []);
      forall k | 0 <= k < |r|
        ensures r[k] in ids && r[k] in m && !ValidId(m, m[r[k]].parent)
      {
        if k < |before| {
          assert r[k] == before[k] && before[k] in prefix;
        }
      }
      forall i | 0 <= i < |ids| && !ValidId(m, m[ids[i]].parent)
        ensures ids[i] in r
      {
        if i < n {
          assert ids[i] == prefix[i] && prefix[i] in before;
        } else {
          assert r[|r| - 1] == ids[n];
        }
      }
    }
  }

  lemma {:induction false} ParentlessStep(m: map<Id, Node>, ids: seq<Id>, i: nat)
    requires Stored(m, ids) && i < |ids|
    ensures Parentless(m, ids[..i + 1]) ==
      Parentless(m, ids[..i]) + (if !ValidId(m, m[ids[i]].parent) then [ids[i]] else [])
  {
    assert ids[..i + 1][..i] == ids[..i];
  }

  /** The root-detection loop: every parentless node in turn becomes the
      root, and `multiple_valid` is reassigned to whether a root was already
      set. So it ends true exactly when two nodes are parentless (or one is
      and the model came in with a root), and the root ends as the last
      parentless node. */
  method FindRoot(store: NodeStore, model: ModelCpu) returns (multipleValid: bool)
    requires AllValid(store.nodes, model.nodes)
    modifies model`rootNode
    ensures var roots := Parentless(store.nodes, model.nodes);
      && multipleValid == (|roots| >= 2 || (|roots| == 1 && old(model.rootNode) != 0))
      && model.rootNode == if roots == [] then old(model.rootNode) else roots[|roots| - 1]
  {
    var ids := model.nodes;
    ghost var root0 := model.rootNode;
    ghost var roots: seq<Id> := [];
    multipleValid := false;
    var i := 0;
    while i < |ids|
      invariant 0 <= i <= |ids| && roots == Parentless(store.nodes, ids[..i])
      invariant multipleValid == (|roots| >= 2 || (|roots| == 1 && root0 != 0))
      invariant model.rootNode == if roots == [] then root0 else roots[|roots| - 1]
      invariant model.rootNode == 0 ==> roots == [] && root0 == 0
    {
      ParentlessStep(store.nodes, ids, i);
      var node := store.nodes[ids[i]];
      if !ValidId(store.nodes, node.parent) {
        multipleValid := model.rootNode != 0;
        model.rootNode := ids[i];
        roots := roots + [ids[i]];
      }
      i := i + 1;
    }
    assert ids[..i] == ids;
  }

  /** The adoption loop: each node whose parent is not valid, in order, gets
      `r` as parent and is appended to `r`'s children. */
  function Adopted(m: map<Id, Node>, ids: seq<Id>, r: Id): (out: map<Id, Node>)
    requires Stored(m, ids) && r in m
    ensures out.Keys == m.Keys
  {
    if ids == [] then m
    else
      var n := |ids| - 1;
      var before := Adopted(m, ids[..n], r);
      var node := before[ids[n]];
      if ValidId(before, node.parent) then before
      else
        var adopted := before[ids[n] := node.(parent := r)];
        adopted[r := adopted[r].(children := adopted[r].children + [ids[n]])]
  }

  /** The registry after root synthesis: `r` is emplaced blank, adopts the
      parentless nodes, and is named "root_node" with the identity
      transform. */
  function WithRoot(m: map<Id, Node>, ids: seq<Id>, r: Id): map<Id, Node>
    requires Stored(m, ids) && r != 0
  {
    var adopted := Adopted(m[r := BLANK], ids, r);
    adopted[r := adopted[r].(name := "root_node", transform := Identity)]
  }

  /** The adoption loop leaves every node it has not reached as it was. */
  lemma {:induction false} AdoptedOthers(m: map<Id, Node>, ids: seq<Id>, r: Id)
    requires Stored(m, ids) && r in m
    ensures forall x :: x in m && x != r && x !in ids ==> Adopted(m, ids, r)[x] == m[x]
  {
    if ids != [] {
      AdoptedOthers(m, ids[..|ids| - 1], r);
    }
  }

  /** One pass of the adoption loop changes only the node it visits and `r`;
      the visited node gets `r` exactly when its parent is not valid. */
  lemma {:induction false} AdoptedVisits(m: map<Id, Node>, ids: seq<Id>, r: Id)
    requires Stored(m, ids) && r in m && ids != [] && ids[|ids| - 1] != r
    ensures var before, last := Adopted(m, ids[..|ids| - 1], r), ids[|ids| - 1];
      Adopted(m, ids, r)[last] ==
        if ValidId(before, before[last].parent) then before[last] else before[last].(parent := r)
  {
  }

  lemma {:induction false} AdoptedPasses(m: map<Id, Node>, ids: seq<Id>, r: Id)
    requires Stored(m, ids) && r in m && ids != []
    ensures forall x :: x in m && x != ids[|ids| - 1] && x != r ==>
      Adopted(m, ids, r)[x] == Adopted(m, ids[..|ids| - 1], r)[x]
  {
    assert Stored(m, ids[..|ids| - 1]);
  }

  /** Each node of `ids` that had a valid parent keeps it; every other gets
      `r`. */
  lemma {:induction false} AdoptedNodes(m: map<Id, Node>, ids: seq<Id>, r: Id)
    requires Stored(m, ids) && Distinct(ids) && r in m && r !in ids
    ensures forall i :: 0 <= i < |ids| ==>
      Adopted(m, ids, r)[ids[i]] == if ValidId(m, m[ids[i]].parent) then m[ids[i]] else m[ids[i]].(parent := r)
  {
    if ids != [] {
      var n := |ids| - 1;
      var before, after, last := Adopted(m, ids[..n], r), Adopted(m, ids, r), ids[n];
      assert last != r;
      AdoptedNodes(m, ids[..n], r);
      AdoptedOthers(m, ids[..n], r);
      AdoptedVisits(m, ids, r);
      AdoptedPasses(m, ids, r);
      assert last !in ids[..n];
      assert before[last] == m[last];
      assert before.Keys == m.Keys;
      forall i | 0 <= i < |ids|
        ensures after[ids[i]] == if ValidId(m, m[ids[i]].parent) then m[ids[i]] else m[ids[i]].(parent := r)
      {
        if i < n {
          assert ids[..n][i] == ids[i] && ids[i] != last && ids[i] != r;
          assert after[ids[i]] == before[ids[i]];
        }
      }
    }
  }

  /** One pass of the adoption loop appends the visited node to `r`'s
      children exactly when its parent is not valid. */
  lemma {:induction false} AdoptedRootStep(m: map<Id, Node>, ids: seq<Id>, r: Id)
    requires Stored(m, ids) && r in m && ids != [] && ids[|ids| - 1] != r
    ensures var before, last := Adopted(m, ids[..|ids| - 1], r), ids[|ids| - 1];
      Adopted(m, ids, r)[r] ==
        if ValidId(before, before[last].parent) then before[r]
        else before[r].(children := before[r].children + [last])
  {
  }

  /** `r`'s children gain the parentless nodes, in order, and nothing else
      about `r` changes. */
  lemma {:induction false} AdoptedRoot(m: map<Id, Node>, ids: seq<Id>, r: Id)
    requires Stored(m, ids) && Distinct(ids) && r in m && r !in ids
    ensures Adopted(m, ids, r)[r] == m[r].(children := m[r].children + Parentless(m, ids))
  {
    if ids != [] {
      var n := |ids| - 1;
      AdoptedRoot(m, ids[..n], r);
      AdoptedOthers(m, ids[..n], r);
      AdoptedRootStep(m, ids, r);
      assert ids[n] !in ids[..n];
      var before := Adopted(m, ids[..n], r);
      assert before[ids[n]] == m[ids[n]];
      assert before.Keys == m.Keys;
      assert Parentless(m, ids) ==
        Parentless(m, ids[..n]) + (if !ValidId(m, m[ids[n]].parent) then [ids[n]] else []);
      if !ValidId(m, m[ids[n]].parent) {
        assert m[r].children + Parentless(m, ids[..n]) + [ids[n]] == m[r].children + Parentless(m, ids);
      }
    }
  }

  /** A fresh id that no node of the model refers to as its parent. */
  predicate Unreferenced(m: map<Id, Node>, ids: seq<Id>, r: Id)
    requires Stored(m, ids)
  {
    r != 0 && r !in m && forall i :: 0 <= i < |ids| ==> m[ids[i]].parent != r
  }

  /** After root synthesis the synthesised node is named "root_node", has
      the identity transform and no parent, and its children are the
      formerly parentless nodes in order, each of which now has it as
      parent; every other node is as it was. */
  lemma {:induction false} RootSynthesisLinks(m: map<Id, Node>, ids: seq<Id>, r: Id)
    requires AllValid(m, ids) && Distinct(ids) && Unreferenced(m, ids, r)
    ensures var out := WithRoot(m, ids, r);
      && r in out && Stored(out, ids)
      && out[r].name == "root_node" && out[r].transform == Identity && out[r].parent == 0
      && out[r].children == Parentless(m, ids)
      && (forall i :: 0 <= i < |ids| && !ValidId(m, m[ids[i]].parent) ==> out[ids[i]].parent == r)
      && (forall i :: 0 <= i < |ids| && ValidId(m, m[ids[i]].parent) ==> out[ids[i]] == m[ids[i]])
  {
    var m1 := m[r := BLANK];
    assert Stored(m1, ids);
    AdoptedNodes(m1, ids, r);
    AdoptedRoot(m1, ids, r);
    assert forall i :: 0 <= i < |ids| ==> m1[ids[i]] == m[ids[i]];
    ParentlessSame(m, m1, ids);
  }

  /** After root synthesis the synthesised node is the one and only
      parentless node of the model. */
  lemma {:induction false} RootSynthesisSingleRoot(m: map<Id, Node>, ids: seq<Id>, r: Id)
    requires AllValid(m, ids) && Distinct(ids) && Unreferenced(m, ids, r)
    ensures Stored(WithRoot(m, ids, r), ids + [r])
    ensures Parentless(WithRoot(m, ids, r), ids + [r]) == [r]
  {
    RootSynthesisLinks(m, ids, r);
    var out := WithRoot(m, ids, r);
    assert Stored(out, ids + [r]);
    forall i | 0 <= i < |ids| ensures ValidId(out, out[ids[i]].parent) {
      if ValidId(m, m[ids[i]].parent) {
        assert out[ids[i]] == m[ids[i]];
      }
    }
    ParentlessNone(out, ids);
    ParentlessStep(out, ids + [r], |ids|);
    assert (ids + [r])[..|ids|] == ids && (ids + [r])[..|ids| + 1] == ids + [r];
  }

  /** Two registries that agree on the nodes and on which of their parents
      are valid agree on the parentless nodes. */
  lemma {:induction false} ParentlessSame(m: map<Id, Node>, m1: map<Id, Node>, ids: seq<Id>)
    requires Stored(m, ids) && Stored(m1, ids)
    requires forall i :: 0 <= i < |ids| ==> m1[ids[i]] == m[ids[i]]
    requires forall i :: 0 <= i < |ids| ==> (ValidId(m1, m[ids[i]].parent) <==> ValidId(m, m[ids[i]].parent))
    ensures Parentless(m1, ids) == Parentless(m, ids)
  {
    if ids != [] {
      ParentlessSame(m, m1, ids[..|ids| - 1]);
    }
  }

  lemma {:induction false} ParentlessNone(m: map<Id, Node>, ids: seq<Id>)
    requires Stored(m, ids) && forall i :: 0 <= i < |ids| ==> ValidId(m, m[ids[i]].parent)
    ensures Parentless(m, ids) == []
  {
    if ids != [] {
      ParentlessNone(m, ids[..|ids| - 1]);
    }
  }

  /** Root synthesis, run when `multiple_valid` is set: `r` is emplaced,
      every parentless node is hung under it, and it becomes the model's
      root and its last node, named "root_node" with the identity
      transform. */
  method SynthesizeRoot(store: NodeStore, model: ModelCpu, r: Id)
    requires AllValid(store.nodes, model.nodes) && r != 0 && r !in store.nodes
    modifies store, model`nodes, model`rootNode
    ensures model.nodes == old(model.nodes) + [r] && model.rootNode == r
    ensures store.nodes == WithRoot(old(store.nodes), old(model.nodes), r)
  {
    ghost var m0 := store.nodes;
    store.Emplace(r, BLANK);
    var ids := model.nodes;
    var i := 0;
    while i < |ids|
      invariant 0 <= i <= |ids|
      invariant store.nodes == Adopted(m0[r := BLANK], ids[..i], r)
      invariant model.nodes == ids && model.rootNode == old(model.rootNode)
    {
      assert ids[..i + 1][..i] == ids[..i];
      var node := store.nodes[ids[i]];
      if !ValidId(store.nodes, node.parent) {
        store.nodes := store.nodes[ids[i] := node.(parent := r)];
        var root := store.nodes[r];
        store.nodes := store.nodes[r := root.(children := root.children + [ids[i]])];
      }
      i := i + 1;
    }
    assert ids[..i] == ids;
    model.rootNode := r;
    model.nodes := model.nodes + [r];
    var root := store.nodes[r];
    store.nodes := store.nodes[r := root.(name := "root_node", transform := Identity)];
  }

  /** The root block of `convert_to_model`: find the root, and when more
      than one node qualifies, hang them all under a synthesised one (the
      fresh id `r` stands in for the registry's allocator). */
  method SettleRoot(store: NodeStore, model: ModelCpu, r: Id)
    requires AllValid(store.nodes, model.nodes) && r != 0 && r !in store.nodes
    modifies store, model`nodes, model`rootNode
    ensures var roots := Parentless(old(store.nodes), old(model.nodes));
      if |roots| >= 2 || (|roots| == 1 && old(model.rootNode) != 0) then
        && model.nodes == old(model.nodes) + [r] && model.rootNode == r
        && store.nodes == WithRoot(old(store.nodes), old(model.nodes), r)
      else
        && model.nodes == old(model.nodes) && store.nodes == old(store.nodes)
        && model.rootNode == if roots == [] then old(model.rootNode) else roots[0]
  {
    var multipleValid := FindRoot(store, model);
    if multipleValid {
      SynthesizeRoot(store, model, r);
    }
  }

  // ---------------------------------------------------------------------
  // Marking the used nodes
  // ---------------------------------------------------------------------

  /** `rank` witnesses that the hierarchy below its nodes has no cycle:
      every child of a ranked node is ranked lower. The traversal recurses
      through children, so it only terminates on such a hierarchy. */
  predicate Ranked(m: map<Id, Node>, rank: map<Id, nat>) {
    forall id :: id in rank ==>
      id in m && forall k :: 0 <= k < |m[id].children| ==>
        m[id].children[k] in rank && rank[m[id].children[k]] < rank[id]
  }

  /** A node is used when it names both files or one of its children is
      used. */
  predicate Uses(m: map<Id, Node>, rank: map<Id, nat>, isFile: string -> bool, id: Id)
    requires Ranked(m, rank) && id in rank
    decreases rank[id]
  {
    Instantiated(m[id], isFile) ||
    exists k :: 0 <= k < |m[id].children| && Uses(m, rank, isFile, m[id].children[k])
  }

  /** `x` is `id` or lies below it. */
  predicate Reaches(m: map<Id, Node>, rank: map<Id, nat>, id: Id, x: Id)
    requires Ranked(m, rank) && id in rank
    ensures Reaches(m, rank, id, x) ==> x in rank
    decreases rank[id]
  {
    x == id || exists k :: 0 <= k < |m[id].children| && Reaches(m, rank, m[id].children[k], x)
  }

  /** A node is used exactly when it or some node below it names both a
      mesh and a material file. */
  lemma {:induction false} UsesIffDrawableBelow(m: map<Id, Node>, rank: map<Id, nat>, isFile: string -> bool, id: Id)
    requires Ranked(m, rank) && id in rank
    ensures Uses(m, rank, isFile, id) <==>
      exists x :: Reaches(m, rank, id, x) && Instantiated(m[x], isFile)
    decreases rank[id]
  {
    var cs := m[id].children;
    forall k | 0 <= k < |cs|
      ensures Uses(m, rank, isFile, cs[k]) <==> exists x :: Reaches(m, rank, cs[k], x) && Instantiated(m[x], isFile)
    {
      UsesIffDrawableBelow(m, rank, isFile, cs[k]);
    }
    if Uses(m, rank, isFile, id) && !Instantiated(m[id], isFile) {
      var k :| 0 <= k < |cs| && Uses(m, rank, isFile, cs[k]);
      var x :| Reaches(m, rank, cs[k], x) && Instantiated(m[x], isFile);
      assert Reaches(m, rank, id, x);
    }
    if exists x :: Reaches(m, rank, id, x) && Instantiated(m[x], isFile) {
      var x :| Reaches(m, rank, id, x) && Instantiated(m[x], isFile);
      if x != id {
        var k :| 0 <= k < |cs| && Reaches(m, rank, cs[k], x);
        assert Uses(m, rank, isFile, cs[k]);
      }
    }
  }

  /** `vector::find`: the position of the first occurrence. */
  function IndexOf(s: seq<Id>, x: Id): (i: nat)
    requires x in s
    ensures i < |s| && s[i] == x && forall j :: 0 <= j < i ==> s[j] != x
  {
    if s[0] == x then 0 else 1 + IndexOf(s[1..], x)
  }

  /** The marks a traversal from `id` leaves at position `q`: set when the
      node there lies below `id` and is used. */
  predicate MarkedBelow(m: map<Id, Node>, rank: map<Id, nat>, isFile: string -> bool, id: Id, x: Id)
    requires Ranked(m, rank) && id in rank
  {
    Reaches(m, rank, id, x) && Uses(m, rank, isFile, x)
  }

  /** The traversal lambda of the pruning block: the children are visited
      first, sharing one `children_uses` flag; the node is used when it names
      both files or that flag is set, and then it raises the caller's flag
      and marks its own position in `used`. */
  method Traverse(m: map<Id, Node>, rank: map<Id, nat>, nodes: seq<Id>, isFile: string -> bool,
                  used: array<bool>, id: Id, uses: bool) returns (usesOut: bool)
    requires Ranked(m, rank) && id in rank && forall x :: x in rank ==> x in nodes
    requires Distinct(nodes) && used.Length == |nodes|
    modifies used
    ensures usesOut == (uses || Uses(m, rank, isFile, id))
    ensures forall q :: 0 <= q < used.Length ==>
      used[q] == (old(used[q]) || MarkedBelow(m, rank, isFile, id, nodes[q]))
    decreases rank[id]
  {
    var children := m[id].children;
    var childrenUses := false;
    var j := 0;
    while j < |children|
      invariant 0 <= j <= |children|
      invariant childrenUses == exists k :: 0 <= k < j && Uses(m, rank, isFile, children[k])
      invariant forall q :: 0 <= q < used.Length ==>
        used[q] == (old(used[q]) || exists k :: 0 <= k < j && MarkedBelow(m, rank, isFile, children[k], nodes[q]))
    {
      childrenUses := Traverse(m, rank, nodes, isFile, used, children[j], childrenUses);
      j := j + 1;
    }
    var thisUses := false;
    if isFile(m[id].materialAssetPath) && isFile(m[id].meshAssetPath) {
      thisUses := true;
    }
    if childrenUses {
      thisUses := true;
    }
    usesOut := uses;
    if thisUses {
      usesOut := true;
      used[IndexOf(nodes, id)] := true;
    }
  }

  /** The marking half of the pruning block: a zeroed `used` array, one
      traversal from the root. Afterwards exactly the used nodes below the
      root are marked. */
  method MarkUsed(m: map<Id, Node>, rank: map<Id, nat>, nodes: seq<Id>, root: Id, isFile: string -> bool)
    returns (used: array<bool>)
    requires Ranked(m, rank) && root in rank && forall x :: x in rank ==> x in nodes
    requires Distinct(nodes)
    ensures fresh(used) && used.Length == |nodes|
    ensures forall q :: 0 <= q < |nodes| ==> used[q] == MarkedBelow(m, rank, isFile, root, nodes[q])
  {
    used := new bool[|nodes|](_ => false);
    var anyUsed := false;
    var rootIndex := IndexOf(nodes, root);
    anyUsed := Traverse(m, rank, nodes, isFile, used, nodes[rootIndex], anyUsed);
  }

  // ---------------------------------------------------------------------
  // Removing the unused nodes
  // ---------------------------------------------------------------------

  /** Node `i` stays: it is marked used, or it has no valid parent (the
      `check_else` that skips it). */
  predicate Survives(m: map<Id, Node>, ids: seq<Id>, used: seq<bool>, i: nat)
    requires Stored(m, ids) && |used| == |ids| && i < |ids|
  {
    used[i] || !ValidId(m, m[ids[i]].parent)
  }

  /** The nodes the removal loop keeps, in order. */
  function Kept(m: map<Id, Node>, ids: seq<Id>, used: seq<bool>): (r: seq<Id>)
    requires Stored(m, ids) && |used| == |ids|
    ensures |r| <= |ids| && forall x :: x in r ==> x in ids
  {
    if ids == [] then []
    else
      var n := |ids| - 1;
      Kept(m, ids[..n], used[..n]) + (if Survives(m, ids, used, n) then [ids[n]] else [])
  }

  /** The registry after the removal loop: each removed node is taken out
      of its parent's children (the first occurrence, as `remove_value`
      does). */
  function Detached(m: map<Id, Node>, ids: seq<Id>, used: seq<bool>): (r: map<Id, Node>)
    requires Stored(m, ids) && |used| == |ids|
    ensures r.Keys == m.Keys
  {
    if ids == [] then m
    else
      var n := |ids| - 1;
      var before := Detached(m, ids[..n], used[..n]);
      var parent := before[ids[n]].parent;
      if used[n] || !ValidId(before, parent) then before
      else before[parent := before[parent].(children := RemoveFirst(before[parent].children, ids[n]))]
  }

  /** Detaching changes children lists only. */
  lemma {:induction false} DetachedKeeps(m: map<Id, Node>, ids: seq<Id>, used: seq<bool>)
    requires Stored(m, ids) && |used| == |ids|
    ensures forall x :: x in m ==>
      SameContent(Detached(m, ids, used)[x], m[x]) && Detached(m, ids, used)[x].parent == m[x].parent
  {
    if ids != [] {
      DetachedKeeps(m, ids[..|ids| - 1], used[..|ids| - 1]);
    }
  }

  lemma {:induction false} PruneStep(m: map<Id, Node>, ids: seq<Id>, used: seq<bool>, i: nat)
    requires Stored(m, ids) && |used| == |ids| && i < |ids|
    ensures Kept(m, ids[..i + 1], used[..i + 1]) ==
      Kept(m, ids[..i], used[..i]) + (if Survives(m, ids, used, i) then [ids[i]] else [])
    ensures Detached(m, ids[..i], used[..i])[ids[i]].parent == m[ids[i]].parent
    ensures var before := Detached(m, ids[..i], used[..i]);
      var parent := m[ids[i]].parent;
      Detached(m, ids[..i + 1], used[..i + 1]) ==
        if Survives(m, ids, used, i) then before
        else before[parent := before[parent].(children := RemoveFirst(before[parent].children, ids[i]))]
  {
    DetachedKeeps(m, ids[..i], used[..i]);
    assert ids[..i + 1][..i] == ids[..i] && used[..i + 1][..i] == used[..i];
    assert Survives(m, ids, used, i) == Survives(m, ids[..i + 1], used[..i + 1], i);
  }

  /** Splitting the shrinking list at the node under consideration. */
  lemma {:induction false} SplitAt(kept: seq<Id>, ids: seq<Id>, i: nat)
    requires i < |ids|
    ensures (kept + ids[i..])[|kept|] == ids[i]
    ensures (kept + ids[i..])[..|kept|] + (kept + ids[i..])[|kept| + 1..] == kept + ids[i + 1..]
    ensures kept + ids[i..] == (kept + [ids[i]]) + ids[i + 1..]
  {
    assert ids[i..] == [ids[i]] + ids[i + 1..];
  }

  /** The removal loop: positions run over the original nodes, `removed`
      counts the nodes taken out so far, so the node at position `i` is at
      `i - removed` in the shrinking list. */
  method RemoveUnused(store: NodeStore, model: ModelCpu, used: array<bool>)
    requires Stored(store.nodes, model.nodes) && used.Length == |model.nodes|
    modifies store, model`nodes
    ensures model.nodes == Kept(old(store.nodes), old(model.nodes), used[..])
    ensures store.nodes == Detached(old(store.nodes), old(model.nodes), used[..])
  {
    ghost var m0, ids0, marks := store.nodes, model.nodes, used[..];
    var removed := 0;
    var i := 0;
    while i < used.Length
      invariant 0 <= i <= used.Length && marks == used[..]
      invariant |Kept(m0, ids0[..i], marks[..i])| + removed == i
      invariant model.nodes == Kept(m0, ids0[..i], marks[..i]) + ids0[i..]
      invariant store.nodes == Detached(m0, ids0[..i], marks[..i])
    {
      removed := RemoveOne(store, model, used[i], i, removed, m0, ids0, marks);
      i := i + 1;
    }
    assert ids0[..i] == ids0 && marks[..i] == marks;
  }

  /** One turn of the removal loop: an unmarked node with a valid parent is
      taken out of that parent's children and out of the list. */
  method RemoveOne(store: NodeStore, model: ModelCpu, isUsed: bool, i: nat, removed: nat,
                   ghost m0: map<Id, Node>, ghost ids0: seq<Id>, ghost marks: seq<bool>)
    returns (removedOut: nat)
    requires Stored(m0, ids0) && |marks| == |ids0| && i < |ids0| && isUsed == marks[i]
    requires |Kept(m0, ids0[..i], marks[..i])| + removed == i
    requires model.nodes == Kept(m0, ids0[..i], marks[..i]) + ids0[i..]
    requires store.nodes == Detached(m0, ids0[..i], marks[..i])
    modifies store, model`nodes
    ensures |Kept(m0, ids0[..i + 1], marks[..i + 1])| + removedOut == i + 1
    ensures model.nodes == Kept(m0, ids0[..i + 1], marks[..i + 1]) + ids0[i + 1..]
    ensures store.nodes == Detached(m0, ids0[..i + 1], marks[..i + 1])
  {
    ghost var kept := Kept(m0, ids0[..i], marks[..i]);
    SplitAt(kept, ids0, i);
    removedOut := removed;
    if isUsed {
      PruneKeeps(m0, ids0, marks, i);
      return;
    }
    var thisNode := model.nodes[i - removed];
    var parent := store.nodes[thisNode].parent;
    PruneParent(m0, ids0, marks, i);
    if !ValidId(store.nodes, parent) {
      PruneKeeps(m0, ids0, marks, i);
      return;
    }
    PruneRemoves(m0, ids0, marks, i);
    var parentNode := store.nodes[parent];
    store.nodes := store.nodes[parent := parentNode.(children := RemoveFirst(parentNode.children, thisNode))];
    model.nodes := model.nodes[..i - removed] + model.nodes[i - removed + 1..];
    removedOut := removed + 1;
  }

  /** The node under consideration keeps its parent link while the loop
      reaches it. */
  lemma {:induction false} PruneParent(m: map<Id, Node>, ids: seq<Id>, used: seq<bool>, i: nat)
    requires Stored(m, ids) && |used| == |ids| && i < |ids|
    ensures Detached(m, ids[..i], used[..i]).Keys == m.Keys
    ensures Detached(m, ids[..i], used[..i])[ids[i]].parent == m[ids[i]].parent
    ensures Survives(m, ids, used, i) <==>
      used[i] || !ValidId(Detached(m, ids[..i], used[..i]), m[ids[i]].parent)
  {
    PruneStep(m, ids, used, i);
  }

  /** A surviving node stays in the list and leaves the registry alone. */
  lemma {:induction false} PruneKeeps(m: map<Id, Node>, ids: seq<Id>, used: seq<bool>, i: nat)
    requires Stored(m, ids) && |used| == |ids| && i < |ids| && Survives(m, ids, used, i)
    ensures Kept(m, ids[..i + 1], used[..i + 1]) == Kept(m, ids[..i], used[..i]) + [ids[i]]
    ensures Detached(m, ids[..i + 1], used[..i + 1]) == Detached(m, ids[..i], used[..i])
  {
    PruneStep(m, ids, used, i);
  }

  /** A removed node leaves the list and its parent's children. */
  lemma {:induction false} PruneRemoves(m: map<Id, Node>, ids: seq<Id>, used: seq<bool>, i: nat)
    requires Stored(m, ids) && |used| == |ids| && i < |ids| && !Survives(m, ids, used, i)
    ensures Kept(m, ids[..i + 1], used[..i + 1]) == Kept(m, ids[..i], used[..i])
    ensures var before := Detached(m, ids[..i], used[..i]);
      var parent := m[ids[i]].parent;
      Detached(m, ids[..i + 1], used[..i + 1]) ==
        before[parent := before[parent].(children := RemoveFirst(before[parent].children, ids[i]))]
  {
    PruneStep(m, ids, used, i);
  }

  /** Exactly the marked nodes and the nodes without a valid parent are
      kept. */
  lemma {:induction false} KeptIff(m: map<Id, Node>, ids: seq<Id>, used: seq<bool>, i: nat)
    requires Stored(m, ids) && |used| == |ids| && Distinct(ids) && i < |ids|
    ensures ids[i] in Kept(m, ids, used) <==> Survives(m, ids, used, i)
  {
    var n := |ids| - 1;
    assert Survives(m, ids, used, i) == Survives(m, ids[..n + 1], used[..n + 1], i);
    if i < n {
      KeptIff(m, ids[..n], used[..n], i);
      assert ids[i] != ids[n];
    } else {
      assert ids[n] !in ids[..n];
    }
  }

  /** Every children list of the registry is free of repeats. */
  predicate DistinctChildren(m: map<Id, Node>) {
    forall x :: x in m ==> Distinct(m[x].children)
  }

  lemma {:induction false} RemoveFirstDistinct(s: seq<Id>, x: Id)
    requires Distinct(s)
    ensures Distinct(RemoveFirst(s, x)) && x !in RemoveFirst(s, x)
  {
    if s != [] && s[0] != x {
      RemoveFirstDistinct(s[1..], x);
      assert s[0] !in s[1..];
    }
  }

  /** Detaching only ever takes children away, and keeps every children
      list free of repeats. */
  lemma {:induction false} DetachedShrinks(m: map<Id, Node>, ids: seq<Id>, used: seq<bool>)
    requires Stored(m, ids) && |used| == |ids| && DistinctChildren(m)
    ensures DistinctChildren(Detached(m, ids, used))
    ensures forall x, y :: x in m && y in Detached(m, ids, used)[x].children ==> y in m[x].children
  {
    if ids != [] {
      var n := |ids| - 1;
      DetachedShrinks(m, ids[..n], used[..n]);
      var before := Detached(m, ids[..n], used[..n]);
      var parent := before[ids[n]].parent;
      if !used[n] && ValidId(before, parent) {
        RemoveFirstDistinct(before[parent].children, ids[n]);
      }
    }
  }

  /** A removed node is no longer among its parent's children. */
  lemma {:induction false} DetachedUnlinks(m: map<Id, Node>, ids: seq<Id>, used: seq<bool>, i: nat)
    requires Stored(m, ids) && |used| == |ids| && DistinctChildren(m) && i < |ids|
    requires !Survives(m, ids, used, i)
    ensures ids[i] !in Detached(m, ids, used)[m[ids[i]].parent].children
  {
    var n := |ids| - 1;
    assert ids[..n + 1] == ids && used[..n + 1] == used;
    PruneParent(m, ids, used, n);
    var before := Detached(m, ids[..n], used[..n]);
    var parent := m[ids[n]].parent;
    if i < n {
      assert ids[..n][i] == ids[i];
      assert Survives(m, ids[..n], used[..n], i) == Survives(m, ids, used, i);
      DetachedUnlinks(m, ids[..n], used[..n], i);
      var p := m[ids[i]].parent;
      if Survives(m, ids, used, n) {
        PruneKeeps(m, ids, used, n);
      } else {
        PruneRemoves(m, ids, used, n);
        if parent == p {
          assert ids[i] !in before[p].children;
        }
      }
    } else {
      PruneRemoves(m, ids, used, n);
      DetachedShrinks(m, ids[..n], used[..n]);
      RemoveFirstDistinct(before[parent].children, ids[n]);
    }
  }

  /** The marks a traversal from `root` leaves, position by position. */
  function Marks(m: map<Id, Node>, rank: map<Id, nat>, isFile: string -> bool, root: Id, ids: seq<Id>): (r: seq<bool>)
    requires Ranked(m, rank) && root in rank
    ensures |r| == |ids| && forall q :: 0 <= q < |ids| ==> r[q] == MarkedBelow(m, rank, isFile, root, ids[q])
  {
    seq(|ids|, q requires 0 <= q < |ids| => MarkedBelow(m, rank, isFile, root, ids[q]))
  }

  /** The "Remove unused nodes" block: mark the used nodes below the root,
      then remove every unmarked node that has a parent. */
  method PruneUnused(store: NodeStore, model: ModelCpu, rank: map<Id, nat>, isFile: string -> bool)
    requires Stored(store.nodes, model.nodes) && Distinct(model.nodes)
    requires Ranked(store.nodes, rank) && model.rootNode in rank
    requires forall x :: x in rank ==> x in model.nodes
    modifies store, model`nodes
    ensures var marks := Marks(old(store.nodes), rank, isFile, model.rootNode, old(model.nodes));
      && model.nodes == Kept(old(store.nodes), old(model.nodes), marks)
      && store.nodes == Detached(old(store.nodes), old(model.nodes), marks)
  {
    var used := MarkUsed(store.nodes, rank, model.nodes, model.rootNode, isFile);
    assert used[..] == Marks(store.nodes, rank, isFile, model.rootNode, model.nodes);
    RemoveUnused(store, model, used);
  }

  /** After pruning, a node stays exactly when it names both files or some
      node below it does (and it lies below the root), or when it has no
      valid parent; a node that goes is no longer its parent's child. */
  lemma {:induction false} PrunedNodes(m: map<Id, Node>, rank: map<Id, nat>, isFile: string -> bool, root: Id, ids: seq<Id>, i: nat)
    requires Stored(m, ids) && Distinct(ids) && DistinctChildren(m)
    requires Ranked(m, rank) && root in rank && i < |ids|
    ensures var marks := Marks(m, rank, isFile, root, ids);
      && (ids[i] in Kept(m, ids, marks) <==>
            || (Reaches(m, rank, root, ids[i]) && exists x :: Reaches(m, rank, ids[i], x) && Instantiated(m[x], isFile))
            || !ValidId(m, m[ids[i]].parent))
      && (ids[i] !in Kept(m, ids, marks) ==> ids[i] !in Detached(m, ids, marks)[m[ids[i]].parent].children)
  {
    var marks := Marks(m, rank, isFile, root, ids);
    KeptIff(m, ids, marks, i);
    if Reaches(m, rank, root, ids[i]) {
      UsesIffDrawableBelow(m, rank, isFile, ids[i]);
    }
    if ids[i] !in Kept(m, ids, marks) {
      DetachedUnlinks(m, ids, marks, i);
    }
  }
}
