/** The procedural mesh generators of the renderer. Positions, normals,
    tangents and uvs are floating-point geometry and are kept symbolic: a
    generated vertex records where it comes from (a cube corner, an
    icosahedron corner or an edge midpoint, a dot's rim step, a line
    segment's side), so what is proved is the integer structure of each mesh:
    vertex and index counts, index values and their bounds, and how the
    triangles are wound. */
module DrawFunctions {
  import opened Common

  // ---------------------------------------------------------------------
  // Icosphere.

  /** `icosphere::vertices[k]`, or the normalised midpoint of two earlier
      vertices appended by a subdivision round. */
  datatype IcoVertex = Corner(k: nat) | Midpoint(a: nat, b: nat)

  /** The vertex list and the triangle list (three indices per triangle). */
  datatype Surface = Surface(vertices: seq<IcoVertex>, indices: seq<nat>)

  datatype IcoMesh = IcoMesh(path: string, vertices: seq<IcoVertex>, indices: seq<nat>)

  /** Face `f` of `icosphere::triangles`, the 20 faces of the icosahedron. */
  function IcosahedronFace(f: nat): (r: seq<nat>)
    requires f < 20
    ensures |r| == 3
  {
    match f
      case 0 => [0, 4, 1]
      case 1 => [0, 9, 4]
      case 2 => [9, 5, 4]
      case 3 => [4, 5, 8]
      case 4 => [4, 8, 1]
      case 5 => [8, 10, 1]
      case 6 => [8, 3, 10]
      case 7 => [5, 3, 8]
      case 8 => [5, 2, 3]
      case 9 => [2, 7, 3]
      case 10 => [7, 10, 3]
      case 11 => [7, 6, 10]
      case 12 => [7, 11, 6]
      case 13 => [11, 0, 6]
      case 14 => [0, 1, 6]
      case 15 => [6, 1, 10]
      case 16 => [9, 0, 11]
      case 17 => [9, 11, 2]
      case 18 => [9, 2, 5]
      case _ => [7, 2, 11]
  }

  /** The first `n` faces, three indices each. */
  function IcosahedronFaces(n: nat): (r: seq<nat>)
    requires n <= 20
    ensures |r| == 3 * n
  {
    if n == 0 then [] else IcosahedronFaces(n - 1) + IcosahedronFace(n - 1)
  }

  /** The twelve vertices of the icosahedron. */
  function Corners(): (vs: seq<IcoVertex>)
    ensures |vs| == 12 && forall p :: 0 <= p < 12 ==> vs[p] == Corner(p)
  {
    seq(12, k requires 0 <= k < 12 => Corner(k))
  }

  function Icosahedron(): Surface
  {
    Surface(Corners(), IcosahedronFaces(20))
  }

  /** `fmt("icosphere_subdivisions:{}", subdivisions)`, the icosphere's cache path. */
  function IcospherePath(subdivisions: int): string
  {
    "icosphere_subdivisions:" + IntToString(subdivisions)
  }

  /** The three midpoints a round appends for each whole triangle of `idx`,
      in triangle order: (a, b), (b, c), (c, a). */
  function Midpoints(idx: seq<nat>): (r: seq<IcoVertex>)
    ensures |r| == 3 * (|idx| / 3)
    decreases |idx|
  {
    if |idx| < 3 then []
    else [Midpoint(idx[0], idx[1]), Midpoint(idx[1], idx[2]), Midpoint(idx[2], idx[0])] + Midpoints(idx[3..])
  }

  /** The four triangles that replace triangle (a, b, c) when its midpoints
      are vertices n1 = mid(a, b), n1 + 1 = mid(b, c), n1 + 2 = mid(c, a). The
      corner triangle at `c` is (n2, c, n3), wound like its parent. This is
      the intended order; the generator pushes `ChildrenAsWritten`. */
  function Children(a: nat, b: nat, c: nat, n1: nat): (r: seq<nat>)
    ensures |r| == 12
  {
    var n2, n3 := n1 + 1, n1 + 2;
    [a, n1, n3,   n1, b, n2,   n2, c, n3,   n1, n2, n3]
  }

  /** The child triangles exactly as `generate_icosphere` pushes them: the
      corner triangle at `c` is (n3, c, n2). */
  function ChildrenAsWritten(a: nat, b: nat, c: nat, n1: nat): (r: seq<nat>)
    ensures |r| == 12
  {
    var n2, n3 := n1 + 1, n1 + 2;
    [a, n1, n3,   n1, b, n2,   n3, c, n2,   n1, n2, n3]
  }

  /** The new index list of a round: each whole triangle of `idx` split in
      four, the new vertices numbered from `n`, in the order the generator
      pushes them. */
  function Quartered(n: nat, idx: seq<nat>): (r: seq<nat>)
    ensures |r| == 12 * (|idx| / 3)
    decreases |idx|
  {
    if |idx| < 3 then []
    else ChildrenAsWritten(idx[0], idx[1], idx[2], n) + Quartered(n + 3, idx[3..])
  }

  /** One pass of the subdivision loop. */
  function Subdivide(s: Surface): Surface
  {
    Surface(s.vertices + Midpoints(s.indices), Quartered(|s.vertices|, s.indices))
  }

  function Subdivisions(s: Surface, rounds: nat): Surface
    decreases rounds
  {
    if rounds == 0 then s else Subdivide(Subdivisions(s, rounds - 1))
  }

  /** The loop `for (int s = 0; s < subdivisions; s++)` runs no round for a
      negative argument. */
  function Rounds(subdivisions: int): nat
  {
    if subdivisions < 0 then 0 else subdivisions
  }

  // Well-formedness of a surface.

  predicate Bounded(idx: seq<nat>, n: nat)
  {
    forall i :: 0 <= i < |idx| ==> idx[i] < n
  }

  /** Every whole triangle has three distinct corners. */
  predicate NonDegenerate(idx: seq<nat>)
    decreases |idx|
  {
    |idx| < 3 || (idx[0] != idx[1] && idx[1] != idx[2] && idx[2] != idx[0] && NonDegenerate(idx[3..]))
  }

  /** A midpoint joins two distinct vertices that come before it. */
  predicate ParentsEarlier(vs: seq<IcoVertex>)
  {
    forall p :: 0 <= p < |vs| && vs[p].Midpoint? ==> vs[p].a < p && vs[p].b < p && vs[p].a != vs[p].b
  }

  predicate WellFormed(s: Surface)
  {
    |s.indices| % 3 == 0 && Bounded(s.indices, |s.vertices|) && NonDegenerate(s.indices) && ParentsEarlier(s.vertices)
  }

  lemma {:induction false} MidpointsAppend(a: seq<nat>, b: seq<nat>)
    requires |a| % 3 == 0
    ensures Midpoints(a + b) == Midpoints(a) + Midpoints(b)
    decreases |a|
  {
    if |a| == 0 {
      assert a + b == b;
    } else {
      assert (a + b)[3..] == a[3..] + b;
      MidpointsAppend(a[3..], b);
    }
  }

  lemma {:induction false} QuarteredAppend(n: nat, a: seq<nat>, b: seq<nat>)
    requires |a| % 3 == 0
    ensures Quartered(n, a + b) == Quartered(n, a) + Quartered(n + |a|, b)
    decreases |a|
  {
    if |a| == 0 {
      assert a + b == b;
    } else {
      var ab := a + b;
      assert |a| >= 3;
      assert ab[0] == a[0] && ab[1] == a[1] && ab[2] == a[2];
      assert ab[3..] == a[3..] + b;
      QuarteredAppend(n + 3, a[3..], b);
      var head := ChildrenAsWritten(a[0], a[1], a[2], n);
      assert Quartered(n, ab) == head + Quartered(n + 3, ab[3..]);
      assert Quartered(n, a) == head + Quartered(n + 3, a[3..]);
    }
  }

  lemma {:induction false} NonDegenerateAppend(a: seq<nat>, b: seq<nat>)
    requires |a| % 3 == 0 && NonDegenerate(a) && NonDegenerate(b)
    ensures NonDegenerate(a + b)
    decreases |a|
  {
    if |a| == 0 {
      assert a + b == b;
    } else {
      assert (a + b)[3..] == a[3..] + b;
      NonDegenerateAppend(a[3..], b);
    }
  }

  lemma {:induction false} ChildrenNonDegenerate(a: nat, b: nat, c: nat, n1: nat)
    requires a != b && b != c && c != a && a < n1 && b < n1 && c < n1
    ensures NonDegenerate(ChildrenAsWritten(a, b, c, n1))
  {
    var q := ChildrenAsWritten(a, b, c, n1);
    assert NonDegenerate(q[9..]) by {
      assert q[9..][3..] == [];
    }
    assert NonDegenerate(q[6..]) by {
      assert q[6..][3..] == q[9..];
    }
    assert NonDegenerate(q[3..]) by {
      assert q[3..][3..] == q[6..];
    }
  }

  /** The new triangles refer only to old vertices and this round's
      midpoints, and none of them is degenerate. */
  lemma {:induction false} QuarteredWellFormed(n: nat, idx: seq<nat>)
    requires Bounded(idx, n) && NonDegenerate(idx)
    ensures Bounded(Quartered(n, idx), n + |idx| / 3 * 3)
    ensures NonDegenerate(Quartered(n, idx))
    decreases |idx|
  {
    if |idx| >= 3 {
      var rest := idx[3..];
      assert Bounded(rest, n) by {
        forall i | 0 <= i < |rest| ensures rest[i] < n {
          assert rest[i] == idx[i + 3];
        }
      }
      QuarteredWellFormed(n + 3, rest);
      assert idx[0] < n && idx[1] < n && idx[2] < n;
      ChildrenNonDegenerate(idx[0], idx[1], idx[2], n);
      NonDegenerateAppend(ChildrenAsWritten(idx[0], idx[1], idx[2], n), Quartered(n + 3, rest));
    }
  }

  /** Each midpoint of a round joins two distinct old vertices. */
  lemma {:induction false} MidpointsParents(n: nat, idx: seq<nat>)
    requires Bounded(idx, n) && NonDegenerate(idx)
    ensures forall p :: 0 <= p < |Midpoints(idx)| ==>
      Midpoints(idx)[p].Midpoint? && Midpoints(idx)[p].a < n && Midpoints(idx)[p].b < n &&
      Midpoints(idx)[p].a != Midpoints(idx)[p].b
    decreases |idx|
  {
    if |idx| >= 3 {
      var rest := idx[3..];
      assert Bounded(rest, n) by {
        forall i | 0 <= i < |rest| ensures rest[i] < n {
          assert rest[i] == idx[i + 3];
        }
      }
      MidpointsParents(n, rest);
      assert idx[0] < n && idx[1] < n && idx[2] < n;
    }
  }

  /** A round multiplies the triangles by four: the index list grows fourfold
      and one vertex is appended per old index, after the old vertices. */
  lemma {:induction false} SubdivideCounts(s: Surface)
    requires |s.indices| % 3 == 0
    ensures |Subdivide(s).indices| == 4 * |s.indices|
    ensures |Subdivide(s).vertices| == |s.vertices| + |s.indices|
    ensures Subdivide(s).vertices[..|s.vertices|] == s.vertices
    ensures |Subdivide(s).indices| % 3 == 0
  {
    assert |Subdivide(s).indices| == 3 * (4 * (|s.indices| / 3));
  }

  /** A round keeps a surface well formed. */
  lemma {:induction false} SubdivideWellFormed(s: Surface)
    requires WellFormed(s)
    ensures WellFormed(Subdivide(s))
  {
    var n := |s.vertices|;
    var t := Subdivide(s);
    QuarteredWellFormed(n, s.indices);
    MidpointsParents(n, s.indices);
    var ms := Midpoints(s.indices);
    forall p | 0 <= p < |t.vertices| && t.vertices[p].Midpoint?
      ensures t.vertices[p].a < p && t.vertices[p].b < p && t.vertices[p].a != t.vertices[p].b
    {
      if p >= n {
        assert t.vertices[p] == ms[p - n];
      } else {
        assert t.vertices[p] == s.vertices[p];
      }
    }
  }

  lemma {:induction false} BoundedAppend(a: seq<nat>, b: seq<nat>, n: nat)
    requires Bounded(a, n) && Bounded(b, n)
    ensures Bounded(a + b, n)
  {
    forall i | 0 <= i < |a + b| ensures (a + b)[i] < n {
      if i >= |a| {
        assert (a + b)[i] == b[i - |a|];
      }
    }
  }

  lemma {:induction false} IcosahedronFaceWellFormed(f: nat)
    requires f < 20
    ensures Bounded(IcosahedronFace(f), 12) && NonDegenerate(IcosahedronFace(f))
  {
    var face := IcosahedronFace(f);
    assert face[3..] == [];
    assert face[0] < 12 && face[1] < 12 && face[2] < 12;
  }

  lemma {:induction false} IcosahedronFacesWellFormed(n: nat)
    requires n <= 20
    ensures Bounded(IcosahedronFaces(n), 12) && NonDegenerate(IcosahedronFaces(n))
  {
    if n > 0 {
      var prefix, face := IcosahedronFaces(n - 1), IcosahedronFace(n - 1);
      assert IcosahedronFaces(n) == prefix + face;
      assert |prefix| == 3 * (n - 1) && |prefix| % 3 == 0;
      IcosahedronFacesWellFormed(n - 1);
      IcosahedronFaceWellFormed(n - 1);
      BoundedAppend(prefix, face, 12);
      NonDegenerateAppend(prefix, face);
    }
  }

  lemma {:induction false} IcosahedronWellFormed()
    ensures WellFormed(Icosahedron())
    ensures |Icosahedron().vertices| == 12 && |Icosahedron().indices| == 60
  {
    FacesWellFormed(20);
  }

  lemma {:induction false} FacesWellFormed(n: nat)
    requires n <= 20
    ensures WellFormed(Surface(Corners(), IcosahedronFaces(n)))
  {
    var s := Surface(Corners(), IcosahedronFaces(n));
    IcosahedronFacesWellFormed(n);
    assert |s.indices| == 3 * n;
    forall p | 0 <= p < |s.vertices|
      ensures !s.vertices[p].Midpoint?
    {
      assert s.vertices[p] == Corner(p);
    }
  }

  /** `rounds` rounds multiply the triangles by `4^rounds`, keep the surface
      well formed and keep its original vertices as a prefix. */
  lemma {:induction false} SubdivisionsWellFormed(base: Surface, rounds: nat)
    requires WellFormed(base)
    ensures WellFormed(Subdivisions(base, rounds))
    decreases rounds
  {
    if rounds > 0 {
      SubdivisionsWellFormed(base, rounds - 1);
      SubdivideWellFormed(Subdivisions(base, rounds - 1));
    }
  }

  /** `rounds` rounds multiply the triangles by `4^rounds` and keep the
      original vertices as a prefix. */
  lemma {:induction false} SubdivisionsCounts(base: Surface, rounds: nat)
    requires |base.indices| % 3 == 0
    ensures var s := Subdivisions(base, rounds);
      |s.indices| % 3 == 0 && |s.indices| == Pow4(rounds) * |base.indices| &&
      3 * |s.vertices| == 3 * |base.vertices| + (Pow4(rounds) - 1) * |base.indices| &&
      |base.vertices| <= |s.vertices| && s.vertices[..|base.vertices|] == base.vertices
    decreases rounds
  {
    if rounds > 0 {
      var prev := Subdivisions(base, rounds - 1);
      SubdivisionsCounts(base, rounds - 1);
      SubdivideCounts(prev);
      RoundCounts(Pow4(rounds - 1), |base.indices|, |base.vertices|, |prev.vertices|, |prev.indices|);
      var next := Subdivide(prev);
      assert next.vertices[..|base.vertices|] == next.vertices[..|prev.vertices|][..|base.vertices|];
    }
  }

  /** The count arithmetic of one more round. */
  lemma {:induction false} RoundCounts(p: nat, n: nat, v0: nat, v: nat, i: nat)
    requires p >= 1 && i == p * n && 3 * v == 3 * v0 + (p - 1) * n
    ensures 4 * i == (4 * p) * n
    ensures 3 * (v + i) == 3 * v0 + (4 * p - 1) * n
    ensures v0 <= v
  {
    assert (p - 1) * n >= 0;
  }

  /** After `rounds` rounds the icosphere has `60 * 4^rounds` indices and
      `12 + 20 * (4^rounds - 1)` vertices; it stays well formed and its first
      twelve vertices are still the icosahedron's corners. */
  lemma {:induction false} IcosphereShape(rounds: nat)
    ensures var s := Subdivisions(Icosahedron(), rounds);
      WellFormed(s) &&
      |s.indices| == 60 * Pow4(rounds) && |s.vertices| == 12 + 20 * (Pow4(rounds) - 1) &&
      s.vertices[..12] == Icosahedron().vertices
  {
    IcosahedronWellFormed();
    SubdivisionsWellFormed(Icosahedron(), rounds);
    SubdivisionsCounts(Icosahedron(), rounds);
  }

  /** `generate_icosphere`: the icosahedron, then `subdivisions` rounds. The
      final loop over the vertices only sets floating-point attributes. */
  method GenerateIcosphere(subdivisions: int) returns (m: IcoMesh)
    ensures m.path == IcospherePath(subdivisions)
    ensures Surface(m.vertices, m.indices) == Subdivisions(Icosahedron(), Rounds(subdivisions))
  {
    var s := SubdivideRounds(Icosahedron(), subdivisions);
    m := IcoMesh(IcospherePath(subdivisions), s.vertices, s.indices);
  }

  /** The round loop of `generate_icosphere`. */
  method SubdivideRounds(base: Surface, subdivisions: int) returns (r: Surface)
    ensures r == Subdivisions(base, Rounds(subdivisions))
  {
    var vertices, indices := base.vertices, base.indices;
    var s := 0;
    while s < subdivisions
      invariant 0 <= s <= Rounds(subdivisions)
      invariant Surface(vertices, indices) == Subdivisions(base, s)
    {
      vertices, indices := SubdivideRound(vertices, indices);
      s := s + 1;
    }
    r := Surface(vertices, indices);
  }

  /** One round: each whole triangle of `indices` gets three new vertices
      and is replaced by four triangles in the new index list. */
  method SubdivideRound(vertices0: seq<IcoVertex>, indices: seq<nat>) returns (vertices: seq<IcoVertex>, newIndices: seq<nat>)
    ensures Surface(vertices, newIndices) == Subdivide(Surface(vertices0, indices))
  {
    vertices := vertices0;
    newIndices := [];
    var i := 0;
    while i + 2 < |indices|
      invariant i % 3 == 0 && i <= |indices|
      invariant vertices == vertices0 + Midpoints(indices[..i])
      invariant newIndices == Quartered(|vertices0|, indices[..i])
    {
      var a, b, c := indices[i], indices[i + 1], indices[i + 2];
      var n1 := |vertices|;
      var n2, n3 := n1 + 1, n1 + 2;
      RoundStep(|vertices0|, indices, i);
      vertices := vertices + [Midpoint(a, b), Midpoint(b, c), Midpoint(c, a)];
      newIndices := newIndices + [a, n1, n3,  n1, b, n2,  n3, c, n2,  n1, n2, n3];
      i := i + 3;
    }
    RoundEnd(|vertices0|, indices, i);
  }

  lemma {:induction false} RoundStep(n: nat, indices: seq<nat>, i: nat)
    requires i % 3 == 0 && i + 2 < |indices|
    ensures Midpoints(indices[..i + 3]) ==
      Midpoints(indices[..i]) + [Midpoint(indices[i], indices[i + 1]), Midpoint(indices[i + 1], indices[i + 2]), Midpoint(indices[i + 2], indices[i])]
    ensures Quartered(n, indices[..i + 3]) == Quartered(n, indices[..i]) + ChildrenAsWritten(indices[i], indices[i + 1], indices[i + 2], n + i)
  {
    var tri := indices[i..i + 3];
    MidpointsAppend(indices[..i], tri);
    QuarteredAppend(n, indices[..i], tri);
    assert indices[..i + 3] == indices[..i] + tri;
    assert tri[3..] == [];
  }

  lemma {:induction false} RoundEnd(n: nat, indices: seq<nat>, i: nat)
    requires i % 3 == 0 && i <= |indices| && |indices| < i + 3
    ensures Midpoints(indices[..i]) == Midpoints(indices)
    ensures Quartered(n, indices[..i]) == Quartered(n, indices)
  {
    MidpointsAppend(indices[..i], indices[i..]);
    QuarteredAppend(n, indices[..i], indices[i..]);
    assert indices == indices[..i] + indices[i..];
  }

  // Winding of the child triangles.

  /** The directed edges of the four triangles of a 12-index block. */
  function BlockEdges(q: seq<nat>): seq<(nat, nat)>
    requires |q| == 12
  {
    [(q[0], q[1]), (q[1], q[2]), (q[2], q[0]),
     (q[3], q[4]), (q[4], q[5]), (q[5], q[3]),
     (q[6], q[7]), (q[7], q[8]), (q[8], q[6]),
     (q[9], q[10]), (q[10], q[11]), (q[11], q[9])]
  }

  /** Consistently oriented: no two triangles run along an edge in the same
      direction. */
  predicate Coherent(q: seq<nat>)
    requires |q| == 12
  {
    var es := BlockEdges(q);
    forall i, j :: 0 <= i < j < |es| ==> es[i] != es[j]
  }

  /** The children of a triangle wound like their parent: together they are
      consistently oriented, and their outer edges run around the parent in
      its own direction a -> n1 -> b -> n2 -> c -> n3 -> a. */
  lemma {:induction false} ChildrenCoherent(a: nat, b: nat, c: nat, n1: nat)
    requires a != b && b != c && c != a && a < n1 && b < n1 && c < n1
    ensures Coherent(Children(a, b, c, n1))
    ensures var es := BlockEdges(Children(a, b, c, n1));
      (a, n1) in es && (n1, b) in es && (b, n1 + 1) in es && (n1 + 1, c) in es && (c, n1 + 2) in es && (n1 + 2, a) in es
  {
  }

  /** As written, the corner triangle at `c` runs along the inner edge
      n2 -> n3 in the same direction as the centre triangle does, and along
      the outer edges against the parent (c -> n2 where the parent runs
      b -> c): the block is never consistently oriented, whatever the
      triangle. */
  lemma {:induction false} ChildrenAsWrittenIncoherent(a: nat, b: nat, c: nat, n1: nat)
    ensures !Coherent(ChildrenAsWritten(a, b, c, n1))
    ensures (c, n1 + 1) in BlockEdges(ChildrenAsWritten(a, b, c, n1))
  {
    var es := BlockEdges(ChildrenAsWritten(a, b, c, n1));
    assert es[8] == es[10] == (n1 + 1, n1 + 2);
  }

  /** So every round of the generator pushes an inconsistently wound block:
      the four triangles that replace the first triangle. */
  lemma {:induction false} SubdivideIncoherent(s: Surface)
    requires |s.indices| >= 3
    ensures |Subdivide(s).indices| >= 12
    ensures !Coherent(Subdivide(s).indices[..12])
  {
    var idx := s.indices;
    var q := ChildrenAsWritten(idx[0], idx[1], idx[2], |s.vertices|);
    assert Subdivide(s).indices == q + Quartered(|s.vertices| + 3, idx[3..]);
    assert Subdivide(s).indices[..12] == q;
    ChildrenAsWrittenIncoherent(idx[0], idx[1], idx[2], |s.vertices|);
  }

  // ---------------------------------------------------------------------
  // Cube.

  datatype Int3 = Int3(x: int, y: int, z: int)

  /** `p` is a corner of the cube [-1, 1]^3. */
  predicate Corner3(p: Int3)
  {
    (p.x == 1 || p.x == -1) && (p.y == 1 || p.y == -1) && (p.z == 1 || p.z == -1)
  }

  /** `n` is a unit vector along one axis. */
  predicate UnitAxis(n: Int3)
  {
    ((n.x == 1 || n.x == -1) && n.y == 0 && n.z == 0) ||
    (n.x == 0 && (n.y == 1 || n.y == -1) && n.z == 0) ||
    (n.x == 0 && n.y == 0 && (n.z == 1 || n.z == -1))
  }

  /** A vertex of `generate_cube`: at `center + extents * corner`, with a
      face normal, a tangent and a uv, all integer-valued in the source. */
  datatype CubeVertex = CubeVertex(corner: Int3, normal: Int3, tangent: Int3, u: int, v: int)

  datatype CubeMesh = CubeMesh(center: Vec3, extents: Vec3, color: Color, vertices: seq<CubeVertex>, indices: seq<nat>)

  /** The six vertices (two triangles) of face `f`, in the order back, front,
      left, right, bottom, top. */
  function CubeFace(f: nat): (r: seq<CubeVertex>)
    requires f < 6
    ensures |r| == 6
  {
    match f
      case 0 =>
        var n, t := Int3(0, 0, -1), Int3(-1, 0, 0);
        [CubeVertex(Int3(-1, -1, -1), n, t, 1, 1), CubeVertex(Int3(1, 1, -1), n, t, 0, 0),
         CubeVertex(Int3(1, -1, -1), n, t, 0, 1), CubeVertex(Int3(1, 1, -1), n, t, 0, 0),
         CubeVertex(Int3(-1, -1, -1), n, t, 1, 1), CubeVertex(Int3(-1, 1, -1), n, t, 1, 0)]
      case 1 =>
        var n, t := Int3(0, 0, 1), Int3(1, 0, 0);
        [CubeVertex(Int3(-1, -1, 1), n, t, 0, 1), CubeVertex(Int3(1, -1, 1), n, t, 1, 1),
         CubeVertex(Int3(1, 1, 1), n, t, 1, 0), CubeVertex(Int3(1, 1, 1), n, t, 1, 0),
         CubeVertex(Int3(-1, 1, 1), n, t, 0, 0), CubeVertex(Int3(-1, -1, 1), n, t, 0, 1)]
      case 2 =>
        var n, t := Int3(-1, 0, 0), Int3(0, 0, 1);
        [CubeVertex(Int3(-1, 1, -1), n, t, 0, 0), CubeVertex(Int3(-1, -1, -1), n, t, 0, 1),
         CubeVertex(Int3(-1, 1, 1), n, t, 1, 0), CubeVertex(Int3(-1, -1, -1), n, t, 0, 1),
         CubeVertex(Int3(-1, -1, 1), n, t, 1, 1), CubeVertex(Int3(-1, 1, 1), n, t, 1, 0)]
      case 3 =>
        var n, t := Int3(1, 0, 0), Int3(0, 0, -1);
        [CubeVertex(Int3(1, 1, 1), n, t, 0, 0), CubeVertex(Int3(1, -1, -1), n, t, 1, 1),
         CubeVertex(Int3(1, 1, -1), n, t, 1, 0), CubeVertex(Int3(1, -1, -1), n, t, 1, 1),
         CubeVertex(Int3(1, 1, 1), n, t, 0, 0), CubeVertex(Int3(1, -1, 1), n, t, 0, 1)]
      case 4 =>
        var n, t := Int3(0, -1, 0), Int3(1, 0, 0);
        [CubeVertex(Int3(-1, -1, -1), n, t, 0, 1), CubeVertex(Int3(1, -1, -1), n, t, 1, 1),
         CubeVertex(Int3(1, -1, 1), n, t, 1, 0), CubeVertex(Int3(1, -1, 1), n, t, 1, 0),
         CubeVertex(Int3(-1, -1, 1), n, t, 0, 0), CubeVertex(Int3(-1, -1, -1), n, t, 0, 1)]
      case _ =>
        var n, t := Int3(0, 1, 0), Int3(1, 0, 0);
        [CubeVertex(Int3(-1, 1, -1), n, t, 0, 0), CubeVertex(Int3(1, 1, 1), n, t, 1, 1),
         CubeVertex(Int3(1, 1, -1), n, t, 1, 0), CubeVertex(Int3(1, 1, 1), n, t, 1, 1),
         CubeVertex(Int3(-1, 1, -1), n, t, 0, 0), CubeVertex(Int3(-1, 1, 1), n, t, 0, 1)]
  }

  function CubeFaces(n: nat): (r: seq<CubeVertex>)
    requires n <= 6
    ensures |r| == 6 * n
  {
    if n == 0 then [] else CubeFaces(n - 1) + CubeFace(n - 1)
  }

  /** `generate_cube`: 36 unshared vertices and the indices 0 to 35. The
      cache path is a formatting of floating-point values and is not kept. */
  function GenerateCube(center: Vec3, extents: Vec3, color: Color): (m: CubeMesh)
    ensures |m.vertices| == 36 && |m.indices| == 36
    ensures forall i :: 0 <= i < 36 ==> m.indices[i] == i
  {
    CubeMesh(center, extents, color, CubeFaces(6), Iota(36))
  }

  /** Vertex `v` sits at a cube corner on the face its normal names. */
  predicate OnFace(v: CubeVertex)
  {
    Corner3(v.corner) && UnitAxis(v.normal) &&
    (v.normal.x != 0 ==> v.corner.x == v.normal.x) &&
    (v.normal.y != 0 ==> v.corner.y == v.normal.y) &&
    (v.normal.z != 0 ==> v.corner.z == v.normal.z)
  }

  /** The six vertices of each face carry that face's normal. */
  predicate FaceShared(vs: seq<CubeVertex>, f: nat)
    requires 6 * f + 5 < |vs|
  {
    forall k :: 6 * f <= k < 6 * f + 6 ==> vs[k].normal == vs[6 * f].normal
  }

  lemma {:induction false} CubeFaceOnFace(f: nat)
    requires f < 6
    ensures forall k :: 0 <= k < 6 ==> OnFace(CubeFace(f)[k]) && CubeFace(f)[k].normal == CubeFace(f)[0].normal
  {
  }

  lemma {:induction false} CubeFacesOnFace(n: nat)
    requires n <= 6
    ensures forall k :: 0 <= k < 6 * n ==> OnFace(CubeFaces(n)[k])
    ensures forall f :: 0 <= f < n ==> FaceShared(CubeFaces(n), f)
  {
    if n > 0 {
      var prefix, face := CubeFaces(n - 1), CubeFace(n - 1);
      var all := CubeFaces(n);
      assert all == prefix + face;
      CubeFacesOnFace(n - 1);
      CubeFaceOnFace(n - 1);
      forall k | 0 <= k < 6 * n ensures OnFace(all[k]) {
        if k >= 6 * (n - 1) {
          assert all[k] == face[k - 6 * (n - 1)];
        } else {
          assert all[k] == prefix[k];
        }
      }
      forall f | 0 <= f < n ensures FaceShared(all, f) {
        if f < n - 1 {
          assert FaceShared(prefix, f);
          assert forall k :: 6 * f <= k < 6 * f + 6 ==> all[k] == prefix[k];
        } else {
          assert forall k :: 6 * f <= k < 6 * f + 6 ==> all[k] == face[k - 6 * f];
        }
      }
    }
  }

  /** Every vertex of the cube sits at a corner on the face its normal names,
      and the six vertices of each face share one normal. */
  lemma {:induction false} CubeOnFaces(center: Vec3, extents: Vec3, color: Color)
    ensures var m := GenerateCube(center, extents, color);
      (forall k :: 0 <= k < 36 ==> OnFace(m.vertices[k])) &&
      forall f :: 0 <= f < 6 ==> FaceShared(m.vertices, f)
  {
    CubeFacesOnFace(6);
  }

  // ---------------------------------------------------------------------
  // Formatted lines, dots and squares.

  /** `FormattedVertex`: a position, a colour and a line width. */
  datatype FormattedVertex = FormattedVertex(position: Vec3, color: Color, width: real)

  /** `FormattedVertex::separate()`. */
  const SEPARATE: FormattedVertex := FormattedVertex(Vec3(0.0, 0.0, 0.0), CLEAR, 0.0)

  /** A vertex with zero alpha breaks the line. */
  predicate Transparent(v: FormattedVertex)
  {
    v.color.a == 0.0
  }

  /** A vertex of a dot: the centre, or the rim point at `step / 16` of a turn. */
  datatype DotVertex = DotCenter | DotRim(step: nat)

  datatype DotMesh = DotMesh(path: string, color: Color, vertices: seq<DotVertex>, indices: seq<nat>)

  /** Vertex `k` of a dot: every third one is the centre, then the rim
      points at the start and end of slice `k / 3`. */
  function DotVertexAt(k: nat): DotVertex
  {
    if k % 3 == 0 then DotCenter else if k % 3 == 1 then DotRim(k / 3) else DotRim(k / 3 + 1)
  }

  /** `generate_formatted_dot`: a fan of 16 triangles around the vertex,
      named after `hash`, the hash of the vertex's bytes. */
  method GenerateFormattedDot(vertex: FormattedVertex, hash: nat) returns (m: DotMesh)
    ensures m.path == "dot_hash:" + HexString(hash) && m.color == vertex.color
    ensures |m.vertices| == 48 && m.indices == Iota(48)
    ensures forall k :: 0 <= k < 48 ==> m.vertices[k] == DotVertexAt(k)
  {
    var vertices: seq<DotVertex> := [];
    var indices: seq<nat> := [];
    var i := 0;
    while i < 16
      invariant 0 <= i <= 16
      invariant |vertices| == 3 * i && indices == Iota(3 * i)
      invariant forall k :: 0 <= k < 3 * i ==> vertices[k] == DotVertexAt(k)
    {
      vertices := vertices + [DotCenter, DotRim(i), DotRim(i + 1)];
      indices := indices + [i * 3 + 0, i * 3 + 1, i * 3 + 2];
      i := i + 1;
    }
    m := DotMesh("dot_hash:" + HexString(hash), vertex.color, vertices, indices);
  }

  /** The dot's triangles form a closed fan: each slice starts where the
      previous one ends, and the last ends a full turn after the first
      starts. Distinct hashes name distinct dot meshes. */
  lemma {:induction false} DotFanCloses(hash1: nat, hash2: nat)
    ensures forall i :: 0 <= i < 15 ==> DotVertexAt(3 * i + 2) == DotVertexAt(3 * (i + 1) + 1)
    ensures DotVertexAt(47).step == DotVertexAt(1).step + 16
    ensures "dot_hash:" + HexString(hash1) == "dot_hash:" + HexString(hash2) ==> hash1 == hash2
  {
    HexStringInjective(hash1, hash2);
    var p1, p2 := "dot_hash:" + HexString(hash1), "dot_hash:" + HexString(hash2);
    if p1 == p2 {
      assert HexString(hash1) == p1[9..] == p2[9..] == HexString(hash2);
    }
  }

  // ---------------------------------------------------------------------
  // Lines.

  /** The direction a segment is pushed out along: across the edge from
      vertex `from` to vertex `to`, or along the bisector of the two edges
      that meet at an interior vertex. */
  datatype Offset = Across(from: nat, to: nat) | Bisector

  /** A `Segment` of `generate_formatted_line`: a break in the line, or a
      left and a right point either side of vertex `vertex`, in its colour. */
  datatype Segment = Separator | Edge(vertex: nat, offset: Offset)

  datatype Side = Left | Right

  /** A vertex of the line mesh: one side of a segment. */
  datatype LineVertex = LineVertex(segment: Segment, side: Side)

  datatype LineMesh = LineMesh(path: string, vertices: seq<LineVertex>, indices: seq<nat>)

  /** `none_before`: vertex `i` gets no corner towards its predecessor. */
  predicate NoneBefore(vs: seq<FormattedVertex>, i: nat)
    requires i < |vs|
  {
    i == 0 || (i + 1 < |vs| && Transparent(vs[i - 1]))
  }

  /** `none_after`: vertex `i` gets no corner towards its successor. */
  predicate NoneAfter(vs: seq<FormattedVertex>, i: nat)
    requires i < |vs|
  {
    i + 1 == |vs| || (0 < i && Transparent(vs[i + 1]))
  }

  /** The segments one pass of the first loop of `generate_formatted_line`
      pushes for vertex `i`. */
  function VertexSegments(vs: seq<FormattedVertex>, i: nat): (r: seq<Segment>)
    requires i < |vs|
    ensures |r| <= 3
    ensures forall k :: 0 <= k < |r| && r[k].Edge? ==> r[k].vertex == i && !Transparent(vs[i])
    ensures forall k :: 0 <= k < |r| && r[k].Edge? && r[k].offset.Across? ==>
      var o := r[k].offset; o.to == o.from + 1 && o.to < |vs| && (o.from == i || o.to == i)
  {
    if Transparent(vs[i]) then [Separator]
    else if NoneBefore(vs, i) && NoneAfter(vs, i) then []
    else if NoneBefore(vs, i) then [Edge(i, Across(i, i + 1))]
    else if NoneAfter(vs, i) then [Edge(i, Across(i - 1, i))]
    else [Edge(i, Across(i - 1, i)), Edge(i, Bisector), Edge(i, Across(i, i + 1))]
  }

  /** The segments of the first `n` vertices. */
  function Segments(vs: seq<FormattedVertex>, n: nat): (r: seq<Segment>)
    requires n <= |vs|
    ensures forall k :: 0 <= k < |r| && r[k].Edge? ==> r[k].vertex < n && !Transparent(vs[r[k].vertex])
  {
    if n == 0 then [] else Segments(vs, n - 1) + VertexSegments(vs, n - 1)
  }

  /** The positions `i < k` at which the second loop emits a quad: those where
      neither `segments[i]` nor `segments[i + 1]` is a separator, in order. */
  function QuadStarts(segs: seq<Segment>, k: nat): (r: seq<nat>)
    requires k < |segs|
    ensures forall t :: 0 <= t < |r| ==> r[t] < k && segs[r[t]].Edge? && segs[r[t] + 1].Edge?
  {
    if k == 0 then []
    else QuadStarts(segs, k - 1) + (if segs[k - 1].Edge? && segs[k].Edge? then [k - 1] else [])
  }

  /** The six vertices of the quad from segment `s1` to segment `s2`. */
  function QuadVertices(s1: Segment, s2: Segment): seq<LineVertex>
  {
    [LineVertex(s1, Left), LineVertex(s1, Right), LineVertex(s2, Right),
     LineVertex(s1, Left), LineVertex(s2, Right), LineVertex(s2, Left)]
  }

  /** The vertices of the quads starting at `starts`, one after another. */
  function LineVertices(segs: seq<Segment>, starts: seq<nat>): (r: seq<LineVertex>)
    requires forall t :: 0 <= t < |starts| ==> starts[t] + 1 < |segs|
    ensures |r| == 6 * |starts|
  {
    if starts == [] then []
    else
      var s := starts[|starts| - 1];
      LineVertices(segs, starts[..|starts| - 1]) + QuadVertices(segs[s], segs[s + 1])
  }

  /** `generate_formatted_line`: no mesh at all for fewer than two vertices;
      otherwise a mesh named after `hash`, the hash of the vertex bytes,
      holding one quad for every two adjacent segments neither of which is a
      separator, with indices 0 to 6q - 1 in order. */
  method GenerateFormattedLine(vs: seq<FormattedVertex>, hash: nat) returns (m: LineMesh)
    ensures |vs| < 2 ==> m == LineMesh("", [], [])
    ensures |vs| >= 2 ==>
      var segs := Segments(vs, |vs|);
      |segs| >= 1 && m.path == "line_hash:" + HexString(hash) &&
      m.vertices == LineVertices(segs, QuadStarts(segs, |segs| - 1)) &&
      m.indices == Iota(|m.vertices|)
  {
    if |vs| < 2 {
      return LineMesh("", [], []);
    }
    var segments := LineSegments(vs);
    SegmentsNonEmpty(vs, |vs|);
    var vertices, indices := LineQuads(segments);
    m := LineMesh("line_hash:" + HexString(hash), vertices, indices);
  }

  /** The first loop of `generate_formatted_line`: the segments of every
      vertex, in order. */
  method LineSegments(vs: seq<FormattedVertex>) returns (segments: seq<Segment>)
    ensures segments == Segments(vs, |vs|)
  {
    segments := [];
    var i := 0;
    while i < |vs|
      invariant 0 <= i <= |vs|
      invariant segments == Segments(vs, i)
    {
      if Transparent(vs[i]) {
        segments := segments + [Separator];
        i := i + 1;
        continue;
      }
      var noneBefore := i == 0;
      var noneAfter := i + 1 == |vs|;
      if !noneBefore && !noneAfter {
        noneBefore := noneBefore || Transparent(vs[i - 1]);
        noneAfter := noneAfter || Transparent(vs[i + 1]);
      }
      assert noneBefore == NoneBefore(vs, i) && noneAfter == NoneAfter(vs, i);
      if noneBefore && noneAfter {
        i := i + 1;
        continue;
      }
      if noneBefore || noneAfter {
        var index1 := if noneAfter then i - 1 else i;
        var index2 := if noneAfter then i else i + 1;
        segments := segments + [Edge(i, Across(index1, index2))];
      } else {
        segments := segments + [Edge(i, Across(i - 1, i)), Edge(i, Bisector), Edge(i, Across(i, i + 1))];
      }
      i := i + 1;
    }
  }

  /** The second loop of `generate_formatted_line`: a quad for every two
      adjacent segments neither of which is a separator, numbered in order. */
  method LineQuads(segments: seq<Segment>) returns (vertices: seq<LineVertex>, indices: seq<nat>)
    requires |segments| >= 1
    ensures vertices == LineVertices(segments, QuadStarts(segments, |segments| - 1))
    ensures indices == Iota(|vertices|)
  {
    vertices := [];
    indices := [];
    var j := 0;
    var i := 0;
    while i < |segments| - 1
      invariant 0 <= i <= |segments| - 1
      invariant vertices == LineVertices(segments, QuadStarts(segments, i))
      invariant j == |QuadStarts(segments, i)| && indices == Iota(6 * j)
    {
      var seg1, seg2 := segments[i], segments[i + 1];
      QuadStep(segments, i);
      if !seg1.Separator? && !seg2.Separator? {
        IotaSix(j);
        vertices := vertices + QuadVertices(seg1, seg2);
        indices := indices + [j * 6 + 0, j * 6 + 1, j * 6 + 2, j * 6 + 3, j * 6 + 4, j * 6 + 5];
        j := j + 1;
      }
      i := i + 1;
    }
  }

  /** One pass of the quad loop: a quad is added exactly when neither
      segment is a separator. */
  lemma {:induction false} QuadStep(segs: seq<Segment>, i: nat)
    requires i + 1 < |segs|
    ensures var starts, starts' := QuadStarts(segs, i), QuadStarts(segs, i + 1);
      if segs[i].Edge? && segs[i + 1].Edge? then
        |starts'| == |starts| + 1 &&
        LineVertices(segs, starts') == LineVertices(segs, starts) + QuadVertices(segs[i], segs[i + 1])
      else starts' == starts
  {
    var starts := QuadStarts(segs, i);
    if segs[i].Edge? && segs[i + 1].Edge? {
      assert QuadStarts(segs, i + 1) == starts + [i];
      LineVerticesSnoc(segs, starts, i);
    }
  }

  lemma {:induction false} IotaSix(j: nat)
    ensures Iota(6 * j) + [j * 6 + 0, j * 6 + 1, j * 6 + 2, j * 6 + 3, j * 6 + 4, j * 6 + 5] == Iota(6 * (j + 1))
  {
    IotaOf(Iota(6 * j) + [j * 6 + 0, j * 6 + 1, j * 6 + 2, j * 6 + 3, j * 6 + 4, j * 6 + 5]);
  }

  lemma {:induction false} LineVerticesSnoc(segs: seq<Segment>, starts: seq<nat>, s: nat)
    requires forall t :: 0 <= t < |starts| ==> starts[t] + 1 < |segs|
    requires s + 1 < |segs|
    ensures LineVertices(segs, starts + [s]) == LineVertices(segs, starts) + QuadVertices(segs[s], segs[s + 1])
  {
    assert (starts + [s])[..|starts|] == starts;
  }

  /** With at least two vertices there is always a segment (vertex 0 pushes
      one whatever its neighbour), so `segments.size() - 1` never wraps. */
  lemma {:induction false} SegmentsNonEmpty(vs: seq<FormattedVertex>, n: nat)
    requires 2 <= |vs| && 1 <= n <= |vs|
    ensures |Segments(vs, n)| >= 1
  {
    if n > 1 {
      SegmentsNonEmpty(vs, n - 1);
    } else {
      assert |VertexSegments(vs, 0)| == 1;
    }
  }

  /** Every segment that is not a separator is pushed across a real edge of
      the line, between two consecutive input vertices one of which is its
      own, or along the bisector at its vertex. */
  lemma {:induction false} SegmentsAcross(vs: seq<FormattedVertex>, n: nat)
    requires n <= |vs|
    ensures forall k :: 0 <= k < |Segments(vs, n)| && Segments(vs, n)[k].Edge? && Segments(vs, n)[k].offset.Across? ==>
      var s := Segments(vs, n)[k];
      s.offset.to == s.offset.from + 1 && s.offset.to < |vs| && (s.offset.from == s.vertex || s.offset.to == s.vertex)
  {
    if n > 0 {
      SegmentsAcross(vs, n - 1);
      var prev, v := Segments(vs, n - 1), VertexSegments(vs, n - 1);
      assert Segments(vs, n) == prev + v;
    }
  }

  /** How many segments a vertex pushes, in terms of its neighbours: a
      transparent vertex one separator; an opaque first or last vertex one
      segment whatever its neighbour; an opaque interior vertex none when both
      neighbours are transparent, three when neither is, and one otherwise. */
  lemma {:induction false} VertexSegmentsCount(vs: seq<FormattedVertex>, i: nat)
    requires 2 <= |vs| && i < |vs|
    ensures Transparent(vs[i]) ==> VertexSegments(vs, i) == [Separator]
    ensures !Transparent(vs[i]) && (i == 0 || i == |vs| - 1) ==> |VertexSegments(vs, i)| == 1
    ensures !Transparent(vs[i]) && 0 < i < |vs| - 1 ==>
      (|VertexSegments(vs, i)| == 0 <==> Transparent(vs[i - 1]) && Transparent(vs[i + 1])) &&
      (|VertexSegments(vs, i)| == 3 <==> !Transparent(vs[i - 1]) && !Transparent(vs[i + 1])) &&
      (|VertexSegments(vs, i)| == 1 <==> Transparent(vs[i - 1]) != Transparent(vs[i + 1]))
  {
  }

  /** The segments of the first `n` vertices (1 <= n < |vs|) number at most
      3n - 2: the first vertex pushes one, every other at most three. */
  lemma {:induction false} SegmentsPrefixBound(vs: seq<FormattedVertex>, n: nat)
    requires 2 <= |vs| && 1 <= n < |vs|
    ensures |Segments(vs, n)| <= 3 * n - 2
  {
    if n > 1 {
      SegmentsPrefixBound(vs, n - 1);
    } else {
      VertexSegmentsCount(vs, 0);
    }
  }

  /** The capacity `vertices.size() + (vertices.size() - 2) * 2` reserved for
      the segments is never exceeded. */
  lemma {:induction false} SegmentsBound(vs: seq<FormattedVertex>)
    requires 2 <= |vs|
    ensures |Segments(vs, |vs|)| <= |vs| + (|vs| - 2) * 2
  {
    SegmentsPrefixBound(vs, |vs| - 1);
    VertexSegmentsCount(vs, |vs| - 1);
  }

  /** Two adjacent segments that are not separators belong to the same vertex
      or to consecutive vertices. */
  predicate Joined(segs: seq<Segment>)
  {
    forall k, l :: 0 <= k < |segs| && 0 <= l < |segs| && l == k + 1 && segs[k].Edge? && segs[l].Edge? ==>
      segs[l].vertex == segs[k].vertex || segs[l].vertex == segs[k].vertex + 1
  }

  /** The last of `segs`, unless it is a separator, belongs to vertex
      `n - 1`. */
  predicate EndsBefore(segs: seq<Segment>, n: nat)
  {
    |segs| > 0 && segs[|segs| - 1].Edge? ==> segs[|segs| - 1].vertex + 1 == n
  }

  /** The segments of the first `n` vertices are joined, and the last of them,
      unless it is a separator, belongs to vertex `n - 1`. */
  lemma {:induction false} SegmentsJoined(vs: seq<FormattedVertex>, n: nat)
    requires n <= |vs|
    ensures Joined(Segments(vs, n)) && EndsBefore(Segments(vs, n), n)
    decreases n, 1
  {
    if n > 0 {
      SegmentsJoinedStep(vs, n - 1);
    }
  }

  /** The step of `SegmentsJoined` from `i` vertices to `i + 1`. */
  lemma {:induction false} SegmentsJoinedStep(vs: seq<FormattedVertex>, i: nat)
    requires i < |vs|
    ensures Joined(Segments(vs, i + 1)) && EndsBefore(Segments(vs, i + 1), i + 1)
    decreases i + 1, 0
  {
    SegmentsJoined(vs, i);
    var prev, v := Segments(vs, i), VertexSegments(vs, i);
    if v == [] {
      IsolatedVertex(vs, i);
    } else {
      assert Segments(vs, i + 1) == prev + v;
      JoinedAppend(prev, v, i);
    }
  }

  /** A vertex that pushes no segment follows a separator, if anything. */
  lemma {:induction false} IsolatedVertex(vs: seq<FormattedVertex>, i: nat)
    requires i < |vs| && VertexSegments(vs, i) == []
    ensures Segments(vs, i + 1) == Segments(vs, i)
    ensures EndsBefore(Segments(vs, i), i + 1)
  {
    if i > 0 {
      assert Segments(vs, i) == Segments(vs, i - 1) + [Separator];
    }
  }

  lemma {:induction false} JoinedAppend(prev: seq<Segment>, v: seq<Segment>, i: nat)
    requires Joined(prev) && EndsBefore(prev, i) && v != []
    requires forall k :: 0 <= k < |v| && v[k].Edge? ==> v[k].vertex == i
    ensures Joined(prev + v) && EndsBefore(prev + v, i + 1)
  {
    var all := prev + v;
    forall k, l | 0 <= k && l == k + 1 && l < |all| && all[k].Edge? && all[l].Edge?
      ensures all[l].vertex == all[k].vertex || all[l].vertex == all[k].vertex + 1
    {
      if l < |prev| {
        assert all[k] == prev[k] && all[l] == prev[l];
      } else if l == |prev| {
        assert all[k] == prev[|prev| - 1] && all[l] == v[0];
      } else {
        assert all[k] == v[k - |prev|] && all[l] == v[l - |prev|];
      }
    }
    assert all[|all| - 1] == v[|v| - 1];
  }

  /** Every quad over `segs` joins two opaque vertices of `vs` that are the
      same or consecutive. */
  predicate QuadsJoined(vs: seq<FormattedVertex>, segs: seq<Segment>)
    requires |segs| >= 1
  {
    var starts := QuadStarts(segs, |segs| - 1);
    forall t :: 0 <= t < |starts| ==>
      var a, b := segs[starts[t]], segs[starts[t] + 1];
      a.vertex < |vs| && b.vertex < |vs| &&
      (b.vertex == a.vertex || b.vertex == a.vertex + 1) &&
      !Transparent(vs[a.vertex]) && !Transparent(vs[b.vertex])
  }

  /** Every quad of a line joins two opaque vertices that are the same or
      consecutive in the input. */
  lemma {:induction false} LineQuadsJoin(vs: seq<FormattedVertex>)
    requires 2 <= |vs|
    ensures |Segments(vs, |vs|)| >= 1 && QuadsJoined(vs, Segments(vs, |vs|))
  {
    SegmentsNonEmpty(vs, |vs|);
    SegmentsJoined(vs, |vs|);
    QuadsJoin(vs, Segments(vs, |vs|));
  }

  lemma {:induction false} QuadsJoin(vs: seq<FormattedVertex>, segs: seq<Segment>)
    requires |segs| >= 1 && Joined(segs)
    requires forall k :: 0 <= k < |segs| && segs[k].Edge? ==> segs[k].vertex < |vs| && !Transparent(vs[segs[k].vertex])
    ensures QuadsJoined(vs, segs)
  {
  }

  /** Every pair of adjacent segments neither of which is a separator gets a
      quad. */
  lemma {:induction false} QuadStartsComplete(segs: seq<Segment>, k: nat)
    requires k < |segs|
    ensures forall i :: 0 <= i < k && segs[i].Edge? && segs[i + 1].Edge? ==> i in QuadStarts(segs, k)
  {
    if k > 0 {
      QuadStartsComplete(segs, k - 1);
      assert QuadStarts(segs, k - 1) <= QuadStarts(segs, k);
    }
  }

  /** Quads are emitted in segment order. */
  lemma {:induction false} QuadStartsIncreasing(segs: seq<Segment>, k: nat)
    requires k < |segs|
    ensures forall t, u :: 0 <= t < u < |QuadStarts(segs, k)| ==> QuadStarts(segs, k)[t] < QuadStarts(segs, k)[u]
  {
    if k > 0 {
      QuadStartsIncreasing(segs, k - 1);
      var r := QuadStarts(segs, k - 1);
      if segs[k - 1].Edge? && segs[k].Edge? {
        var r2 := r + [k - 1];
        assert QuadStarts(segs, k) == r2;
        forall t, u | 0 <= t < u < |r2| ensures r2[t] < r2[u] {
          if u < |r| {
            assert r2[t] == r[t] && r2[u] == r[u];
          } else {
            assert r2[t] == r[t] < k - 1;
          }
        }
      } else {
        assert QuadStarts(segs, k) == r;
      }
    }
  }

  /** Quad `t` occupies vertices 6t to 6t + 5 of the line mesh. */
  lemma {:induction false} LineVerticesAt(segs: seq<Segment>, starts: seq<nat>, t: nat)
    requires forall u :: 0 <= u < |starts| ==> starts[u] + 1 < |segs|
    requires t < |starts|
    ensures LineVertices(segs, starts)[6 * t..6 * t + 6] == QuadVertices(segs[starts[t]], segs[starts[t] + 1])
  {
    var init := starts[..|starts| - 1];
    if t < |init| {
      LineVerticesAt(segs, init, t);
      assert LineVertices(segs, starts)[6 * t..6 * t + 6] == LineVertices(segs, init)[6 * t..6 * t + 6];
    }
  }

  /** A transparent vertex breaks a line: no quad touches it, and none joins
      a vertex before it to one after it. */
  lemma {:induction false} TransparentBreaks(vs: seq<FormattedVertex>, b: nat)
    requires 2 <= |vs| && b < |vs| && Transparent(vs[b])
    ensures var segs := Segments(vs, |vs|);
      |segs| >= 1 &&
      var starts := QuadStarts(segs, |segs| - 1);
      forall t :: 0 <= t < |starts| ==>
        var v1, v2 := segs[starts[t]].vertex, segs[starts[t] + 1].vertex;
        v1 != b && v2 != b && !(v1 < b < v2)
  {
    LineQuadsJoin(vs);
  }

  // ---------------------------------------------------------------------
  // Squares.

  /** The seven vertices `add_formatted_square` appends: the outline from
      `center - axis_2` round the four corners and back, then a transparent
      break, whose width is left at its default of zero. */
  function SquareOutline(center: Vec3, axis1: Vec3, axis2: Vec3, color: Color, width: real): (r: seq<FormattedVertex>)
    ensures |r| == 7
  {
    [FormattedVertex(center.Minus(axis2), color, width),
     FormattedVertex(center.Plus(axis1).Minus(axis2), color, width),
     FormattedVertex(center.Plus(axis1).Plus(axis2), color, width),
     FormattedVertex(center.Minus(axis1).Plus(axis2), color, width),
     FormattedVertex(center.Minus(axis1).Minus(axis2), color, width),
     FormattedVertex(center.Minus(axis2), color, width),
     FormattedVertex(center.Minus(axis2), CLEAR, 0.0)]
  }

  /** `add_formatted_square`: appends the outline to the caller's list. */
  method AddFormattedSquare(vs: seq<FormattedVertex>, center: Vec3, axis1: Vec3, axis2: Vec3, color: Color, width: real)
    returns (r: seq<FormattedVertex>)
    ensures r == vs + SquareOutline(center, axis1, axis2, color, width)
  {
    r := vs;
    r := r + [FormattedVertex(center.Minus(axis2), color, width)];
    r := r + [FormattedVertex(center.Plus(axis1).Minus(axis2), color, width)];
    r := r + [FormattedVertex(center.Plus(axis1).Plus(axis2), color, width)];
    r := r + [FormattedVertex(center.Minus(axis1).Plus(axis2), color, width)];
    r := r + [FormattedVertex(center.Minus(axis1).Minus(axis2), color, width)];
    r := r + [FormattedVertex(center.Minus(axis2), color, width)];
    r := r + [FormattedVertex(center.Minus(axis2), CLEAR, 0.0)];
  }

  /** A square drawn as part of a line list is a closed outline (its first
      and sixth vertices coincide) and stands alone: whatever comes before or
      after it in the list, no quad of the line joins a vertex of the square
      to a vertex after it. */
  lemma {:induction false} SquareSeparates(before: seq<FormattedVertex>, after: seq<FormattedVertex>, center: Vec3, axis1: Vec3, axis2: Vec3, color: Color, width: real)
    ensures var sq := SquareOutline(center, axis1, axis2, color, width);
      sq[0].position == sq[5].position && sq[0].color == sq[5].color
    ensures var vs := before + SquareOutline(center, axis1, axis2, color, width) + after;
      var segs := Segments(vs, |vs|);
      |segs| >= 1 &&
      var starts := QuadStarts(segs, |segs| - 1);
      forall t :: 0 <= t < |starts| ==>
        var v1, v2 := segs[starts[t]].vertex, segs[starts[t] + 1].vertex;
        !(v1 < |before| + 6 < v2) && v1 != |before| + 6 && v2 != |before| + 6
  {
    var vs := before + SquareOutline(center, axis1, axis2, color, width) + after;
    assert vs[|before| + 6] == FormattedVertex(center.Minus(axis2), CLEAR, 0.0);
    TransparentBreaks(vs, |before| + 6);
  }
}
