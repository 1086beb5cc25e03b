/**
 * `MeshCube`: the procedural cube the custom server draws. Six surfaces of four
 * vertices each, every vertex carrying its surface's normal, two triangles per
 * surface, and the edge list found by pairing every two vertices one cube
 * length apart.
 */
module CubeMesh {
  import opened Geometry

  /** A line by two vertex indices. */
  datatype Index2d = Index2d(a: int, b: int) {

    /** `Equals`: two lines are the same when their index sums are. */
    predicate Equals(other: Index2d)
    {
      a + b == other.a + other.b
    }
  }

  /** A triangle by three vertex indices. */
  datatype Index3d = Index3d(a: int, b: int, c: int)

  // ---------------------------------------------------------------- Index2d.Equals

  /** `Equals` is an equivalence on lines; it identifies a line with its reverse. */
  lemma EqualsIsEquivalence(p: Index2d, q: Index2d, r: Index2d)
    ensures p.Equals(p)
    ensures p.Equals(q) ==> q.Equals(p)
    ensures p.Equals(q) && q.Equals(r) ==> p.Equals(r)
    ensures p.Equals(Index2d(p.b, p.a))
  {
  }

  /** `Equals` also identifies lines that share no vertex, such as (0, 3) and (1, 2). */
  lemma EqualsConflates()
    ensures Index2d(0, 3).Equals(Index2d(1, 2))
    ensures Index2d(0, 3) != Index2d(1, 2) && Index2d(0, 3) != Index2d(2, 1)
  {
  }

  // ---------------------------------------------------------------- tables

  /**
   * A point with integer coordinates. The cube length is always a whole number
   * (the server draws it from `Random.Next`), so every coordinate of the tables
   * is one, and the host's double arithmetic on them is exact.
   */
  datatype Point = Point(x: int, y: int, z: int)

  /** The host point a table point stands for. */
  function ToXYZ(p: Point): XYZ
  {
    XYZ(p.x as real, p.y as real, p.z as real)
  }

  /** `Vertices`: the corners of each of the six surfaces, four by four. */
  function CubeVertices(a: int): seq<Point>
  {
    [ // surface 1: y = 0
      Point(0, 0, 0), Point(a, 0, 0), Point(0, 0, a), Point(a, 0, a),
      // surface 2: x = 0
      Point(0, 0, 0), Point(0, a, 0), Point(0, 0, a), Point(0, a, a),
      // surface 3: x = a
      Point(a, 0, 0), Point(a, a, 0), Point(a, 0, a), Point(a, a, a),
      // surface 4: y = a
      Point(0, a, 0), Point(a, a, 0), Point(0, a, a), Point(a, a, a),
      // surface 5: z = 0
      Point(0, 0, 0), Point(a, 0, 0), Point(0, a, 0), Point(a, a, 0),
      // surface 6: z = a
      Point(0, 0, a), Point(0, a, a), Point(a, 0, a), Point(a, a, a) ]
  }

  /** `Normals`: one normal per vertex, the same for the four vertices of a surface. */
  function CubeNormals(): seq<Point>
  {
    [ Point(0, -1, 0), Point(0, -1, 0), Point(0, -1, 0), Point(0, -1, 0),
      Point(-1, 0, 0), Point(-1, 0, 0), Point(-1, 0, 0), Point(-1, 0, 0),
      Point(0, 1, 0), Point(0, 1, 0), Point(0, 1, 0), Point(0, 1, 0),
      Point(0, 1, 0), Point(0, 1, 0), Point(0, 1, 0), Point(0, 1, 0),
      Point(0, 0, -1), Point(0, 0, -1), Point(0, 0, -1), Point(0, 0, -1),
      Point(0, 0, 1), Point(0, 0, 1), Point(0, 0, 1), Point(0, 0, 1) ]
  }

  /** `Triangles`: two per surface, both through the surface's second and third vertex. */
  function CubeTriangles(): seq<Index3d>
  {
    [ Index3d(0, 1, 2), Index3d(3, 1, 2),
      Index3d(4, 5, 6), Index3d(7, 5, 6),
      Index3d(8, 9, 10), Index3d(11, 9, 10),
      Index3d(12, 13, 14), Index3d(15, 13, 14),
      Index3d(16, 17, 18), Index3d(19, 17, 18),
      Index3d(20, 21, 22), Index3d(23, 21, 22) ]
  }

  /** The tables have 24 vertices, 24 normals and 12 triangles, and every triangle index names a vertex. */
  lemma TablesShape(a: int)
    ensures |CubeVertices(a)| == 24 && |CubeNormals()| == 24 && |CubeTriangles()| == 12
    ensures forall t :: 0 <= t < 12 ==>
      var tri := CubeTriangles()[t];
      0 <= tri.a < 24 && 0 <= tri.b < 24 && 0 <= tri.c < 24
  {
  }

  /** Triangles 2k and 2k+1 use only the vertices 4k .. 4k+3 of surface k, and together use all four. */
  lemma TrianglesPerSurface()
    ensures forall t :: 0 <= t < 12 ==>
      var tri, k := CubeTriangles()[t], t / 2;
      4 * k <= tri.a < 4 * k + 4 && 4 * k <= tri.b < 4 * k + 4 && 4 * k <= tri.c < 4 * k + 4
    ensures forall k :: 0 <= k < 6 ==>
      var t0, t1 := CubeTriangles()[2 * k], CubeTriangles()[2 * k + 1];
      {t0.a, t0.b, t0.c, t1.a, t1.b, t1.c} == {4 * k, 4 * k + 1, 4 * k + 2, 4 * k + 3}
  {
  }

  /** The four vertices of a surface share one normal. */
  lemma NormalsPerSurface()
    ensures forall i :: 0 <= i < 24 ==> CubeNormals()[i] == CubeNormals()[4 * (i / 4)]
  {
  }

  function Sub(p: Point, q: Point): Point
  {
    Point(p.x - q.x, p.y - q.y, p.z - q.z)
  }

  function Dot(p: Point, q: Point): int
  {
    p.x * q.x + p.y * q.y + p.z * q.z
  }

  /**
   * The normal of surfaces 1, 2, 4, 5 and 6 is perpendicular to every direction
   * within the surface. Surface 3 (x = a) carries (0, 1, 0), the normal of
   * surface 4, which is not perpendicular to it.
   */
  lemma NormalsPerpendicular(a: int)
    requires a > 0
    ensures forall k, i, j :: 0 <= k < 6 && k != 2 && 4 * k <= i < 4 * k + 4 && 4 * k <= j < 4 * k + 4 ==>
      Dot(CubeNormals()[i], Sub(CubeVertices(a)[j], CubeVertices(a)[4 * k])) == 0
    ensures Dot(CubeNormals()[8], Sub(CubeVertices(a)[9], CubeVertices(a)[8])) == a
  {
    var vs, ns := CubeVertices(a), CubeNormals();
    forall k, i, j | 0 <= k < 6 && k != 2 && 4 * k <= i < 4 * k + 4 && 4 * k <= j < 4 * k + 4
      ensures Dot(ns[i], Sub(vs[j], vs[4 * k])) == 0
    {
      assert ns[i] == ns[4 * k];
      if k == 0 {
        assert vs[j].y == 0;
      } else if k == 1 {
        assert vs[j].x == 0;
      } else if k == 3 {
        assert vs[j].y == a;
      } else if k == 4 {
        assert vs[j].z == 0;
      } else {
        assert vs[j].z == a;
      }
    }
  }

  // ---------------------------------------------------------------- edges

  /** The squared distance of two points. */
  function SquaredDistance(p: Point, q: Point): int
  {
    (p.x - q.x) * (p.x - q.x) + (p.y - q.y) * (p.y - q.y) + (p.z - q.z) * (p.z - q.z)
  }

  /**
   * `vertex1.DistanceTo(vertex2) == a`: a distance is never negative, so it
   * equals a exactly when a is not negative and the squared distance is a * a.
   */
  predicate Apart(p: Point, q: Point, a: int)
  {
    a >= 0 && SquaredDistance(p, q) == a * a
  }

  /** A point whose coordinates are each 0 or a: a corner of the cube. */
  predicate IsCorner(p: Point, a: int)
  {
    (p.x == 0 || p.x == a) && (p.y == 0 || p.y == a) && (p.z == 0 || p.z == a)
  }

  /** Two points differ in exactly one coordinate. */
  predicate OneAxisApart(p: Point, q: Point)
  {
    (p.x != q.x && p.y == q.y && p.z == q.z) ||
    (p.x == q.x && p.y != q.y && p.z == q.z) ||
    (p.x == q.x && p.y == q.y && p.z != q.z)
  }

  /** The square of a step between two coordinates in {0, a}: 0 when they agree, a * a when not. */
  lemma StepSquare(u: int, v: int, a: int)
    requires a > 0 && (u == 0 || u == a) && (v == 0 || v == a)
    ensures (u - v) * (u - v) == if u == v then 0 else a * a
    ensures a * a > 0
  {
  }

  /** Two corners are one cube length apart exactly when they differ in one coordinate. */
  lemma ApartIffOneAxis(p: Point, q: Point, a: int)
    requires a > 0 && IsCorner(p, a) && IsCorner(q, a)
    ensures Apart(p, q, a) <==> OneAxisApart(p, q)
  {
    StepSquare(p.x, q.x, a);
    StepSquare(p.y, q.y, a);
    StepSquare(p.z, q.z, a);
  }

  /** Every vertex of the table is a corner of the cube. */
  lemma VerticesAreCorners(a: int)
    ensures AllCorners(CubeVertices(a), a)
  {
  }

  /**
   * The lines the nested loop has appended when it reaches the pair (i, j):
   * every earlier row, then row i against the vertices before j. A line (i, j)
   * is appended when its two points are one length apart.
   */
  function Edges(vs: seq<Point>, a: int, i: nat, j: nat): seq<Index2d>
    requires i <= |vs| && j <= |vs| && (i == |vs| ==> j == 0)
    decreases i, j
  {
    if j > 0 then Edges(vs, a, i, j - 1) + (if Apart(vs[i], vs[j - 1], a) then [Index2d(i, j - 1)] else [])
    else if i > 0 then Edges(vs, a, i - 1, |vs|)
    else []
  }

  /** All the points are corners of the cube of side a. */
  predicate AllCorners(vs: seq<Point>, a: int)
  {
    forall i :: 0 <= i < |vs| ==> IsCorner(vs[i], a)
  }

  /** A line joins two points of the list one length apart, as the loop's distance test decides. */
  predicate Linked(vs: seq<Point>, a: int, e: Index2d)
  {
    0 <= e.a < |vs| && 0 <= e.b < |vs| && Apart(vs[e.a], vs[e.b], a)
  }

  /** The loop has appended a line exactly when it has passed that pair and the pair's points are one length apart. */
  lemma {:induction false} EdgesMember(vs: seq<Point>, a: int, i: nat, j: nat, e: Index2d)
    requires i <= |vs| && j <= |vs| && (i == |vs| ==> j == 0)
    ensures e in Edges(vs, a, i, j) <==> (e.a < i || (e.a == i && e.b < j)) && Linked(vs, a, e)
    decreases i, j
  {
    if j > 0 {
      EdgesMember(vs, a, i, j - 1, e);
    } else if i > 0 {
      EdgesMember(vs, a, i - 1, |vs|, e);
    }
  }

  /** The edge list of the cube: all index pairs, both ways round, of table vertices one length apart. */
  function CubeEdges(a: int): seq<Index2d>
  {
    Edges(CubeVertices(a), a, |CubeVertices(a)|, 0)
  }

  /**
   * For a positive length the edge list holds exactly the pairs of table
   * indices whose vertices differ in one coordinate; so it holds each such pair
   * both ways round.
   */
  lemma CubeEdgesMembers(a: int)
    requires a > 0
    ensures forall e :: e in CubeEdges(a) <==>
      0 <= e.a < 24 && 0 <= e.b < 24 && OneAxisApart(CubeVertices(a)[e.a], CubeVertices(a)[e.b])
    ensures forall e :: e in CubeEdges(a) ==> Index2d(e.b, e.a) in CubeEdges(a)
  {
    var vs := CubeVertices(a);
    VerticesAreCorners(a);
    forall e: Index2d
      ensures e in CubeEdges(a) <==> 0 <= e.a < 24 && 0 <= e.b < 24 && OneAxisApart(vs[e.a], vs[e.b])
    {
      EdgesMember(vs, a, 24, 0, e);
      if 0 <= e.a < 24 && 0 <= e.b < 24 {
        ApartIffOneAxis(vs[e.a], vs[e.b], a);
      }
    }
  }

  // ---------------------------------------------------------------- Distinct

  /** Some element of s is `Equals` to x. */
  predicate Covered(s: seq<Index2d>, x: Index2d)
  {
    exists y :: y in s && y.Equals(x)
  }

  /**
   * `Enumerable.Distinct` under `Index2d.Equals`: the input in order, each
   * element kept unless an element already kept equals it.
   */
  function Distinct(s: seq<Index2d>): seq<Index2d>
  {
    if |s| == 0 then []
    else
      var kept := Distinct(s[..|s| - 1]);
      if Covered(kept, s[|s| - 1]) then kept else kept + [s[|s| - 1]]
  }

  /** `Distinct` keeps at most every element, and only elements of its input. */
  lemma {:induction false} DistinctSubset(s: seq<Index2d>)
    ensures |Distinct(s)| <= |s|
    ensures forall x :: x in Distinct(s) ==> x in s
  {
    if |s| > 0 {
      DistinctSubset(s[..|s| - 1]);
    }
  }

  /** No two elements `Distinct` keeps are `Equals`. */
  lemma {:induction false} DistinctNoDuplicates(s: seq<Index2d>)
    ensures forall i, j :: 0 <= i < j < |Distinct(s)| ==> !Distinct(s)[i].Equals(Distinct(s)[j])
  {
    if |s| > 0 {
      var kept, last := Distinct(s[..|s| - 1]), s[|s| - 1];
      DistinctNoDuplicates(s[..|s| - 1]);
      if !Covered(kept, last) {
        forall i | 0 <= i < |kept|
          ensures !kept[i].Equals(last)
        {
          assert kept[i] in kept;
        }
      }
    }
  }

  /** Every input element is `Equals` to an element `Distinct` keeps. */
  lemma {:induction false} DistinctCovers(s: seq<Index2d>)
    ensures forall x :: x in s ==> Covered(Distinct(s), x)
  {
    if |s| > 0 {
      var init, last := s[..|s| - 1], s[|s| - 1];
      DistinctCovers(init);
      assert s == init + [last];
      var kept := Distinct(init);
      forall x | x in s
        ensures Covered(Distinct(s), x)
      {
        if x in init {
          var y :| y in kept && y.Equals(x);
          assert y in Distinct(s);
        } else if !Covered(kept, last) {
          assert last in Distinct(s);
        }
      }
    }
  }

  /** An input holding two different `Equals` elements loses at least one element to `Distinct`. */
  lemma {:induction false} DistinctShorter(s: seq<Index2d>, x: Index2d, y: Index2d)
    requires x in s && y in s && x != y && x.Equals(y)
    ensures |Distinct(s)| < |s|
  {
    var init, last := s[..|s| - 1], s[|s| - 1];
    assert s == init + [last];
    DistinctSubset(init);
    if x in init && y in init {
      DistinctShorter(init, x, y);
    } else {
      var earlier := if x in init then x else y;
      assert earlier in init && earlier.Equals(last);
      LastCovered(init, earlier, last);
    }
  }

  /** An element `Equals` to an earlier one is dropped. */
  lemma LastCovered(init: seq<Index2d>, earlier: Index2d, last: Index2d)
    requires earlier in init && earlier.Equals(last)
    ensures Distinct(init + [last]) == Distinct(init)
  {
    DistinctCovers(init);
    var z :| z in Distinct(init) && z.Equals(earlier);
    assert (init + [last])[..|init|] == init;
  }

  // ---------------------------------------------------------------- MeshCube

  /** The cube of side `a` with its tables, its edge list and its counts. */
  class MeshCube {
    var vertexBufferCount: int
    var numTriangles: int
    var edgeCount: int
    var distinctEdgeCount: int
    var vertices: seq<Point>
    var normals: seq<Point>
    var triangles: seq<Index3d>
    var edges: seq<Index2d>
    var distinctEdges: seq<Index2d>

    /**
     * The constructor: the three tables, then every vertex paired with every
     * vertex (itself included) in table order, a line appended for each pair one
     * length apart; then the distinct lines and the counts. `DistinctEdgeCount`
     * is the length of the whole edge list, not of the distinct one.
     */
    constructor (a: int)
      ensures vertices == CubeVertices(a) && normals == CubeNormals() && triangles == CubeTriangles()
      ensures edges == CubeEdges(a) && distinctEdges == Distinct(CubeEdges(a))
      ensures vertexBufferCount == 24 && numTriangles == 12
      ensures edgeCount == |CubeEdges(a)| && distinctEdgeCount == |CubeEdges(a)|
    {
      var vs := CubeVertices(a);
      var found: seq<Index2d> := [];
      var i := 0;
      while i < |vs|
        invariant 0 <= i <= |vs|
        invariant found == Edges(vs, a, i, 0)
      {
        var vertex1 := vs[i];
        var j := 0;
        while j < |vs|
          invariant 0 <= j <= |vs|
          invariant found == Edges(vs, a, i, j)
        {
          var vertex2 := vs[j];
          if Apart(vertex1, vertex2, a) {
            // `Vertices.IndexOf` compares by reference, so it finds the loop positions
            var index1, index2 := i, j;
            found := found + [Index2d(index1, index2)];
          }
          j := j + 1;
        }
        assert Edges(vs, a, i + 1, 0) == Edges(vs, a, i, |vs|);
        i := i + 1;
      }
      vertices, normals, triangles := vs, CubeNormals(), CubeTriangles();
      edges := found;
      distinctEdges := Distinct(found);
      vertexBufferCount := |vs|;
      numTriangles := |CubeTriangles()|;
      edgeCount := |found|;
      distinctEdgeCount := |found|;
    }
  }

  /**
   * For a positive length the distinct edge list is strictly shorter than the
   * edge list, so `DistinctEdgeCount` exceeds the number of distinct edges: the
   * edge list holds both (0, 1) and (1, 0).
   */
  lemma DistinctEdgesFewer(a: int)
    requires a > 0
    ensures |Distinct(CubeEdges(a))| < |CubeEdges(a)|
  {
    CubeEdgesMembers(a);
    assert OneAxisApart(CubeVertices(a)[0], CubeVertices(a)[1]);
    DistinctShorter(CubeEdges(a), Index2d(0, 1), Index2d(1, 0));
  }

  /** Every distinct edge joins two table vertices one coordinate apart. */
  lemma DistinctEdgesInRange(a: int)
    requires a > 0
    ensures forall e :: e in Distinct(CubeEdges(a)) ==>
      0 <= e.a < 24 && 0 <= e.b < 24 && OneAxisApart(CubeVertices(a)[e.a], CubeVertices(a)[e.b])
  {
    CubeEdgesMembers(a);
    DistinctSubset(CubeEdges(a));
  }

  /**
   * Two real edges of the cube that `Equals` identifies: (0, 5) runs from the
   * origin up the y axis and (1, 4) from (a, 0, 0) back to the origin. Both
   * index sums are 5, neither line is the other or its reverse, and `Distinct`
   * keeps at most one of them.
   */
  lemma DistinctMergesCubeEdges(a: int)
    requires a > 0
    ensures Index2d(0, 5) in CubeEdges(a) && Index2d(1, 4) in CubeEdges(a)
    ensures Index2d(0, 5).Equals(Index2d(1, 4)) && Index2d(0, 5) != Index2d(1, 4) && Index2d(0, 5) != Index2d(4, 1)
    ensures !(Index2d(0, 5) in Distinct(CubeEdges(a)) && Index2d(1, 4) in Distinct(CubeEdges(a)))
  {
    CubeEdgesMembers(a);
    assert OneAxisApart(CubeVertices(a)[0], CubeVertices(a)[5]);
    assert OneAxisApart(CubeVertices(a)[1], CubeVertices(a)[4]);
    DistinctNoDuplicates(CubeEdges(a));
  }

  /** The index sums of a list of lines. */
  ghost function Sums(s: seq<Index2d>): set<int>
  {
    set e | e in s :: e.a + e.b
  }

  /** The lines `Distinct` keeps have pairwise different index sums, one sum per kept line. */
  lemma {:induction false} DistinctSums(s: seq<Index2d>)
    ensures |Sums(Distinct(s))| == |Distinct(s)|
  {
    if |s| > 0 {
      var init, last := s[..|s| - 1], s[|s| - 1];
      var kept := Distinct(init);
      DistinctSums(init);
      if !Covered(kept, last) {
        assert Sums(kept + [last]) == Sums(kept) + {last.a + last.b};
        forall y | y in kept
          ensures y.a + y.b != last.a + last.b
        {
          assert !y.Equals(last);
        }
      }
    }
  }

  /** The integers 0 .. n - 1. */
  ghost function Below(n: nat): set<int>
  {
    if n == 0 then {} else Below(n - 1) + {n - 1}
  }

  /** `Below(n)` holds exactly the integers 0 .. n - 1, n of them. */
  lemma {:induction false} BelowSize(n: nat)
    ensures forall k :: k in Below(n) <==> 0 <= k < n
    ensures |Below(n)| == n
  {
    if n > 0 {
      BelowSize(n - 1);
    }
  }

  /**
   * Pigeonhole: the index sums of cube lines lie in 0 .. 46, so `Distinct`
   * keeps at most 47 of the cube's lines, whatever the length.
   */
  lemma DistinctEdgesAtMost47(a: int)
    requires a > 0
    ensures |Distinct(CubeEdges(a))| <= 47
  {
    var kept := Distinct(CubeEdges(a));
    var range := Below(47);
    DistinctEdgesInRange(a);
    DistinctSums(CubeEdges(a));
    BelowSize(47);
    assert Sums(kept) <= range;
    assert range == Sums(kept) + (range - Sums(kept));
  }
}
