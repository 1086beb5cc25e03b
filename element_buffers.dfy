/**
 * What `ProcessFaces` and `ProcessEdges` of the element drawing server write:
 * the vertex and index streams of one storage, as functions of its accumulated
 * meshes or polylines, and the properties of those streams that make each
 * buffer pair drawable.
 */
module ElementBuffers {
  import opened Geometry
  import opened Graphics
  import opened RenderingPassStorage

  // ---------------------------------------------------------------- faces

  /** Vertices of all meshes; what the face loop adds to `VertexBufferCount`. */
  function TotalVertices(meshes: seq<MeshInfo>): nat
  {
    if |meshes| == 0 then 0
    else TotalVertices(meshes[..|meshes| - 1]) + |meshes[|meshes| - 1].mesh.vertices|
  }

  /** Triangles of all meshes; what the face loop adds to `PrimitiveCount`. */
  function TotalTriangles(meshes: seq<MeshInfo>): nat
  {
    if |meshes| == 0 then 0
    else TotalTriangles(meshes[..|meshes| - 1]) + |meshes[|meshes| - 1].mesh.triangles|
  }

  /**
   * The table `numVerticesInMeshesBefore`: one entry per mesh plus one, entry i
   * being the number of vertices written for the meshes before mesh i.
   */
  function VerticesBefore(meshes: seq<MeshInfo>): (table: seq<int>)
    ensures |table| == |meshes| + 1
    ensures forall i :: 0 <= i <= |meshes| ==> table[i] == TotalVertices(meshes[..i])
  {
    if |meshes| == 0 then [0]
    else
      var init := meshes[..|meshes| - 1];
      var table := VerticesBefore(init);
      assert forall i :: 0 <= i <= |init| ==> init[..i] == meshes[..i];
      assert meshes[..|meshes|] == meshes;
      table + [table[|init|] + |meshes[|meshes| - 1].mesh.vertices|]
  }

  /** Face buffers carry normals exactly in the two shaded styles. */
  predicate UsesNormals(style: DisplayStyle)
  {
    style == Shading || style == ShadingWithEdges
  }

  function FaceFormat(style: DisplayStyle): VertexFormatBits
  {
    if UsesNormals(style) then PositionNormalColored else PositionColored
  }

  /** The colour written for a face: white in hidden-line style, keeping the face's transparency. */
  function FaceColor(color: ColorWithTransparency, style: DisplayStyle): ColorWithTransparency
  {
    if style == HLR then ColorWithTransparency(255, 255, 255, color.transparency) else color
  }

  /** The record written for vertex k of a mesh, shifted by the server's offset. */
  function FaceVertex(mi: MeshInfo, style: DisplayStyle, offset: XYZ, k: nat): Vertex
    requires k < |mi.mesh.vertices|
  {
    var position := Add(mi.mesh.vertices[k], offset);
    if UsesNormals(style) then VertexPositionNormalColored(position, mi.normal, mi.color)
    else VertexPositionColored(position, FaceColor(mi.color, style))
  }

  function MeshVertices(mi: MeshInfo, style: DisplayStyle, offset: XYZ): seq<Vertex>
  {
    seq(|mi.mesh.vertices|, k requires 0 <= k < |mi.mesh.vertices| => FaceVertex(mi, style, offset, k))
  }

  /** The face vertex stream: every mesh's vertices, mesh after mesh. */
  function FaceVertices(meshes: seq<MeshInfo>, style: DisplayStyle, offset: XYZ): seq<Vertex>
  {
    if |meshes| == 0 then []
    else FaceVertices(meshes[..|meshes| - 1], style, offset) + MeshVertices(meshes[|meshes| - 1], style, offset)
  }

  /** One mesh's triangles with its local indices shifted by `start`. */
  function MeshIndices(mesh: Mesh, start: int): seq<IndexPrimitive>
  {
    seq(|mesh.triangles|, t requires 0 <= t < |mesh.triangles| =>
      IndexTriangle(start + mesh.triangles[t].i0, start + mesh.triangles[t].i1, start + mesh.triangles[t].i2))
  }

  /** The face index stream: each mesh's triangles, shifted by the vertices written before it. */
  function FaceIndices(meshes: seq<MeshInfo>): seq<IndexPrimitive>
  {
    if |meshes| == 0 then []
    else
      var init := meshes[..|meshes| - 1];
      FaceIndices(init) + MeshIndices(meshes[|meshes| - 1].mesh, TotalVertices(init))
  }

  /** The face index stream of one more mesh. */
  lemma FaceIndicesSnoc(meshes: seq<MeshInfo>, m: nat)
    requires m < |meshes|
    ensures FaceIndices(meshes[..m + 1]) == FaceIndices(meshes[..m]) + MeshIndices(meshes[m].mesh, TotalVertices(meshes[..m]))
  {
    assert meshes[..m + 1][..m] == meshes[..m];
  }

  /** The face vertex stream and its prefix table for one more mesh. */
  lemma FaceVerticesSnoc(meshes: seq<MeshInfo>, style: DisplayStyle, offset: XYZ, m: nat)
    requires m < |meshes|
    ensures FaceVertices(meshes[..m + 1], style, offset) == FaceVertices(meshes[..m], style, offset) + MeshVertices(meshes[m], style, offset)
    ensures VerticesBefore(meshes[..m + 1]) == VerticesBefore(meshes[..m]) + [TotalVertices(meshes[..m]) + |meshes[m].mesh.vertices|]
  {
    assert meshes[..m + 1][..m] == meshes[..m];
  }

  /** The prefix table for one more mesh gains one entry: its own count added to the last one. */
  lemma VerticesBeforeSnoc(meshes: seq<MeshInfo>, m: nat)
    requires m < |meshes|
    ensures VerticesBefore(meshes[..m + 1]) == VerticesBefore(meshes[..m]) + [VerticesBefore(meshes[..m])[m] + |meshes[m].mesh.vertices|]
  {
    assert meshes[..m + 1][..m] == meshes[..m];
  }

  predicate AllWellFormed(meshes: seq<MeshInfo>)
  {
    forall m :: 0 <= m < |meshes| ==> meshes[m].mesh.WellFormed()
  }

  lemma {:induction false} TotalVerticesAppend(a: seq<MeshInfo>, b: seq<MeshInfo>)
    ensures TotalVertices(a + b) == TotalVertices(a) + TotalVertices(b)
    ensures TotalTriangles(a + b) == TotalTriangles(a) + TotalTriangles(b)
    decreases |b|
  {
    if |b| == 0 {
      assert a + b == a;
    } else {
      var b' := b[..|b| - 1];
      assert (a + b)[..|a + b| - 1] == a + b';
      TotalVerticesAppend(a, b');
    }
  }

  lemma {:induction false} FaceVerticesLength(meshes: seq<MeshInfo>, style: DisplayStyle, offset: XYZ)
    ensures |FaceVertices(meshes, style, offset)| == TotalVertices(meshes)
  {
    if |meshes| > 0 {
      FaceVerticesLength(meshes[..|meshes| - 1], style, offset);
    }
  }

  /** Vertex k of mesh m sits right after the vertices of the meshes before m. */
  lemma {:induction false} FaceVertexAt(meshes: seq<MeshInfo>, style: DisplayStyle, offset: XYZ, m: nat, k: nat)
    requires m < |meshes| && k < |meshes[m].mesh.vertices|
    ensures TotalVertices(meshes[..m]) + k < |FaceVertices(meshes, style, offset)|
    ensures FaceVertices(meshes, style, offset)[TotalVertices(meshes[..m]) + k] == FaceVertex(meshes[m], style, offset, k)
  {
    var init := meshes[..|meshes| - 1];
    var last := MeshVertices(meshes[|meshes| - 1], style, offset);
    assert FaceVertices(meshes, style, offset) == FaceVertices(init, style, offset) + last;
    FaceVerticesLength(init, style, offset);
    if m < |init| {
      assert init[..m] == meshes[..m];
      assert init[m] == meshes[m];
      FaceVertexAt(init, style, offset, m, k);
    } else {
      assert meshes[..m] == init;
      assert last[k] == FaceVertex(meshes[m], style, offset, k);
    }
  }

  /** Every face vertex is laid out by the storage's format bits. */
  lemma {:induction false} FaceVerticesLayout(meshes: seq<MeshInfo>, style: DisplayStyle, offset: XYZ)
    ensures forall v :: v in FaceVertices(meshes, style, offset) ==> LayoutOf(v) == FaceFormat(style)
  {
    if |meshes| > 0 {
      FaceVerticesLayout(meshes[..|meshes| - 1], style, offset);
    }
  }

  /** In hidden-line style every face vertex is white and keeps its own face's transparency. */
  lemma HlrFaceVertices(meshes: seq<MeshInfo>, offset: XYZ, m: nat, k: nat)
    requires m < |meshes| && k < |meshes[m].mesh.vertices|
    ensures TotalVertices(meshes[..m]) + k < |FaceVertices(meshes, HLR, offset)|
    ensures FaceVertices(meshes, HLR, offset)[TotalVertices(meshes[..m]) + k] ==
      VertexPositionColored(Add(meshes[m].mesh.vertices[k], offset),
                            ColorWithTransparency(255, 255, 255, meshes[m].color.transparency))
  {
    FaceVertexAt(meshes, HLR, offset, m, k);
  }

  lemma {:induction false} FaceIndicesLength(meshes: seq<MeshInfo>)
    ensures |FaceIndices(meshes)| == TotalTriangles(meshes)
  {
    if |meshes| > 0 {
      FaceIndicesLength(meshes[..|meshes| - 1]);
    }
  }

  /**
   * Triangle t of mesh m is written after the triangles of the meshes before m,
   * as its local indices plus `numVerticesInMeshesBefore[m]`.
   */
  lemma {:induction false} FaceIndexAt(meshes: seq<MeshInfo>, m: nat, t: nat)
    requires m < |meshes| && t < |meshes[m].mesh.triangles|
    ensures TotalTriangles(meshes[..m]) + t < |FaceIndices(meshes)|
    ensures
      var start := VerticesBefore(meshes)[m];
      var tri := meshes[m].mesh.triangles[t];
      FaceIndices(meshes)[TotalTriangles(meshes[..m]) + t] ==
        IndexTriangle(start + tri.i0, start + tri.i1, start + tri.i2)
  {
    var init := meshes[..|meshes| - 1];
    FaceIndicesLength(init);
    if m < |init| {
      assert init[..m] == meshes[..m];
      assert init[m] == meshes[m];
      FaceIndexAt(init, m, t);
    } else {
      assert meshes[..m] == init;
    }
  }

  /** With well-formed meshes, every face index names a vertex of the buffer. */
  lemma {:induction false} FaceIndicesInRange(meshes: seq<MeshInfo>)
    requires AllWellFormed(meshes)
    ensures forall p :: p in FaceIndices(meshes) ==>
      p.IndexTriangle? &&
      0 <= p.i0 < TotalVertices(meshes) && 0 <= p.i1 < TotalVertices(meshes) && 0 <= p.i2 < TotalVertices(meshes)
  {
    if |meshes| > 0 {
      var init := meshes[..|meshes| - 1];
      FaceIndicesInRange(init);
      var mesh := meshes[|meshes| - 1].mesh;
      assert mesh.WellFormed();
      forall p | p in MeshIndices(mesh, TotalVertices(init))
        ensures p.IndexTriangle? &&
          0 <= p.i0 < TotalVertices(meshes) && 0 <= p.i1 < TotalVertices(meshes) && 0 <= p.i2 < TotalVertices(meshes)
      {
        var t :| 0 <= t < |mesh.triangles| && MeshIndices(mesh, TotalVertices(init))[t] == p;
        assert mesh.triangles[t].i0 < |mesh.vertices|;
      }
    }
  }

  // ---------------------------------------------------------------- edges

  /** Points of all polylines; what the edge loop adds to `VertexBufferCount`. */
  function TotalPoints(polylines: seq<seq<XYZ>>): nat
  {
    if |polylines| == 0 then 0
    else TotalPoints(polylines[..|polylines| - 1]) + |polylines[|polylines| - 1]|
  }

  /** The sum of `xyzs.Count - 1`; what the edge loop adds to `PrimitiveCount`. */
  function TotalSegments(polylines: seq<seq<XYZ>>): int
  {
    if |polylines| == 0 then 0
    else TotalSegments(polylines[..|polylines| - 1]) + (|polylines[|polylines| - 1]| - 1)
  }

  /** Lines one polyline yields: one between each two consecutive points. */
  function LineCount(polyline: seq<XYZ>): nat
  {
    if |polyline| == 0 then 0 else |polyline| - 1
  }

  function TotalLines(polylines: seq<seq<XYZ>>): nat
  {
    if |polylines| == 0 then 0
    else TotalLines(polylines[..|polylines| - 1]) + LineCount(polylines[|polylines| - 1])
  }

  /** The table `numVerticesInEdgesBefore`. */
  function PointsBefore(polylines: seq<seq<XYZ>>): (table: seq<int>)
    ensures |table| == |polylines| + 1
    ensures forall i :: 0 <= i <= |polylines| ==> table[i] == TotalPoints(polylines[..i])
  {
    if |polylines| == 0 then [0]
    else
      var init := polylines[..|polylines| - 1];
      var table := PointsBefore(init);
      assert forall i :: 0 <= i <= |init| ==> init[..i] == polylines[..i];
      assert polylines[..|polylines|] == polylines;
      table + [table[|init|] + |polylines[|polylines| - 1]|]
  }

  function PolylineVertices(polyline: seq<XYZ>, offset: XYZ): seq<Vertex>
  {
    seq(|polyline|, k requires 0 <= k < |polyline| => VertexPosition(Add(polyline[k], offset)))
  }

  /** The edge vertex stream: every polyline's points, shifted by the offset. */
  function EdgeVertices(polylines: seq<seq<XYZ>>, offset: XYZ): seq<Vertex>
  {
    if |polylines| == 0 then []
    else EdgeVertices(polylines[..|polylines| - 1], offset) + PolylineVertices(polylines[|polylines| - 1], offset)
  }

  /** The lines of one polyline whose first point is vertex `start`. */
  function PolylineLines(polyline: seq<XYZ>, start: int): seq<IndexPrimitive>
  {
    seq(LineCount(polyline), j requires 0 <= j < LineCount(polyline) => IndexLine(start + j, start + j + 1))
  }

  /** The edge index stream. */
  function EdgeIndices(polylines: seq<seq<XYZ>>): seq<IndexPrimitive>
  {
    if |polylines| == 0 then []
    else
      var init := polylines[..|polylines| - 1];
      EdgeIndices(init) + PolylineLines(polylines[|polylines| - 1], TotalPoints(init))
  }

  /** The edge index stream of one more polyline. */
  lemma EdgeIndicesSnoc(polylines: seq<seq<XYZ>>, e: nat)
    requires e < |polylines|
    ensures EdgeIndices(polylines[..e + 1]) == EdgeIndices(polylines[..e]) + PolylineLines(polylines[e], TotalPoints(polylines[..e]))
  {
    assert polylines[..e + 1][..e] == polylines[..e];
  }

  /** The edge vertex stream and its prefix table for one more polyline. */
  lemma EdgeVerticesSnoc(polylines: seq<seq<XYZ>>, offset: XYZ, e: nat)
    requires e < |polylines|
    ensures EdgeVertices(polylines[..e + 1], offset) == EdgeVertices(polylines[..e], offset) + PolylineVertices(polylines[e], offset)
    ensures PointsBefore(polylines[..e + 1]) == PointsBefore(polylines[..e]) + [TotalPoints(polylines[..e]) + |polylines[e]|]
  {
    assert polylines[..e + 1][..e] == polylines[..e];
  }

  lemma {:induction false} EdgeTotalsAppend(a: seq<seq<XYZ>>, b: seq<seq<XYZ>>)
    ensures TotalPoints(a + b) == TotalPoints(a) + TotalPoints(b)
    ensures TotalSegments(a + b) == TotalSegments(a) + TotalSegments(b)
    decreases |b|
  {
    if |b| == 0 {
      assert a + b == a;
    } else {
      var b' := b[..|b| - 1];
      assert (a + b)[..|a + b| - 1] == a + b';
      EdgeTotalsAppend(a, b');
    }
  }

  lemma {:induction false} EdgeVerticesLength(polylines: seq<seq<XYZ>>, offset: XYZ)
    ensures |EdgeVertices(polylines, offset)| == TotalPoints(polylines)
    ensures forall v :: v in EdgeVertices(polylines, offset) ==> LayoutOf(v) == Position
  {
    if |polylines| > 0 {
      EdgeVerticesLength(polylines[..|polylines| - 1], offset);
    }
  }

  /**
   * One line per pair of consecutive points; this equals the primitive count
   * the edge loop accumulates whenever no polyline is empty.
   */
  lemma {:induction false} EdgeIndicesLength(polylines: seq<seq<XYZ>>)
    ensures |EdgeIndices(polylines)| == TotalLines(polylines)
    ensures (forall e :: 0 <= e < |polylines| ==> |polylines[e]| > 0) ==>
      TotalLines(polylines) == TotalSegments(polylines)
  {
    if |polylines| > 0 {
      EdgeIndicesLength(polylines[..|polylines| - 1]);
    }
  }

  /** Line j of polyline e joins its points j and j+1, numbered after the points of the polylines before e. */
  lemma {:induction false} EdgeIndexAt(polylines: seq<seq<XYZ>>, e: nat, j: nat)
    requires e < |polylines| && j + 1 < |polylines[e]|
    ensures TotalLines(polylines[..e]) + j < |EdgeIndices(polylines)|
    ensures
      var start := PointsBefore(polylines)[e];
      EdgeIndices(polylines)[TotalLines(polylines[..e]) + j] == IndexLine(start + j, start + j + 1)
  {
    var init := polylines[..|polylines| - 1];
    EdgeIndicesLength(init);
    if e < |init| {
      assert init[..e] == polylines[..e];
      assert init[e] == polylines[e];
      EdgeIndexAt(init, e, j);
    } else {
      assert polylines[..e] == init;
    }
  }

  /** Every edge index names a point of the buffer, and each line joins two consecutive points. */
  lemma {:induction false} EdgeIndicesInRange(polylines: seq<seq<XYZ>>)
    ensures forall p :: p in EdgeIndices(polylines) ==>
      p.IndexLine? && 0 <= p.l0 && p.l1 == p.l0 + 1 && p.l1 < TotalPoints(polylines)
  {
    if |polylines| > 0 {
      var init := polylines[..|polylines| - 1];
      EdgeIndicesInRange(init);
      var last := polylines[|polylines| - 1];
      forall p | p in PolylineLines(last, TotalPoints(init))
        ensures p.IndexLine? && 0 <= p.l0 && p.l1 == p.l0 + 1 && p.l1 < TotalPoints(polylines)
      {
        var j :| 0 <= j < LineCount(last) && PolylineLines(last, TotalPoints(init))[j] == p;
      }
    }
  }
}
