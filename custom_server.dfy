/**
 * `CustomServer`: the server that draws a cube of random integer length at the
 * origin. It rebuilds a face storage and an edge storage from a `MeshCube` and
 * submits them; its bounding box is a static shared by every instance.
 */
module CubeServer {
  import opened Wrappers
  import opened Geometry
  import opened Graphics
  import opened CustomStorage
  import opened CubeMesh

  /** The static `boundingBox` every cube server reads and every constructor overwrites. */
  class SharedBoundingBox {
    var outline: Outline

    /** The initial value of the static field. */
    constructor ()
      ensures outline == Outline(XYZ(-50.0, 50.0, -50.0), XYZ(50.0, 50.0, 50.0))
    {
      outline := Outline(XYZ(-50.0, 50.0, -50.0), XYZ(50.0, 50.0, 50.0));
    }
  }

  /** The box from the origin to the corner at (a, a, a). */
  function CubeOutline(a: int): Outline
  {
    Outline(XYZ(0.0, 0.0, 0.0), XYZ(a as real, a as real, a as real))
  }

  /** A point lies in a box, faces included. */
  predicate Encloses(box: Outline, p: XYZ)
  {
    box.min.x <= p.x <= box.max.x && box.min.y <= p.y <= box.max.y && box.min.z <= p.z <= box.max.z
  }

  /** The box a server of length a sets encloses every vertex of its cube. */
  lemma OutlineEnclosesCube(a: int)
    requires a >= 0
    ensures forall i :: 0 <= i < |CubeVertices(a)| ==> Encloses(CubeOutline(a), ToXYZ(CubeVertices(a)[i]))
  {
    VerticesAreCorners(a);
  }

  /**
   * The box of a shorter cube misses the far corner of a longer one: once a
   * second server with a shorter cube is constructed, the shared box no longer
   * encloses the first server's cube.
   */
  lemma ShorterOutlineMissesCube(a: int, b: int)
    requires 0 <= a < b
    ensures !Encloses(CubeOutline(a), ToXYZ(CubeVertices(b)[11]))
  {
  }

  /** The colour of every face vertex. */
  const CubeColor := ColorWithTransparency(204, 153, 33, 0)

  /** The face vertex stream: each table vertex with the normal at the same position and the cube colour. */
  function FaceStream(vertices: seq<Point>, normals: seq<Point>): (stream: seq<Vertex>)
    requires |vertices| <= |normals|
    ensures |stream| == |vertices|
    ensures forall i :: 0 <= i < |stream| ==>
      stream[i] == VertexPositionNormalColored(ToXYZ(vertices[i]), ToXYZ(normals[i]), CubeColor)
  {
    if |vertices| == 0 then []
    else
      var n := |vertices| - 1;
      FaceStream(vertices[..n], normals) + [VertexPositionNormalColored(ToXYZ(vertices[n]), ToXYZ(normals[n]), CubeColor)]
  }

  /** The edge vertex stream: each table vertex as a bare position. */
  function PositionStream(vertices: seq<Point>): (stream: seq<Vertex>)
    ensures |stream| == |vertices|
    ensures forall i :: 0 <= i < |stream| ==> stream[i] == VertexPosition(ToXYZ(vertices[i]))
  {
    if |vertices| == 0 then []
    else
      var n := |vertices| - 1;
      PositionStream(vertices[..n]) + [VertexPosition(ToXYZ(vertices[n]))]
  }

  /** The face index stream: one index triangle per table triangle. */
  function TriangleStream(triangles: seq<Index3d>): (stream: seq<IndexPrimitive>)
    ensures |stream| == |triangles|
    ensures forall t :: 0 <= t < |stream| ==>
      stream[t] == IndexTriangle(triangles[t].a, triangles[t].b, triangles[t].c)
  {
    if |triangles| == 0 then []
    else
      var n := |triangles| - 1;
      TriangleStream(triangles[..n]) + [IndexTriangle(triangles[n].a, triangles[n].b, triangles[n].c)]
  }

  /** The edge index stream: one index line per line of the list. */
  function LineStream(lines: seq<Index2d>): (stream: seq<IndexPrimitive>)
    ensures |stream| == |lines|
    ensures forall k :: 0 <= k < |stream| ==> stream[k] == IndexLine(lines[k].a, lines[k].b)
  {
    if |lines| == 0 then []
    else
      var n := |lines| - 1;
      LineStream(lines[..n]) + [IndexLine(lines[n].a, lines[n].b)]
  }

  /** The `foreach` over `Vertices` that fills the face vertex buffer. */
  method WriteFaceStream(vertices: seq<Point>, normals: seq<Point>) returns (stream: seq<Vertex>)
    requires |vertices| <= |normals|
    ensures stream == FaceStream(vertices, normals)
  {
    stream := [];
    var index := 0;
    while index < |vertices|
      invariant 0 <= index <= |vertices|
      invariant stream == FaceStream(vertices[..index], normals)
    {
      var normal := normals[index];
      stream := stream + [VertexPositionNormalColored(ToXYZ(vertices[index]), ToXYZ(normal), CubeColor)];
      assert vertices[..index + 1][..index] == vertices[..index];
      index := index + 1;
    }
    assert vertices[..index] == vertices;
  }

  /** The `foreach` over `Vertices` that fills the edge vertex buffer. */
  method WritePositionStream(vertices: seq<Point>) returns (stream: seq<Vertex>)
    ensures stream == PositionStream(vertices)
  {
    stream := [];
    var i := 0;
    while i < |vertices|
      invariant 0 <= i <= |vertices|
      invariant stream == PositionStream(vertices[..i])
    {
      stream := stream + [VertexPosition(ToXYZ(vertices[i]))];
      assert vertices[..i + 1][..i] == vertices[..i];
      i := i + 1;
    }
    assert vertices[..i] == vertices;
  }

  /** The `foreach` over `Triangles` that fills the face index buffer. */
  method WriteTriangleStream(triangles: seq<Index3d>) returns (stream: seq<IndexPrimitive>)
    ensures stream == TriangleStream(triangles)
  {
    stream := [];
    var t := 0;
    while t < |triangles|
      invariant 0 <= t <= |triangles|
      invariant stream == TriangleStream(triangles[..t])
    {
      var indexTri := triangles[t];
      stream := stream + [IndexTriangle(indexTri.a, indexTri.b, indexTri.c)];
      assert triangles[..t + 1][..t] == triangles[..t];
      t := t + 1;
    }
    assert triangles[..t] == triangles;
  }

  /** The `foreach` over `DistinctEdges` that fills the edge index buffer. */
  method WriteLineStream(lines: seq<Index2d>) returns (stream: seq<IndexPrimitive>)
    ensures stream == LineStream(lines)
  {
    stream := [];
    var k := 0;
    while k < |lines|
      invariant 0 <= k <= |lines|
      invariant stream == LineStream(lines[..k])
    {
      var edge := lines[k];
      stream := stream + [IndexLine(edge.a, edge.b)];
      assert lines[..k + 1][..k] == lines[..k];
      k := k + 1;
    }
    assert lines[..k] == lines;
  }

  /**
   * The writes that finish a storage: the format bits, the vertex buffer, the
   * index count, the index buffer, and a vertex format and an effect instance
   * made from the format bits. Style and counts are left as they are.
   */
  method StoreBuffers(storage: CustomBufferStorage, bits: VertexFormatBits, stream: seq<Vertex>,
                      indexCount: int, indices: seq<IndexPrimitive>)
    modifies storage
    ensures storage.displayStyle == old(storage.displayStyle)
    ensures storage.vertexBufferCount == old(storage.vertexBufferCount)
    ensures storage.primitiveCount == old(storage.primitiveCount)
    ensures storage.formatBits == Some(bits) && storage.vertexBuffer == Some(VertexBuffer(stream, true))
    ensures storage.indexBufferCount == indexCount && storage.indexBuffer == Some(IndexBuffer(indices, true))
    ensures storage.vertexFormat == Some(VertexFormat(bits, true)) && storage.effectInstance == Some(EffectInstance(bits, true))
  {
    storage.formatBits := Some(bits);
    storage.vertexBuffer := Some(VertexBuffer(stream, true));
    storage.indexBufferCount := indexCount;
    storage.indexBuffer := Some(IndexBuffer(indices, true));
    storage.vertexFormat := Some(VertexFormat(bits, true));
    storage.effectInstance := Some(EffectInstance(bits, true));
  }

  /**
   * A face storage after a build of a cube of length a in `style`. The validity
   * of its graphics objects is not part of it: the graphics layer may drop them.
   */
  predicate FaceBuilt(s: CustomBufferStorage, style: DisplayStyle, a: int)
    reads s
  {
    s.displayStyle == style && s.vertexBufferCount == 24 && s.primitiveCount == 12 && s.indexBufferCount == 36 &&
    s.formatBits == Some(PositionNormalColored) &&
    s.vertexBuffer.Some? && s.vertexBuffer.value.vertices == FaceStream(CubeVertices(a), CubeNormals()) &&
    s.indexBuffer.Some? && s.indexBuffer.value.primitives == TriangleStream(CubeTriangles()) &&
    s.vertexFormat.Some? && s.vertexFormat.value.bits == PositionNormalColored &&
    s.effectInstance.Some? && s.effectInstance.value.bits == PositionNormalColored
  }

  /**
   * An edge storage after a build of a cube of length a in `style`: the
   * primitive count is the length of the whole edge list while the index buffer
   * holds the distinct lines.
   */
  predicate EdgeBuilt(s: CustomBufferStorage, style: DisplayStyle, a: int)
    reads s
  {
    s.displayStyle == style && s.vertexBufferCount == 24 && s.primitiveCount == |CubeEdges(a)| &&
    s.indexBufferCount == s.primitiveCount * 2 &&
    s.formatBits == Some(Position) &&
    s.vertexBuffer.Some? && s.vertexBuffer.value.vertices == PositionStream(CubeVertices(a)) &&
    s.indexBuffer.Some? && s.indexBuffer.value.primitives == LineStream(Distinct(CubeEdges(a))) &&
    s.vertexFormat.Some? && s.vertexFormat.value.bits == Position &&
    s.effectInstance.Some? && s.effectInstance.value.bits == Position
  }

  /** The `FlushBuffer` arguments a storage supplies. */
  function FlushOf(s: CustomBufferStorage, primitiveType: PrimitiveType): FlushCall
    reads s
  {
    FlushCall(s.vertexBuffer, s.vertexBufferCount, s.indexBuffer, s.indexBufferCount,
              s.vertexFormat, s.effectInstance, primitiveType, 0, s.primitiveCount)
  }

  /** A built face storage with valid graphics objects submits a drawable triangle list: 12 triangles over the 24 vertices. */
  lemma FaceFlushConsistent(s: CustomBufferStorage, style: DisplayStyle, a: int)
    requires FaceBuilt(s, style, a) && s.Live()
    ensures FlushConsistent(FlushOf(s, TriangleList))
  {
    TablesShape(a);
    var triangles := TriangleStream(CubeTriangles());
    forall p | p in triangles
      ensures p.IndexTriangle? && 0 <= p.i0 < 24 && 0 <= p.i1 < 24 && 0 <= p.i2 < 24
    {
      var t :| 0 <= t < |triangles| && triangles[t] == p;
    }
  }

  /**
   * A built edge storage of a positive length submits lines that each join two
   * of its vertices, but announces more lines than its index buffer holds, so
   * the call is not a consistent one.
   */
  lemma EdgeFlushMiscounted(s: CustomBufferStorage, style: DisplayStyle, a: int)
    requires EdgeBuilt(s, style, a) && a > 0
    ensures forall p :: p in s.indexBuffer.value.primitives ==> p.IndexLine? && 0 <= p.l0 < 24 && 0 <= p.l1 < 24
    ensures |s.indexBuffer.value.primitives| < s.primitiveCount
    ensures !FlushConsistent(FlushOf(s, LineList))
  {
    DistinctEdgesInRange(a);
    DistinctEdgesFewer(a);
    var lines := LineStream(Distinct(CubeEdges(a)));
    forall p | p in lines
      ensures p.IndexLine? && 0 <= p.l0 < 24 && 0 <= p.l1 < 24
    {
      var k :| 0 <= k < |lines| && lines[k] == p;
      assert Distinct(CubeEdges(a))[k] in Distinct(CubeEdges(a));
    }
  }

  /** A cube of positive length has lines, so its edge storage has primitives. */
  lemma CubeHasEdges(a: int)
    requires a > 0
    ensures |CubeEdges(a)| > 0
  {
    CubeEdgesMembers(a);
    assert OneAxisApart(CubeVertices(a)[0], CubeVertices(a)[1]);
    assert Index2d(0, 1) in CubeEdges(a);
  }

  /** A build in `style` with valid graphics objects leaves neither storage needing an update in that style. */
  lemma BuildIsCurrent(faces: CustomBufferStorage, edges: CustomBufferStorage, style: DisplayStyle, a: int)
    requires FaceBuilt(faces, style, a) && EdgeBuilt(edges, style, a) && faces.Live() && edges.Live()
    ensures !faces.NeedsUpdate(style) && !edges.NeedsUpdate(style)
  {
  }

  class CustomServer {
    const boundingBox: SharedBoundingBox
    const cubeLength: int
    var faceBufferStorage: CustomBufferStorage?
    var edgeBufferStorage: CustomBufferStorage?

    /**
     * The constructor: `drawn` is the value of `Random.Next(1, 12)`, so the cube
     * length is an integer from 1 to 11. The shared bounding box is overwritten
     * with the box of this cube.
     */
    constructor (shared: SharedBoundingBox, drawn: int)
      requires 1 <= drawn < 12
      modifies shared
      ensures boundingBox == shared && cubeLength == drawn
      ensures faceBufferStorage == null && edgeBufferStorage == null
      ensures shared.outline == CubeOutline(drawn)
      ensures Valid()
    {
      boundingBox := shared;
      cubeLength := drawn;
      faceBufferStorage, edgeBufferStorage := null, null;
      new;
      shared.outline := CubeOutline(drawn);
    }

    /** `CanExecute`: the server runs in a view exactly when it is a 3D view. */
    function CanExecute(view: View): (ok: bool)
      ensures ok <==> view.viewType == ThreeD
    {
      view.viewType == ThreeD
    }

    /**
     * `GetBoundingBox`: whatever the shared box holds now, whatever the view.
     * While the box is still the one this server set, it encloses every vertex
     * of this server's cube.
     */
    function GetBoundingBox(view: View): (box: Outline)
      reads boundingBox
      ensures box == boundingBox.outline
      ensures cubeLength >= 0 && boundingBox.outline == CubeOutline(cubeLength) ==>
        forall i :: 0 <= i < |CubeVertices(cubeLength)| ==> Encloses(box, ToXYZ(CubeVertices(cubeLength)[i]))
    {
      if cubeLength >= 0 then OutlineEnclosesCube(cubeLength); boundingBox.outline else boundingBox.outline
    }

    /** The length is in range, and the storages are both absent or two distinct storages built for this cube. */
    ghost predicate Valid()
      reads this, faceBufferStorage, edgeBufferStorage
    {
      1 <= cubeLength < 12 &&
      ((faceBufferStorage == null && edgeBufferStorage == null) ||
       (faceBufferStorage != null && edgeBufferStorage != null && faceBufferStorage != edgeBufferStorage &&
        FaceBuilt(faceBufferStorage, faceBufferStorage.displayStyle, cubeLength) &&
        EdgeBuilt(edgeBufferStorage, edgeBufferStorage.displayStyle, cubeLength)))
    }

    /** The rebuild test of `RenderScene`: a storage is missing or needs an update. */
    predicate RebuildNeeded(style: DisplayStyle)
      reads this, faceBufferStorage, edgeBufferStorage
    {
      faceBufferStorage == null || faceBufferStorage.NeedsUpdate(style) ||
      edgeBufferStorage == null || edgeBufferStorage.NeedsUpdate(style)
    }

    /** A storage has primitives but a missing or invalid graphics object. */
    predicate HasDeadHandle()
      reads this, faceBufferStorage, edgeBufferStorage
    {
      (faceBufferStorage != null && faceBufferStorage.primitiveCount > 0 && !faceBufferStorage.Live()) ||
      (edgeBufferStorage != null && edgeBufferStorage.primitiveCount > 0 && !edgeBufferStorage.Live())
    }

    /** A storage with primitives and a dead graphics object forces a rebuild in every style. */
    lemma DeadHandleForcesRebuild(style: DisplayStyle)
      requires HasDeadHandle()
      ensures RebuildNeeded(style)
    {
    }

    /**
     * The graphics layer dropping the vertex buffers of both storages. The
     * server stays valid, and the next `RenderScene`, whatever its style,
     * rebuilds: a built cube always has primitives.
     */
    method LoseVertexBuffers()
      requires Valid() && faceBufferStorage != null && edgeBufferStorage != null
      modifies faceBufferStorage, edgeBufferStorage
      ensures Valid()
      ensures HasDeadHandle() && forall style :: RebuildNeeded(style)
    {
      faceBufferStorage.LoseVertexBuffer();
      edgeBufferStorage.LoseVertexBuffer();
    }

    /**
     * The "Populate face buffer" part of `CreateBufferStorageForMesh`, on a new
     * storage and the mesh of a cube of length a: the counts grow by the mesh's
     * vertex and triangle counts.
     */
    method PopulateFaceBuffer(storage: CustomBufferStorage, mesh: MeshCube, ghost a: int)
      requires storage.vertexBufferCount == 0 && storage.primitiveCount == 0
      requires mesh.vertices == CubeVertices(a) && mesh.normals == CubeNormals() && mesh.triangles == CubeTriangles()
      requires mesh.vertexBufferCount == 24 && mesh.numTriangles == 12
      modifies storage
      ensures FaceBuilt(storage, old(storage.displayStyle), a) && storage.Live()
    {
      TablesShape(a);
      storage.vertexBufferCount := storage.vertexBufferCount + mesh.vertexBufferCount;
      storage.primitiveCount := storage.primitiveCount + mesh.numTriangles;
      var stream := WriteFaceStream(mesh.vertices, mesh.normals);
      var indices := WriteTriangleStream(mesh.triangles);
      StoreBuffers(storage, PositionNormalColored, stream, mesh.numTriangles * 3, indices);  // three short ints per IndexTriangle
    }

    /**
     * The "Edges" part of `CreateBufferStorageForMesh`, on a new storage and the
     * mesh of a cube of length a: the primitive count grows by
     * `DistinctEdgeCount` while the lines written are the distinct ones.
     */
    method PopulateEdgeBuffer(storage: CustomBufferStorage, mesh: MeshCube, ghost a: int)
      requires storage.vertexBufferCount == 0 && storage.primitiveCount == 0
      requires mesh.vertices == CubeVertices(a) && mesh.distinctEdges == Distinct(CubeEdges(a))
      requires mesh.vertexBufferCount == 24 && mesh.distinctEdgeCount == |CubeEdges(a)|
      modifies storage
      ensures EdgeBuilt(storage, old(storage.displayStyle), a) && storage.Live()
    {
      storage.vertexBufferCount := storage.vertexBufferCount + mesh.vertexBufferCount;
      storage.primitiveCount := storage.primitiveCount + mesh.distinctEdgeCount;
      var stream := WritePositionStream(mesh.vertices);
      var indices := WriteLineStream(mesh.distinctEdges);
      StoreBuffers(storage, Position, stream, storage.primitiveCount * 2, indices);  // two short ints per IndexLine
    }

    /** `CreateBufferStorageForMesh`: two fresh storages in `displayStyle`, filled from a new `MeshCube`. */
    method CreateBufferStorageForMesh(displayStyle: DisplayStyle)
      modifies this
      ensures fresh(faceBufferStorage) && fresh(edgeBufferStorage)
      ensures FaceBuilt(faceBufferStorage, displayStyle, cubeLength) && faceBufferStorage.Live()
      ensures EdgeBuilt(edgeBufferStorage, displayStyle, cubeLength) && edgeBufferStorage.Live()
    {
      var faces := new CustomBufferStorage(displayStyle);
      var edges := new CustomBufferStorage(displayStyle);
      faceBufferStorage, edgeBufferStorage := faces, edges;
      var customMesh := new MeshCube(cubeLength);
      PopulateFaceBuffer(faces, customMesh, cubeLength);
      PopulateEdgeBuffer(edges, customMesh, cubeLength);
    }

    /**
     * The `FlushBuffer` calls of one `RenderScene` after the rebuild test: the
     * face storage unless the style is wireframe, then the edge storage in every
     * style, each only when it has primitives.
     */
    function Submitted(displayStyle: DisplayStyle): seq<FlushCall>
      requires faceBufferStorage != null && edgeBufferStorage != null
      reads this, faceBufferStorage, edgeBufferStorage
    {
      (if displayStyle != Wireframe && faceBufferStorage.primitiveCount > 0 then [FlushOf(faceBufferStorage, TriangleList)] else []) +
      (if edgeBufferStorage.primitiveCount > 0 then [FlushOf(edgeBufferStorage, LineList)] else [])
    }

    /** A built server submits its triangles unless the style is wireframe, and its lines in every style. */
    lemma SubmittedCalls(displayStyle: DisplayStyle)
      requires Valid() && faceBufferStorage != null && edgeBufferStorage != null
      ensures Submitted(displayStyle) ==
        (if displayStyle != Wireframe then [FlushOf(faceBufferStorage, TriangleList)] else []) +
        [FlushOf(edgeBufferStorage, LineList)]
    {
      CubeHasEdges(cubeLength);
    }

    /** Of the two calls of a built server with a valid face storage, the triangle call is consistent and the line call is not. */
    lemma StoragesChecked()
      requires Valid() && faceBufferStorage != null && edgeBufferStorage != null && faceBufferStorage.Live()
      ensures FlushConsistent(FlushOf(faceBufferStorage, TriangleList))
      ensures !FlushConsistent(FlushOf(edgeBufferStorage, LineList))
    {
      FaceFlushConsistent(faceBufferStorage, faceBufferStorage.displayStyle, cubeLength);
      EdgeFlushMiscounted(edgeBufferStorage, edgeBufferStorage.displayStyle, cubeLength);
    }

    /**
     * What a built and current server submits: one call under wireframe and two otherwise;
     * the triangle call, when made, is consistent and the closing line call is not.
     */
    lemma SubmittedChecked(displayStyle: DisplayStyle)
      requires Valid() && faceBufferStorage != null && edgeBufferStorage != null && !RebuildNeeded(displayStyle)
      ensures |Submitted(displayStyle)| == (if displayStyle == Wireframe then 1 else 2)
      ensures displayStyle != Wireframe ==> FlushConsistent(Submitted(displayStyle)[0])
      ensures !FlushConsistent(Submitted(displayStyle)[|Submitted(displayStyle)| - 1])
    {
      assert !faceBufferStorage.NeedsUpdate(displayStyle);
      SubmittedCalls(displayStyle);
      StoragesChecked();
      var calls := Submitted(displayStyle);
      assert calls[|calls| - 1] == FlushOf(edgeBufferStorage, LineList);
      assert displayStyle != Wireframe ==> calls[0] == FlushOf(faceBufferStorage, TriangleList);
    }

    /** The rebuild half of `RenderScene`: a fresh build when a storage is missing or out of date. */
    method Refresh(displayStyle: DisplayStyle) returns (rebuilt: bool)
      requires Valid()
      modifies this
      ensures rebuilt == old(RebuildNeeded(displayStyle))
      ensures rebuilt ==> fresh(faceBufferStorage) && fresh(edgeBufferStorage) &&
                          FaceBuilt(faceBufferStorage, displayStyle, cubeLength) &&
                          EdgeBuilt(edgeBufferStorage, displayStyle, cubeLength)
      ensures !rebuilt ==> unchanged(this)
      ensures Valid() && !RebuildNeeded(displayStyle)
      ensures faceBufferStorage != null && edgeBufferStorage != null
      ensures old(HasDeadHandle()) ==> rebuilt
    {
      if HasDeadHandle() {
        DeadHandleForcesRebuild(displayStyle);
      }
      rebuilt := RebuildNeeded(displayStyle);
      if rebuilt {
        CreateBufferStorageForMesh(displayStyle);
        BuildIsCurrent(faceBufferStorage, edgeBufferStorage, displayStyle, cubeLength);
      }
    }

    /**
     * `RenderScene`: rebuilds both storages when one is missing or out of date,
     * then submits them. A second call in the same style does not rebuild.
     */
    method RenderScene(displayStyle: DisplayStyle) returns (rebuilt: bool, flushes: seq<FlushCall>)
      requires Valid()
      modifies this
      ensures rebuilt == old(RebuildNeeded(displayStyle))
      ensures rebuilt ==> fresh(faceBufferStorage) && fresh(edgeBufferStorage) &&
                          FaceBuilt(faceBufferStorage, displayStyle, cubeLength) &&
                          EdgeBuilt(edgeBufferStorage, displayStyle, cubeLength)
      ensures !rebuilt ==> unchanged(this)
      ensures Valid() && !RebuildNeeded(displayStyle)
      ensures faceBufferStorage != null && edgeBufferStorage != null
      ensures flushes == Submitted(displayStyle)
      ensures |flushes| == (if displayStyle == Wireframe then 1 else 2)
      ensures displayStyle != Wireframe ==> FlushConsistent(flushes[0])
      ensures !FlushConsistent(flushes[|flushes| - 1])
      ensures old(HasDeadHandle()) ==> rebuilt
    {
      rebuilt := Refresh(displayStyle);
      flushes := Submitted(displayStyle);
      SubmittedChecked(displayStyle);
    }
  }
}
