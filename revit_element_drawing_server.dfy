/**
 * `RevitElementDrawingServer`: draws a copy of an element, shifted by an
 * offset, from three buffer storages (nonTransparent faces, transparent faces, edges)
 * that it rebuilds from the element's geometry whenever one of them is missing
 * or out of date.
 */
module ElementServer {
  import opened Wrappers
  import opened Sequences
  import opened Geometry
  import opened Graphics
  import opened Helper
  import opened RenderingPassStorage
  import opened ElementBuffers
  import opened ElementClassification

  /**
   * A face storage is packed: untouched while it has no mesh, else holding the
   * buffers built from its meshes. Whether the graphics objects are still valid
   * is not part of it: the graphics layer may invalidate them at any time.
   */
  ghost predicate FacesPacked(s: RenderingPassBufferStorage, offset: XYZ)
    reads s
  {
    if |s.meshes| == 0 then s.Unpacked()
    else
      var bits := FaceFormat(s.displayStyle);
      s.formatBits == Some(bits) &&
      s.vertexBuffer.Some? && s.vertexBuffer.value.vertices == FaceVertices(s.meshes, s.displayStyle, offset) &&
      s.indexBufferCount == s.primitiveCount * 3 &&
      s.indexBuffer.Some? && s.indexBuffer.value.primitives == FaceIndices(s.meshes) &&
      s.vertexFormat.Some? && s.vertexFormat.value.bits == bits &&
      s.effectInstance.Some? && s.effectInstance.value.bits == bits
  }

  /** An edge storage is packed: untouched while it has no polyline, else holding the buffers built from them. */
  ghost predicate EdgesPacked(s: RenderingPassBufferStorage, offset: XYZ)
    reads s
  {
    if |s.edgeXYZs| == 0 then s.Unpacked()
    else
      s.formatBits == Some(Position) &&
      s.vertexBuffer.Some? && s.vertexBuffer.value.vertices == EdgeVertices(s.edgeXYZs, offset) &&
      s.indexBufferCount == s.primitiveCount * 2 &&
      s.indexBuffer.Some? && s.indexBuffer.value.primitives == EdgeIndices(s.edgeXYZs) &&
      s.vertexFormat.Some? && s.vertexFormat.value.bits == Position &&
      s.effectInstance.Some? && s.effectInstance.value.bits == Position
  }

  /** A face storage built in `style` from `meshes`. */
  ghost predicate FaceStorageHolds(s: RenderingPassBufferStorage, style: DisplayStyle, meshes: seq<MeshInfo>, offset: XYZ)
    reads s
  {
    s.Accumulated() == WithFaces(Initial(style), meshes) && FacesPacked(s, offset)
  }

  /** An edge storage built in `style` from `polylines`. */
  ghost predicate EdgeStorageHolds(s: RenderingPassBufferStorage, style: DisplayStyle, polylines: seq<seq<XYZ>>, offset: XYZ)
    reads s
  {
    s.Accumulated() == WithPolylines(Initial(style), polylines) && EdgesPacked(s, offset)
  }

  /** The `FlushBuffer` call that submits a storage. */
  function FlushOf(s: RenderingPassBufferStorage, primitiveType: PrimitiveType): FlushCall
    reads s
  {
    FlushCall(s.vertexBuffer, s.vertexBufferCount, s.indexBuffer, s.indexBufferCount,
              s.vertexFormat, s.effectInstance, primitiveType, 0, s.primitiveCount)
  }

  /** The face call of a pass: none under wireframe or without triangles. */
  function FaceCalls(displayStyle: DisplayStyle, faces: RenderingPassBufferStorage): seq<FlushCall>
    reads faces
  {
    if displayStyle != Wireframe && faces.primitiveCount > 0 then [FlushOf(faces, TriangleList)] else []
  }

  /** The edge call of a pass: none under plain shading or without lines. */
  function EdgeCalls(displayStyle: DisplayStyle, edges: RenderingPassBufferStorage): seq<FlushCall>
    reads edges
  {
    if displayStyle != Shading && edges.primitiveCount > 0 then [FlushOf(edges, LineList)] else []
  }

  /** Consistency of two call lists carries over to the calls of both. */
  lemma AllConsistentConcat(a: seq<FlushCall>, b: seq<FlushCall>)
    requires forall c :: c in a ==> FlushConsistent(c)
    requires forall c :: c in b ==> FlushConsistent(c)
    ensures forall c :: c in a + b ==> FlushConsistent(c)
  {
  }

  /** The face call of any pass over a built storage of well-formed meshes is consistent. */
  lemma FaceCallsConsistent(displayStyle: DisplayStyle, s: RenderingPassBufferStorage, offset: XYZ)
    requires FaceStorageHolds(s, s.displayStyle, s.meshes, offset) && AllWellFormed(s.meshes)
    requires !s.NeedsUpdate(displayStyle)
    ensures forall c :: c in FaceCalls(displayStyle, s) ==> FlushConsistent(c)
  {
    if displayStyle != Wireframe && s.primitiveCount > 0 {
      FaceFlushConsistent(s, s.displayStyle, s.meshes, offset);
      assert FaceCalls(displayStyle, s) == [FlushOf(s, TriangleList)];
    }
  }

  /** The edge call of any pass over a built storage of nonempty polylines is consistent. */
  lemma EdgeCallsConsistent(displayStyle: DisplayStyle, s: RenderingPassBufferStorage, offset: XYZ)
    requires EdgeStorageHolds(s, s.displayStyle, s.edgeXYZs, offset)
    requires forall e :: 0 <= e < |s.edgeXYZs| ==> |s.edgeXYZs[e]| > 0
    requires !s.NeedsUpdate(displayStyle)
    ensures forall c :: c in EdgeCalls(displayStyle, s) ==> FlushConsistent(c)
  {
    if displayStyle != Shading && s.primitiveCount > 0 {
      EdgeFlushConsistent(s, s.displayStyle, s.edgeXYZs, offset);
      assert EdgeCalls(displayStyle, s) == [FlushOf(s, LineList)];
    }
  }

  /** A built face storage is a build of its own style and meshes. */
  lemma OwnFaceBuild(s: RenderingPassBufferStorage, style: DisplayStyle, meshes: seq<MeshInfo>, offset: XYZ)
    requires FaceStorageHolds(s, style, meshes, offset)
    ensures s.displayStyle == style && s.meshes == meshes
    ensures FaceStorageHolds(s, s.displayStyle, s.meshes, offset)
  {
  }

  /** A built edge storage is a build of its own style and polylines. */
  lemma OwnEdgeBuild(s: RenderingPassBufferStorage, style: DisplayStyle, polylines: seq<seq<XYZ>>, offset: XYZ)
    requires EdgeStorageHolds(s, style, polylines, offset)
    ensures s.displayStyle == style && s.edgeXYZs == polylines
    ensures EdgeStorageHolds(s, s.displayStyle, s.edgeXYZs, offset)
  {
  }

  /** A built face storage whose graphics objects, if any were made, are valid needs no rebuild in its own style. */
  lemma FaceBuildIsCurrent(s: RenderingPassBufferStorage, style: DisplayStyle, meshes: seq<MeshInfo>, offset: XYZ)
    requires FaceStorageHolds(s, style, meshes, offset) && (|meshes| > 0 ==> s.Live())
    ensures !s.NeedsUpdate(style)
  {
    if |meshes| == 0 {
      assert s.primitiveCount == 0;
    }
  }

  /** A built edge storage whose graphics objects, if any were made, are valid needs no rebuild in its own style. */
  lemma EdgeBuildIsCurrent(s: RenderingPassBufferStorage, style: DisplayStyle, polylines: seq<seq<XYZ>>, offset: XYZ)
    requires EdgeStorageHolds(s, style, polylines, offset) && (|polylines| > 0 ==> s.Live())
    ensures !s.NeedsUpdate(style)
  {
    if |polylines| == 0 {
      assert s.primitiveCount == 0;
    }
  }

  /** Submitting a built face storage of well-formed meshes submits a drawable triangle list. */
  lemma FaceFlushConsistent(s: RenderingPassBufferStorage, style: DisplayStyle, meshes: seq<MeshInfo>, offset: XYZ)
    requires FaceStorageHolds(s, style, meshes, offset) && AllWellFormed(meshes) && s.primitiveCount > 0 && s.Live()
    ensures FlushConsistent(FlushOf(s, TriangleList))
  {
    assert s.meshes == meshes && s.vertexBufferCount == TotalVertices(meshes) && s.primitiveCount == TotalTriangles(meshes);
    assert |meshes| > 0;
    FaceVerticesLength(meshes, style, offset);
    FaceIndicesLength(meshes);
    FaceIndicesInRange(meshes);
  }

  /** Submitting a built edge storage whose polylines all have a point submits a drawable line list. */
  lemma EdgeFlushConsistent(s: RenderingPassBufferStorage, style: DisplayStyle, polylines: seq<seq<XYZ>>, offset: XYZ)
    requires EdgeStorageHolds(s, style, polylines, offset) && s.primitiveCount > 0 && s.Live()
    requires forall e :: 0 <= e < |polylines| ==> |polylines[e]| > 0
    ensures FlushConsistent(FlushOf(s, LineList))
  {
    assert s.edgeXYZs == polylines && s.vertexBufferCount == TotalPoints(polylines) && s.primitiveCount == TotalSegments(polylines);
    assert |polylines| > 0;
    EdgeVerticesLength(polylines, offset);
    EdgeIndicesLength(polylines);
    EdgeIndicesInRange(polylines);
  }

  /**
   * The tail shared by `ProcessFaces` and `ProcessEdges`: the format bits, the
   * two buffers with the index count, and the vertex format and effect
   * instance made from the bits. The accumulated lists and counts stay.
   */
  method StoreBuffers(storage: RenderingPassBufferStorage, bits: VertexFormatBits, stream: seq<Vertex>,
                      indexCount: int, indices: seq<IndexPrimitive>)
    modifies storage
    ensures storage.Accumulated() == old(storage.Accumulated())
    ensures storage.Packed() == (Some(bits), Some(VertexBuffer(stream, true)), indexCount, Some(IndexBuffer(indices, true)),
                                 Some(VertexFormat(bits, true)), Some(EffectInstance(bits, true)))
  {
    storage.formatBits := Some(bits);
    storage.vertexBuffer := Some(VertexBuffer(stream, true));
    storage.indexBufferCount := indexCount;
    storage.indexBuffer := Some(IndexBuffer(indices, true));
    storage.vertexFormat := Some(VertexFormat(bits, true));
    storage.effectInstance := Some(EffectInstance(bits, true));
  }

  /**
   * One face of the face loop: skipped below the area threshold, otherwise
   * resolved through `MaterialExtract` and appended, with its vertex and
   * triangle counts, to exactly one of the two storages.
   */
  method AccumulateFace(nonTransparent: RenderingPassBufferStorage, transparent: RenderingPassBufferStorage, face: Face, doc: Document)
    requires nonTransparent != transparent
    requires FaceKept(face) ==> Resolves(doc, face.materialId)
    modifies nonTransparent, transparent
    ensures nonTransparent.Packed() == old(nonTransparent.Packed()) && transparent.Packed() == old(transparent.Packed())
    ensures nonTransparent.Accumulated() == WithFaces(old(nonTransparent.Accumulated()), FaceStep(face, doc, false))
    ensures transparent.Accumulated() == WithFaces(old(transparent.Accumulated()), FaceStep(face, doc, true))
  {
    if face.area <= AreaTolerance {
      WithFacesTwice(nonTransparent.Accumulated(), [], []);
      WithFacesTwice(transparent.Accumulated(), [], []);
      return;
    }
    var mesh := face.mesh;
    var isTransparent, colorRGBA := MaterialExtract(doc, face.materialId, false, DefaultColor);
    var meshInfo := MeshInfo(mesh, face.normal, colorRGBA);
    assert [meshInfo][..0] == [];
    if isTransparent {
      WithFacesTwice(nonTransparent.Accumulated(), [], []);
      transparent.meshes := transparent.meshes + [meshInfo];
      transparent.vertexBufferCount := transparent.vertexBufferCount + |mesh.vertices|;
      transparent.primitiveCount := transparent.primitiveCount + |mesh.triangles|;
    } else {
      WithFacesTwice(transparent.Accumulated(), [], []);
      nonTransparent.meshes := nonTransparent.meshes + [meshInfo];
      nonTransparent.vertexBufferCount := nonTransparent.vertexBufferCount + |mesh.vertices|;
      nonTransparent.primitiveCount := nonTransparent.primitiveCount + |mesh.triangles|;
    }
  }

  /**
   * One edge of the edge loop: skipped below the length threshold, otherwise its
   * k points are appended and the counts grow by k and k - 1.
   */
  method AccumulateEdge(edges: RenderingPassBufferStorage, edge: Edge)
    modifies edges
    ensures edges.Packed() == old(edges.Packed())
    ensures edges.Accumulated() == WithPolylines(old(edges.Accumulated()), EdgeStep(edge))
  {
    if edge.approximateLength <= LengthTolerance {
      WithPolylinesTwice(edges.Accumulated(), [], []);
      return;
    }
    var xyzs := edge.tessellation;
    assert [xyzs][..0] == [];
    assert TotalPoints([xyzs]) == |xyzs| && TotalSegments([xyzs]) == |xyzs| - 1;
    edges.vertexBufferCount := edges.vertexBufferCount + |xyzs|;
    edges.primitiveCount := edges.primitiveCount + |xyzs| - 1;
    edges.edgeXYZs := edges.edgeXYZs + [xyzs];
  }

  /** The face loop of one solid, over the two face storages. */
  method AccumulateFaces(nonTransparent: RenderingPassBufferStorage, transparent: RenderingPassBufferStorage,
                         faces: seq<Face>, doc: Document)
    requires nonTransparent != transparent
    requires FacesResolve(doc, faces)
    modifies nonTransparent, transparent
    ensures nonTransparent.Packed() == old(nonTransparent.Packed()) && transparent.Packed() == old(transparent.Packed())
    ensures nonTransparent.Accumulated() == WithFaces(old(nonTransparent.Accumulated()), FacesInto(faces, doc, false))
    ensures transparent.Accumulated() == WithFaces(old(transparent.Accumulated()), FacesInto(faces, doc, true))
  {
    var f := 0;
    assert faces[..0] == [];
    WithFacesTwice(nonTransparent.Accumulated(), [], []);
    WithFacesTwice(transparent.Accumulated(), [], []);
    while f < |faces|
      invariant 0 <= f <= |faces|
      invariant FacesResolve(doc, faces[..f])
      invariant nonTransparent.Packed() == old(nonTransparent.Packed()) && transparent.Packed() == old(transparent.Packed())
      invariant nonTransparent.Accumulated() == WithFaces(old(nonTransparent.Accumulated()), FacesInto(faces[..f], doc, false))
      invariant transparent.Accumulated() == WithFaces(old(transparent.Accumulated()), FacesInto(faces[..f], doc, true))
    {
      var face := faces[f];
      AccumulateFace(nonTransparent, transparent, face, doc);
      assert faces[..f + 1] == faces[..f] + [face];
      FacesIntoStep(faces[..f], face, doc, true);
      FacesIntoStep(faces[..f], face, doc, false);
      WithFacesTwice(old(nonTransparent.Accumulated()), FacesInto(faces[..f], doc, false), FaceStep(face, doc, false));
      WithFacesTwice(old(transparent.Accumulated()), FacesInto(faces[..f], doc, true), FaceStep(face, doc, true));
      f := f + 1;
    }
    assert faces[..f] == faces;
  }

  /** The edge loop of one solid, over the edge storage. */
  method AccumulateEdges(edgeStore: RenderingPassBufferStorage, edges: seq<Edge>)
    modifies edgeStore
    ensures edgeStore.Packed() == old(edgeStore.Packed())
    ensures edgeStore.Accumulated() == WithPolylines(old(edgeStore.Accumulated()), EdgePolylines(edges))
  {
    var e := 0;
    assert edges[..0] == [];
    WithPolylinesTwice(edgeStore.Accumulated(), [], []);
    while e < |edges|
      invariant 0 <= e <= |edges|
      invariant edgeStore.Packed() == old(edgeStore.Packed())
      invariant edgeStore.Accumulated() == WithPolylines(old(edgeStore.Accumulated()), EdgePolylines(edges[..e]))
    {
      var edge := edges[e];
      AccumulateEdge(edgeStore, edge);
      assert edges[..e + 1] == edges[..e] + [edge];
      EdgePolylinesStep(edges[..e], edge);
      WithPolylinesTwice(old(edgeStore.Accumulated()), EdgePolylines(edges[..e]), EdgeStep(edge));
      e := e + 1;
    }
    assert edges[..e] == edges;
  }

  /**
   * The server for one element. Its three storages start out null and are
   * replaced by fresh ones on every rebuild.
   */
  class RevitElementDrawingServer {
    const offset: XYZ
    var nonTransparentFaceStorage: RenderingPassBufferStorage?
    var transparentFaceStorage: RenderingPassBufferStorage?
    var edgeStorage: RenderingPassBufferStorage?

    constructor (offset: XYZ)
      ensures this.offset == offset
      ensures nonTransparentFaceStorage == null && transparentFaceStorage == null && edgeStorage == null
      ensures Valid()
    {
      this.offset := offset;
      nonTransparentFaceStorage, transparentFaceStorage, edgeStorage := null, null, null;
    }

    /** The storages are either all absent or three distinct storages, each holding a build of its own lists. */
    ghost predicate Valid()
      reads this, nonTransparentFaceStorage, transparentFaceStorage, edgeStorage
    {
      (nonTransparentFaceStorage == null && transparentFaceStorage == null && edgeStorage == null) ||
      (nonTransparentFaceStorage != null && transparentFaceStorage != null && edgeStorage != null &&
       nonTransparentFaceStorage != transparentFaceStorage && nonTransparentFaceStorage != edgeStorage &&
       transparentFaceStorage != edgeStorage &&
       FaceStorageHolds(nonTransparentFaceStorage, nonTransparentFaceStorage.displayStyle, nonTransparentFaceStorage.meshes, offset) &&
       FaceStorageHolds(transparentFaceStorage, transparentFaceStorage.displayStyle, transparentFaceStorage.meshes, offset) &&
       EdgeStorageHolds(edgeStorage, edgeStorage.displayStyle, edgeStorage.edgeXYZs, offset))
    }

    /** The buffers are drawable: the meshes are well formed and every polyline has a point. */
    ghost predicate Drawable()
      reads this, nonTransparentFaceStorage, transparentFaceStorage, edgeStorage
    {
      nonTransparentFaceStorage != null && transparentFaceStorage != null && edgeStorage != null &&
      AllWellFormed(nonTransparentFaceStorage.meshes) && AllWellFormed(transparentFaceStorage.meshes) &&
      forall e :: 0 <= e < |edgeStorage.edgeXYZs| ==> |edgeStorage.edgeXYZs[e]| > 0
    }

    /** The rebuild test of `RenderScene`: a storage is missing or one of them needs an update. */
    predicate RebuildNeeded(style: DisplayStyle)
      reads this, nonTransparentFaceStorage, transparentFaceStorage, edgeStorage
    {
      nonTransparentFaceStorage == null || nonTransparentFaceStorage.NeedsUpdate(style) ||
      transparentFaceStorage == null || transparentFaceStorage.NeedsUpdate(style) ||
      edgeStorage == null || edgeStorage.NeedsUpdate(style)
    }

    /** Some storage has primitives but a missing or invalid graphics object. */
    predicate HasDeadHandle()
      reads this, nonTransparentFaceStorage, transparentFaceStorage, edgeStorage
    {
      (nonTransparentFaceStorage != null && nonTransparentFaceStorage.primitiveCount > 0 && !nonTransparentFaceStorage.Live()) ||
      (transparentFaceStorage != null && transparentFaceStorage.primitiveCount > 0 && !transparentFaceStorage.Live()) ||
      (edgeStorage != null && edgeStorage.primitiveCount > 0 && !edgeStorage.Live())
    }

    /** A storage with primitives and a dead graphics object forces a rebuild in every style. */
    lemma DeadHandleForcesRebuild(style: DisplayStyle)
      requires HasDeadHandle()
      ensures RebuildNeeded(style)
    {
    }

    /**
     * The graphics layer dropping the vertex buffers of all three storages. The
     * server stays valid, and once any storage has primitives the next
     * `RenderScene`, whatever its style, rebuilds.
     */
    method LoseVertexBuffers()
      requires Valid() && nonTransparentFaceStorage != null && transparentFaceStorage != null && edgeStorage != null
      modifies nonTransparentFaceStorage, transparentFaceStorage, edgeStorage
      ensures Valid()
      ensures (nonTransparentFaceStorage.primitiveCount > 0 || transparentFaceStorage.primitiveCount > 0 ||
               edgeStorage.primitiveCount > 0) ==> HasDeadHandle() && forall style :: RebuildNeeded(style)
    {
      nonTransparentFaceStorage.LoseVertexBuffer();
      transparentFaceStorage.LoseVertexBuffer();
      edgeStorage.LoseVertexBuffer();
    }

    /** Three distinct storages, built in `style` from what `solids` yield, with valid graphics objects. */
    ghost predicate Holds(style: DisplayStyle, doc: Document, solids: seq<Solid>)
      requires SolidsResolve(doc, solids)
      reads this, nonTransparentFaceStorage, transparentFaceStorage, edgeStorage
    {
      nonTransparentFaceStorage != null && transparentFaceStorage != null && edgeStorage != null &&
      nonTransparentFaceStorage != transparentFaceStorage && nonTransparentFaceStorage != edgeStorage &&
      transparentFaceStorage != edgeStorage &&
      FaceStorageHolds(nonTransparentFaceStorage, style, SolidsInto(solids, doc, false), offset) &&
      FaceStorageHolds(transparentFaceStorage, style, SolidsInto(solids, doc, true), offset) &&
      EdgeStorageHolds(edgeStorage, style, SolidsPolylines(solids), offset) &&
      (|nonTransparentFaceStorage.meshes| > 0 ==> nonTransparentFaceStorage.Live()) &&
      (|transparentFaceStorage.meshes| > 0 ==> transparentFaceStorage.Live()) &&
      (|edgeStorage.edgeXYZs| > 0 ==> edgeStorage.Live())
    }

    /** What a rebuild from `geometry` in `style` leaves in the three storages. */
    ghost predicate Built(geometry: seq<GeometryObject>, doc: Document, style: DisplayStyle)
      requires SolidsResolve(doc, KeptSolids(geometry))
      reads this, nonTransparentFaceStorage, transparentFaceStorage, edgeStorage
    {
      Holds(style, doc, KeptSolids(geometry))
    }

    /** A build is a valid state. */
    lemma HoldsIsValid(style: DisplayStyle, doc: Document, solids: seq<Solid>)
      requires SolidsResolve(doc, solids) && Holds(style, doc, solids)
      ensures Valid()
    {
      var meshes, transparentMeshes, polylines := SolidsInto(solids, doc, false), SolidsInto(solids, doc, true), SolidsPolylines(solids);
      OwnFaceBuild(nonTransparentFaceStorage, style, meshes, offset);
      OwnFaceBuild(transparentFaceStorage, style, transparentMeshes, offset);
      OwnEdgeBuild(edgeStorage, style, polylines, offset);
    }

    /**
     * The inner vertex loop of `ProcessFaces` for one mesh: each vertex shifted
     * by the offset, with the mesh's normal and colour when normals are used and
     * with the colour made white under HLR otherwise.
     */
    method AppendMeshVertices(written: seq<Vertex>, meshInfo: MeshInfo, style: DisplayStyle) returns (stream: seq<Vertex>)
      ensures stream == written + MeshVertices(meshInfo, style, offset)
    {
      var useNormals := style == Shading || style == ShadingWithEdges;
      var mesh := meshInfo.mesh;
      var color := if style == HLR then ColorWithTransparency(255, 255, 255, meshInfo.color.transparency) else meshInfo.color;
      stream := written;
      var k := 0;
      while k < |mesh.vertices|
        invariant 0 <= k <= |mesh.vertices|
        invariant stream == written + MeshVertices(meshInfo, style, offset)[..k]
      {
        var vertex := mesh.vertices[k];
        if useNormals {
          stream := stream + [VertexPositionNormalColored(Add(vertex, offset), meshInfo.normal, meshInfo.color)];
        } else {
          stream := stream + [VertexPositionColored(Add(vertex, offset), color)];
        }
        assert MeshVertices(meshInfo, style, offset)[..k + 1] == MeshVertices(meshInfo, style, offset)[..k] + [FaceVertex(meshInfo, style, offset, k)];
        k := k + 1;
      }
      assert MeshVertices(meshInfo, style, offset)[..k] == MeshVertices(meshInfo, style, offset);
    }

    /** One entry of the prefix table: the vertices before mesh `m + 1`. */
    static method ExtendVerticesBefore(meshes: seq<MeshInfo>, m: nat, before: seq<int>) returns (extended: seq<int>)
      requires m < |meshes| && before == VerticesBefore(meshes[..m])
      ensures extended == VerticesBefore(meshes[..m + 1])
    {
      VerticesBeforeSnoc(meshes, m);
      extended := before + [before[|before| - 1] + |meshes[m].mesh.vertices|];
    }

    /** The "Write Into Vertex Buffer" loops of `ProcessFaces`, with the prefix table they fill. */
    method WriteFaceVertices(meshes: seq<MeshInfo>, style: DisplayStyle) returns (stream: seq<Vertex>, before: seq<int>)
      ensures stream == FaceVertices(meshes, style, offset)
      ensures before == VerticesBefore(meshes)
    {
      stream, before := [], [0];
      var m := 0;
      while m < |meshes|
        invariant 0 <= m <= |meshes|
        invariant stream == FaceVertices(meshes[..m], style, offset)
        invariant before == VerticesBefore(meshes[..m])
      {
        stream := AppendMeshVertices(stream, meshes[m], style);
        FaceVerticesSnoc(meshes, style, offset, m);
        before := ExtendVerticesBefore(meshes, m, before);
        m := m + 1;
      }
      assert meshes[..m] == meshes;
    }

    /** The "Write Into Index Buffer" loop of `ProcessFaces`. */
    method WriteFaceIndices(meshes: seq<MeshInfo>, before: seq<int>) returns (indices: seq<IndexPrimitive>)
      requires before == VerticesBefore(meshes)
      ensures indices == FaceIndices(meshes)
    {
      indices := [];
      var meshNumber := 0;
      while meshNumber < |meshes|
        invariant 0 <= meshNumber <= |meshes|
        invariant indices == FaceIndices(meshes[..meshNumber])
      {
        var mesh := meshes[meshNumber].mesh;
        var startIndex := before[meshNumber];
        ghost var written := indices;
        var i := 0;
        while i < |mesh.triangles|
          invariant 0 <= i <= |mesh.triangles|
          invariant indices == written + MeshIndices(mesh, startIndex)[..i]
        {
          var mt := mesh.triangles[i];
          indices := indices + [IndexTriangle(startIndex + mt.i0, startIndex + mt.i1, startIndex + mt.i2)];
          assert MeshIndices(mesh, startIndex)[..i + 1] == MeshIndices(mesh, startIndex)[..i] + [MeshIndices(mesh, startIndex)[i]];
          i := i + 1;
        }
        assert MeshIndices(mesh, startIndex)[..i] == MeshIndices(mesh, startIndex);
        FaceIndicesSnoc(meshes, meshNumber);
        meshNumber := meshNumber + 1;
      }
      assert meshes[..meshNumber] == meshes;
    }

    /**
     * `ProcessFaces`: packs a face storage's meshes into its buffers. A storage
     * without meshes is left as it is.
     */
    method ProcessFaces(storage: RenderingPassBufferStorage)
      modifies storage
      ensures storage.Accumulated() == old(storage.Accumulated())
      ensures |storage.meshes| == 0 ==> storage.Packed() == old(storage.Packed())
      ensures |storage.meshes| > 0 ==> FacesPacked(storage, offset) && storage.Live()
    {
      var meshes := storage.meshes;
      if |meshes| == 0 {
        return;
      }
      var style := storage.displayStyle;
      var useNormals := style == Shading || style == ShadingWithEdges;
      var stream, before := WriteFaceVertices(meshes, style);
      var indices := WriteFaceIndices(meshes, before);
      var bits := if useNormals then PositionNormalColored else PositionColored;
      StoreBuffers(storage, bits, stream, storage.primitiveCount * 3, indices);  // three short ints per IndexTriangle
    }

    /** The inner vertex loop of `ProcessEdges` for one polyline: each point shifted by the offset. */
    method AppendPolylineVertices(written: seq<Vertex>, xyzs: seq<XYZ>) returns (stream: seq<Vertex>)
      ensures stream == written + PolylineVertices(xyzs, offset)
    {
      stream := written;
      var k := 0;
      while k < |xyzs|
        invariant 0 <= k <= |xyzs|
        invariant stream == written + PolylineVertices(xyzs, offset)[..k]
      {
        stream := stream + [VertexPosition(Add(xyzs[k], offset))];
        assert PolylineVertices(xyzs, offset)[..k + 1] == PolylineVertices(xyzs, offset)[..k] + [PolylineVertices(xyzs, offset)[k]];
        k := k + 1;
      }
      assert PolylineVertices(xyzs, offset)[..k] == PolylineVertices(xyzs, offset);
    }

    /** The vertex loop of `ProcessEdges`, with the prefix table it fills. */
    method WriteEdgeVertices(polylines: seq<seq<XYZ>>) returns (stream: seq<Vertex>, before: seq<int>)
      ensures stream == EdgeVertices(polylines, offset)
      ensures before == PointsBefore(polylines)
    {
      stream, before := [], [0];
      var e := 0;
      while e < |polylines|
        invariant 0 <= e <= |polylines|
        invariant stream == EdgeVertices(polylines[..e], offset)
        invariant before == PointsBefore(polylines[..e])
      {
        var xyzs := polylines[e];
        stream := AppendPolylineVertices(stream, xyzs);
        EdgeVerticesSnoc(polylines, offset, e);
        before := before + [before[|before| - 1] + |xyzs|];
        e := e + 1;
      }
      assert polylines[..e] == polylines;
    }

    /** The index loop of `ProcessEdges`: lines `(start + i - 1, start + i)` for i from 1 below the point count. */
    method WriteEdgeIndices(polylines: seq<seq<XYZ>>, before: seq<int>) returns (indices: seq<IndexPrimitive>)
      requires before == PointsBefore(polylines)
      ensures indices == EdgeIndices(polylines)
    {
      indices := [];
      var edgeNumber := 0;
      while edgeNumber < |polylines|
        invariant 0 <= edgeNumber <= |polylines|
        invariant indices == EdgeIndices(polylines[..edgeNumber])
      {
        var xyzs := polylines[edgeNumber];
        var startIndex := before[edgeNumber];
        ghost var written := indices;
        var i := 1;
        while i < |xyzs|
          invariant 1 <= i && i - 1 <= LineCount(xyzs)
          invariant |xyzs| > 0 ==> i <= |xyzs|
          invariant indices == written + PolylineLines(xyzs, startIndex)[..i - 1]
        {
          indices := indices + [IndexLine(startIndex + i - 1, startIndex + i)];
          assert PolylineLines(xyzs, startIndex)[..i] == PolylineLines(xyzs, startIndex)[..i - 1] + [PolylineLines(xyzs, startIndex)[i - 1]];
          i := i + 1;
        }
        assert i - 1 == LineCount(xyzs);
        assert PolylineLines(xyzs, startIndex)[..LineCount(xyzs)] == PolylineLines(xyzs, startIndex);
        EdgeIndicesSnoc(polylines, edgeNumber);
        assert startIndex == TotalPoints(polylines[..edgeNumber]);
        edgeNumber := edgeNumber + 1;
      }
      assert polylines[..edgeNumber] == polylines;
    }

    /**
     * `ProcessEdges`: packs the edge storage's polylines into its buffers. A
     * storage without polylines is left as it is.
     */
    method ProcessEdges(storage: RenderingPassBufferStorage)
      modifies storage
      ensures storage.Accumulated() == old(storage.Accumulated())
      ensures |storage.edgeXYZs| == 0 ==> storage.Packed() == old(storage.Packed())
      ensures |storage.edgeXYZs| > 0 ==> EdgesPacked(storage, offset) && storage.Live()
    {
      var edges := storage.edgeXYZs;
      if |edges| == 0 {
        return;
      }
      var stream, before := WriteEdgeVertices(edges);
      var indices := WriteEdgeIndices(edges, before);
      StoreBuffers(storage, Position, stream, storage.primitiveCount * 2, indices);  // two short ints per IndexLine
    }

    /** The first loop of `CreateBufferStorageForElement`: the solids of the geometry above the volume threshold. */
    static method CollectSolids(geometry: seq<GeometryObject>) returns (allSolids: seq<Solid>)
      ensures allSolids == KeptSolids(geometry)
    {
      allSolids := [];
      var g := 0;
      while g < |geometry|
        invariant 0 <= g <= |geometry|
        invariant allSolids == KeptSolids(geometry[..g])
      {
        var geomObj := geometry[g];
        if geomObj.SolidObject? {
          var solid := geomObj.solid;
          if solid.volume > VolumeTolerance {
            allSolids := allSolids + [solid];
          }
        }
        assert geometry[..g + 1][..g] == geometry[..g];
        g := g + 1;
      }
      assert geometry[..g] == geometry;
    }

    /**
     * The body of the per-solid loop of `CreateBufferStorageForElement`: the
     * face and edge loops of one solid, then all three storages repacked, so
     * that each holds a build of everything collected so far.
     */
    method ProcessSolid(prefix: seq<Solid>, solid: Solid, doc: Document, style: DisplayStyle)
      requires SolidsResolve(doc, prefix) && FacesResolve(doc, solid.faces)
      requires Holds(style, doc, prefix)
      modifies nonTransparentFaceStorage, transparentFaceStorage, edgeStorage
      ensures SolidsResolve(doc, prefix + [solid])
      ensures Holds(style, doc, prefix + [solid])
    {
      var nonTransparent, transparent, edges := nonTransparentFaceStorage, transparentFaceStorage, edgeStorage;
      SolidsIntoStep(prefix, solid, doc, false);
      SolidsIntoStep(prefix, solid, doc, true);
      WithFacesTwice(Initial(style), SolidsInto(prefix, doc, false), FacesInto(solid.faces, doc, false));
      WithFacesTwice(Initial(style), SolidsInto(prefix, doc, true), FacesInto(solid.faces, doc, true));
      WithPolylinesTwice(Initial(style), SolidsPolylines(prefix), EdgePolylines(solid.edges));
      AccumulateFaces(nonTransparent, transparent, solid.faces, doc);
      AccumulateEdges(edges, solid.edges);
      ProcessFaces(nonTransparent);
      ProcessFaces(transparent);
      ProcessEdges(edges);
    }

    /** The start of `CreateBufferStorageForElement`: three fresh, empty storages in `displayStyle`. */
    method NewStorages(doc: Document, displayStyle: DisplayStyle)
      modifies this
      ensures fresh(nonTransparentFaceStorage) && fresh(transparentFaceStorage) && fresh(edgeStorage)
      ensures Holds(displayStyle, doc, [])
    {
      var nonTransparent := new RenderingPassBufferStorage(displayStyle);
      var transparent := new RenderingPassBufferStorage(displayStyle);
      var edges := new RenderingPassBufferStorage(displayStyle);
      nonTransparentFaceStorage, transparentFaceStorage, edgeStorage := nonTransparent, transparent, edges;
      WithFacesTwice(Initial(displayStyle), [], []);
      WithPolylinesTwice(Initial(displayStyle), [], []);
    }

    /** The per-solid loop of `CreateBufferStorageForElement`. */
    method ProcessSolids(allSolids: seq<Solid>, doc: Document, displayStyle: DisplayStyle)
      requires SolidsResolve(doc, allSolids)
      requires Holds(displayStyle, doc, [])
      modifies nonTransparentFaceStorage, transparentFaceStorage, edgeStorage
      ensures Holds(displayStyle, doc, allSolids)
    {
      var k := 0;
      assert allSolids[..0] == [];
      while k < |allSolids|
        invariant 0 <= k <= |allSolids|
        invariant SolidsResolve(doc, allSolids[..k])
        invariant Holds(displayStyle, doc, allSolids[..k])
      {
        var solid := allSolids[k];
        PrefixSnoc(allSolids, k);
        ProcessSolid(allSolids[..k], solid, doc, displayStyle);
        k := k + 1;
      }
      PrefixFull(allSolids);
    }

    /**
     * `CreateBufferStorageForElement`: three fresh storages in `displayStyle`;
     * the solids above the volume threshold; then, solid after solid, the face
     * and edge loops followed by a repacking of all three storages. What
     * survives is one build over everything collected.
     */
    method CreateBufferStorageForElement(geometry: seq<GeometryObject>, doc: Document, displayStyle: DisplayStyle)
      requires SolidsResolve(doc, KeptSolids(geometry))
      modifies this
      ensures fresh(nonTransparentFaceStorage) && fresh(transparentFaceStorage) && fresh(edgeStorage)
      ensures Built(geometry, doc, displayStyle)
    {
      NewStorages(doc, displayStyle);
      var allSolids := CollectSolids(geometry);
      ProcessSolids(allSolids, doc, displayStyle);
    }

    /**
     * The `FlushBuffer` calls of one `RenderScene` after the rebuild test: the
     * face storage of the pass unless the style is wireframe, then the edge
     * storage unless the style is plain shading, each only when it has primitives.
     */
    function Submitted(displayStyle: DisplayStyle, isTransparentPass: bool): seq<FlushCall>
      requires nonTransparentFaceStorage != null && transparentFaceStorage != null && edgeStorage != null
      reads this, nonTransparentFaceStorage, transparentFaceStorage, edgeStorage
    {
      FaceCalls(displayStyle, if isTransparentPass then transparentFaceStorage else nonTransparentFaceStorage) +
      EdgeCalls(displayStyle, edgeStorage)
    }

    /** Every call a valid, drawable and current server submits hands the host a consistent buffer pair. */
    lemma SubmittedConsistent(displayStyle: DisplayStyle, isTransparentPass: bool)
      requires Valid() && !RebuildNeeded(displayStyle)
      requires nonTransparentFaceStorage != null && transparentFaceStorage != null && edgeStorage != null
      ensures Drawable() ==> forall c :: c in Submitted(displayStyle, isTransparentPass) ==> FlushConsistent(c)
    {
      if !Drawable() {
        return;
      }
      var faces := if isTransparentPass then transparentFaceStorage else nonTransparentFaceStorage;
      FaceCallsConsistent(displayStyle, faces, offset);
      EdgeCallsConsistent(displayStyle, edgeStorage, offset);
      AllConsistentConcat(FaceCalls(displayStyle, faces), EdgeCalls(displayStyle, edgeStorage));
    }

    /** A build from geometry Revit can hand out is drawable, and splits the faces by alpha. */
    lemma BuiltPartition(geometry: seq<GeometryObject>, doc: Document, style: DisplayStyle)
      requires SolidsResolve(doc, KeptSolids(geometry)) && Built(geometry, doc, style)
      ensures forall mi :: mi in transparentFaceStorage.meshes ==> mi.color.transparency > 0
      ensures forall mi :: mi in nonTransparentFaceStorage.meshes ==> mi.color.transparency == 0
      ensures SolidsDrawable(KeptSolids(geometry)) ==> Drawable()
    {
      var solids := KeptSolids(geometry);
      OwnFaceBuild(nonTransparentFaceStorage, style, SolidsInto(solids, doc, false), offset);
      OwnFaceBuild(transparentFaceStorage, style, SolidsInto(solids, doc, true), offset);
      OwnEdgeBuild(edgeStorage, style, SolidsPolylines(solids), offset);
      SolidsPartition(solids, doc);
    }

    /** A build in `style` leaves nothing to rebuild in that style. */
    lemma BuiltIsCurrent(geometry: seq<GeometryObject>, doc: Document, style: DisplayStyle)
      requires SolidsResolve(doc, KeptSolids(geometry)) && Built(geometry, doc, style)
      ensures !RebuildNeeded(style)
    {
      var solids := KeptSolids(geometry);
      FaceBuildIsCurrent(nonTransparentFaceStorage, style, SolidsInto(solids, doc, false), offset);
      FaceBuildIsCurrent(transparentFaceStorage, style, SolidsInto(solids, doc, true), offset);
      EdgeBuildIsCurrent(edgeStorage, style, SolidsPolylines(solids), offset);
    }

    /** The rebuild half of `RenderScene`: a fresh build when a storage is missing or out of date. */
    method Refresh(geometry: seq<GeometryObject>, doc: Document, displayStyle: DisplayStyle) returns (rebuilt: bool)
      requires Valid()
      requires SolidsResolve(doc, KeptSolids(geometry))
      modifies this
      ensures rebuilt == old(RebuildNeeded(displayStyle))
      ensures old(HasDeadHandle()) ==> rebuilt
      ensures rebuilt ==> fresh(nonTransparentFaceStorage) && fresh(transparentFaceStorage) && fresh(edgeStorage) &&
                          Built(geometry, doc, displayStyle)
      ensures !rebuilt ==> unchanged(this)
      ensures Valid() && !RebuildNeeded(displayStyle)
      ensures nonTransparentFaceStorage != null && transparentFaceStorage != null && edgeStorage != null
    {
      if HasDeadHandle() {
        DeadHandleForcesRebuild(displayStyle);
      }
      rebuilt := RebuildNeeded(displayStyle);
      if rebuilt {
        CreateBufferStorageForElement(geometry, doc, displayStyle);
        HoldsIsValid(displayStyle, doc, KeptSolids(geometry));
        BuiltIsCurrent(geometry, doc, displayStyle);
      }
    }

    /**
     * `RenderScene`: rebuilds the storages from the element's geometry when one
     * is missing or out of date, then submits the face storage of the pass and
     * the edge storage. A second call in the same style does not rebuild.
     */
    method RenderScene(geometry: seq<GeometryObject>, doc: Document, displayStyle: DisplayStyle, isTransparentPass: bool)
      returns (rebuilt: bool, flushes: seq<FlushCall>)
      requires Valid()
      requires SolidsResolve(doc, KeptSolids(geometry))
      modifies this
      ensures rebuilt == old(RebuildNeeded(displayStyle))
      ensures rebuilt ==> fresh(nonTransparentFaceStorage) && fresh(transparentFaceStorage) && fresh(edgeStorage) &&
                          Built(geometry, doc, displayStyle)
      ensures !rebuilt ==> unchanged(this)
      ensures Valid() && !RebuildNeeded(displayStyle)
      ensures nonTransparentFaceStorage != null && transparentFaceStorage != null && edgeStorage != null
      ensures flushes == Submitted(displayStyle, isTransparentPass)
      ensures Drawable() ==> forall c :: c in flushes ==> FlushConsistent(c)
      ensures old(HasDeadHandle()) ==> rebuilt
    {
      rebuilt := Refresh(geometry, doc, displayStyle);
      flushes := Submitted(displayStyle, isTransparentPass);
      SubmittedConsistent(displayStyle, isTransparentPass);
    }
  }
}
