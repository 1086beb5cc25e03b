/**
 * What the accumulation loops of `CreateBufferStorageForElement` collect from an
 * element's geometry: the solids above the volume threshold, their faces above
 * the area threshold split by transparency, and their edges above the length
 * threshold as polylines, all in geometry order.
 */
module ElementClassification {
  import opened Geometry
  import opened Graphics
  import opened Helper
  import opened RenderingPassStorage
  import opened ElementBuffers

  /** The thresholds of the degeneracy filters (`1e-06` in the source). */
  const VolumeTolerance: real := 0.000001
  const AreaTolerance: real := 0.000001
  const LengthTolerance: real := 0.000001

  /** `allSolids`: the solids of the geometry whose volume exceeds the threshold. */
  function KeptSolids(geometry: seq<GeometryObject>): seq<Solid>
  {
    if |geometry| == 0 then []
    else
      var g := geometry[|geometry| - 1];
      KeptSolids(geometry[..|geometry| - 1]) +
        (if g.SolidObject? && g.solid.volume > VolumeTolerance then [g.solid] else [])
  }

  predicate FaceKept(face: Face)
  {
    face.area > AreaTolerance
  }

  /** Every face the loop does not skip has a material id the lookup can resolve. */
  predicate FacesResolve(doc: Document, faces: seq<Face>)
  {
    forall f :: 0 <= f < |faces| && FaceKept(faces[f]) ==> Resolves(doc, faces[f].materialId)
  }

  predicate SolidsResolve(doc: Document, solids: seq<Solid>)
  {
    forall s :: 0 <= s < |solids| ==> FacesResolve(doc, solids[s].faces)
  }

  /** The `MeshInfo` built for a face, with the colour its material resolves to. */
  function FaceMeshInfo(face: Face, doc: Document): MeshInfo
    requires Resolves(doc, face.materialId)
  {
    MeshInfo(face.mesh, face.normal, ResolvedColor(doc, face.materialId))
  }

  /** What one face adds to the storage whose transparency flag is `transparent`: itself or nothing. */
  function FaceStep(face: Face, doc: Document, transparent: bool): seq<MeshInfo>
    requires FaceKept(face) ==> Resolves(doc, face.materialId)
  {
    if FaceKept(face) && ResolvedTransparent(doc, face.materialId) == transparent
    then [FaceMeshInfo(face, doc)] else []
  }

  /** The kept faces whose transparency flag is `transparent`, in order. */
  function FacesInto(faces: seq<Face>, doc: Document, transparent: bool): seq<MeshInfo>
    requires FacesResolve(doc, faces)
  {
    if |faces| == 0 then []
    else FacesInto(faces[..|faces| - 1], doc, transparent) + FaceStep(faces[|faces| - 1], doc, transparent)
  }

  /** The meshes one storage collects over all solids. */
  function SolidsInto(solids: seq<Solid>, doc: Document, transparent: bool): seq<MeshInfo>
    requires SolidsResolve(doc, solids)
  {
    if |solids| == 0 then []
    else SolidsInto(solids[..|solids| - 1], doc, transparent) + FacesInto(solids[|solids| - 1].faces, doc, transparent)
  }

  predicate EdgeKept(edge: Edge)
  {
    edge.approximateLength > LengthTolerance
  }

  /** What one edge adds to the edge storage: its tessellation or nothing. */
  function EdgeStep(edge: Edge): seq<seq<XYZ>>
  {
    if EdgeKept(edge) then [edge.tessellation] else []
  }

  /** The tessellations of the kept edges, in order. */
  function EdgePolylines(edges: seq<Edge>): seq<seq<XYZ>>
  {
    if |edges| == 0 then []
    else EdgePolylines(edges[..|edges| - 1]) + EdgeStep(edges[|edges| - 1])
  }

  /** The accumulation of a freshly constructed storage. */
  function Initial(style: DisplayStyle): Accumulation
  {
    Accumulation(style, [], [], 0, 0)
  }

  /** A storage's accumulation after the face loop appends `added`, with their vertex and triangle counts. */
  function WithFaces(a: Accumulation, added: seq<MeshInfo>): Accumulation
  {
    a.(meshes := a.meshes + added,
       vertexBufferCount := a.vertexBufferCount + TotalVertices(added),
       primitiveCount := a.primitiveCount + TotalTriangles(added))
  }

  /** A storage's accumulation after the edge loop appends `added`, with their point and segment counts. */
  function WithPolylines(a: Accumulation, added: seq<seq<XYZ>>): Accumulation
  {
    a.(edgeXYZs := a.edgeXYZs + added,
       vertexBufferCount := a.vertexBufferCount + TotalPoints(added),
       primitiveCount := a.primitiveCount + TotalSegments(added))
  }

  function SolidsPolylines(solids: seq<Solid>): seq<seq<XYZ>>
  {
    if |solids| == 0 then []
    else SolidsPolylines(solids[..|solids| - 1]) + EdgePolylines(solids[|solids| - 1].edges)
  }

  /** How many faces pass the area filter, and how many vertices and triangles they carry. */
  function KeptFaceCount(faces: seq<Face>): nat
  {
    if |faces| == 0 then 0
    else KeptFaceCount(faces[..|faces| - 1]) + (if FaceKept(faces[|faces| - 1]) then 1 else 0)
  }

  function KeptFaceVertices(faces: seq<Face>): nat
  {
    if |faces| == 0 then 0
    else
      var face := faces[|faces| - 1];
      KeptFaceVertices(faces[..|faces| - 1]) + (if FaceKept(face) then |face.mesh.vertices| else 0)
  }

  function KeptFaceTriangles(faces: seq<Face>): nat
  {
    if |faces| == 0 then 0
    else
      var face := faces[|faces| - 1];
      KeptFaceTriangles(faces[..|faces| - 1]) + (if FaceKept(face) then |face.mesh.triangles| else 0)
  }

  /** The resolved flag is exactly "the resolved colour is not opaque". */
  lemma TransparentIffAlpha(doc: Document, id: ElementId)
    requires Resolves(doc, id)
    ensures ResolvedTransparent(doc, id) <==> ResolvedColor(doc, id).transparency > 0
    ensures ResolvedTransparent(doc, id) <==> id != InvalidElementId && doc.materials[id].transparency > 0
  {
  }

  /**
   * The two storages split the kept faces: together they hold every kept face
   * once, with all its vertices and triangles; the transparent one holds
   * exactly the faces with a positive alpha, the opaque one those with alpha 0.
   */
  lemma {:induction false} FacePartition(faces: seq<Face>, doc: Document)
    requires FacesResolve(doc, faces)
    ensures forall mi :: mi in FacesInto(faces, doc, true) ==> mi.color.transparency > 0
    ensures forall mi :: mi in FacesInto(faces, doc, false) ==> mi.color.transparency == 0
    ensures |FacesInto(faces, doc, true)| + |FacesInto(faces, doc, false)| == KeptFaceCount(faces)
    ensures TotalVertices(FacesInto(faces, doc, true)) + TotalVertices(FacesInto(faces, doc, false)) ==
      KeptFaceVertices(faces)
    ensures TotalTriangles(FacesInto(faces, doc, true)) + TotalTriangles(FacesInto(faces, doc, false)) ==
      KeptFaceTriangles(faces)
  {
    if |faces| > 0 {
      var init := faces[..|faces| - 1];
      var face := faces[|faces| - 1];
      FacePartition(init, doc);
      TotalVerticesAppend(FacesInto(init, doc, true), FaceStep(face, doc, true));
      TotalVerticesAppend(FacesInto(init, doc, false), FaceStep(face, doc, false));
      if FaceKept(face) {
        TransparentIffAlpha(doc, face.materialId);
        assert TotalVertices([FaceMeshInfo(face, doc)]) == |face.mesh.vertices|;
        assert TotalTriangles([FaceMeshInfo(face, doc)]) == |face.mesh.triangles|;
      }
    }
  }

  /** Appending in two steps accumulates what appending the two lists at once does. */
  lemma WithFacesTwice(a: Accumulation, x: seq<MeshInfo>, y: seq<MeshInfo>)
    ensures WithFaces(WithFaces(a, x), y) == WithFaces(a, x + y)
    ensures WithFaces(a, []) == a
  {
    TotalVerticesAppend(x, y);
    assert a.meshes + x + y == a.meshes + (x + y);
    assert a.meshes + [] == a.meshes;
  }

  lemma WithPolylinesTwice(a: Accumulation, x: seq<seq<XYZ>>, y: seq<seq<XYZ>>)
    ensures WithPolylines(WithPolylines(a, x), y) == WithPolylines(a, x + y)
    ensures WithPolylines(a, []) == a
  {
    EdgeTotalsAppend(x, y);
    assert a.edgeXYZs + x + y == a.edgeXYZs + (x + y);
    assert a.edgeXYZs + [] == a.edgeXYZs;
  }

  /** One more face of the loop adds its step to the faces collected so far. */
  lemma FacesIntoStep(prefix: seq<Face>, face: Face, doc: Document, transparent: bool)
    requires FacesResolve(doc, prefix) && (FaceKept(face) ==> Resolves(doc, face.materialId))
    ensures FacesResolve(doc, prefix + [face])
    ensures FacesInto(prefix + [face], doc, transparent) == FacesInto(prefix, doc, transparent) + FaceStep(face, doc, transparent)
  {
    var all := prefix + [face];
    assert all[..|all| - 1] == prefix;
    assert forall f :: 0 <= f < |prefix| ==> prefix[f] == all[f];
  }

  /** One more edge of the loop adds its step to the polylines collected so far. */
  lemma EdgePolylinesStep(prefix: seq<Edge>, edge: Edge)
    ensures EdgePolylines(prefix + [edge]) == EdgePolylines(prefix) + EdgeStep(edge)
  {
    var all := prefix + [edge];
    assert all[..|all| - 1] == prefix;
  }

  /** Revit's guarantees on the geometry it hands out: local mesh indices in range, tessellations with a point. */
  predicate SolidsDrawable(solids: seq<Solid>)
  {
    forall s :: 0 <= s < |solids| ==>
      (forall f :: 0 <= f < |solids[s].faces| ==> solids[s].faces[f].mesh.WellFormed()) &&
      (forall e :: 0 <= e < |solids[s].edges| ==> |solids[s].edges[e].tessellation| > 0)
  }

  /**
   * Over all solids, the transparent storage receives only faces with a
   * positive alpha and the opaque one only faces with alpha 0; on drawable
   * geometry every collected mesh is well formed and every polyline has a point.
   */
  lemma {:induction false} SolidsPartition(solids: seq<Solid>, doc: Document)
    requires SolidsResolve(doc, solids)
    ensures forall mi :: mi in SolidsInto(solids, doc, true) ==> mi.color.transparency > 0
    ensures forall mi :: mi in SolidsInto(solids, doc, false) ==> mi.color.transparency == 0
    ensures SolidsDrawable(solids) ==>
      AllWellFormed(SolidsInto(solids, doc, true)) && AllWellFormed(SolidsInto(solids, doc, false)) &&
      forall e :: 0 <= e < |SolidsPolylines(solids)| ==> |SolidsPolylines(solids)[e]| > 0
  {
    if |solids| > 0 {
      var init := solids[..|solids| - 1];
      var last := solids[|solids| - 1];
      assert SolidsResolve(doc, init) by {
        assert forall s :: 0 <= s < |init| ==> init[s] == solids[s];
      }
      SolidsPartition(init, doc);
      FacePartition(last.faces, doc);
      if SolidsDrawable(solids) {
        assert SolidsDrawable(init) by {
          assert forall s :: 0 <= s < |init| ==> init[s] == solids[s];
        }
        FacesWellFormed(last.faces, doc, true);
        FacesWellFormed(last.faces, doc, false);
        EdgesNonEmpty(last.edges);
      }
    }
  }

  lemma {:induction false} FacesWellFormed(faces: seq<Face>, doc: Document, transparent: bool)
    requires FacesResolve(doc, faces)
    requires forall f :: 0 <= f < |faces| ==> faces[f].mesh.WellFormed()
    ensures AllWellFormed(FacesInto(faces, doc, transparent))
  {
    if |faces| > 0 {
      var init := faces[..|faces| - 1];
      assert forall f :: 0 <= f < |init| ==> init[f] == faces[f];
      FacesWellFormed(init, doc, transparent);
    }
  }

  lemma {:induction false} EdgesNonEmpty(edges: seq<Edge>)
    requires forall e :: 0 <= e < |edges| ==> |edges[e].tessellation| > 0
    ensures forall e :: 0 <= e < |EdgePolylines(edges)| ==> |EdgePolylines(edges)[e]| > 0
  {
    if |edges| > 0 {
      var init := edges[..|edges| - 1];
      assert forall e :: 0 <= e < |init| ==> init[e] == edges[e];
      EdgesNonEmpty(init);
    }
  }

  /** One more solid of the per-solid loop adds its faces' step to what the earlier solids collected. */
  lemma SolidsIntoStep(prefix: seq<Solid>, solid: Solid, doc: Document, transparent: bool)
    requires SolidsResolve(doc, prefix) && FacesResolve(doc, solid.faces)
    ensures SolidsResolve(doc, prefix + [solid])
    ensures SolidsInto(prefix + [solid], doc, transparent) == SolidsInto(prefix, doc, transparent) + FacesInto(solid.faces, doc, transparent)
    ensures SolidsPolylines(prefix + [solid]) == SolidsPolylines(prefix) + EdgePolylines(solid.edges)
  {
    var all := prefix + [solid];
    assert all[..|all| - 1] == prefix;
    assert forall s :: 0 <= s < |prefix| ==> prefix[s] == all[s];
  }
}
