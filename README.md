# DirectContext3D buffer pipeline — a Dafny model

This project models the CPU-side core of the Revit DirectContext3D sample:
- **`RevitElementDrawingServer`** takes a Revit element's solids and draws a shifted copy of them. It does the following:
  - filters out degenerate solids, faces and edges;
  - splits the faces into an opaque and a transparent storage by material;
  - packs each storage into a vertex and index buffer pair. The vertex format and colour depend on the display style, and a vertex prefix-sum table remaps each mesh's indices;
  - rebuilds lazily: only when a storage is missing or out of date for the requested display style;
  - submits triangles and lines to the renderer.
- **`CustomServer`** draws a fixed 24-vertex cube (`MeshCube`) from two buffer storages in the same way. It also resets the bounding box that all cube servers share.

Modules follow the source files:

| module | file | source |
|---|---|---|
| `Wrappers`, `Sequences` | `wrappers.dfy`, `sequences.dfy` | helpers: `Option`, prefix lemmas |
| `Geometry` | `geometry.dfy` | Revit `XYZ`, meshes, faces, edges, solids, materials, documents |
| `Graphics` | `graphics.dfy` | DirectContext3D vertices, buffers, formats, flush calls |
| `Helper` | `helper.dfy` | `Helper.cs` |
| `RenderingPassStorage` | `rendering_pass_buffer_storage.dfy` | `RenderingPassBufferStorage.cs`, `MeshInfo.cs` |
| `CustomStorage` | `custom_buffer_storage.dfy` | `CustomBufferStorage.cs` |
| `ElementBuffers` | `element_buffers.dfy` | the buffer contents `ProcessFaces`/`ProcessEdges` write, as functions |
| `ElementClassification` | `element_classification.dfy` | what the solid/face/edge loops accumulate, as functions |
| `ElementServer` | `revit_element_drawing_server.dfy` | `RevitElementDrawingServer.cs` |
| `CubeMesh` | `custom_mesh_info.dfy` | `CustomMeshInfo.cs` |
| `CubeServer` | `custom_server.dfy` | `CustomServer.cs` |

The two servers and the two storage kinds are classes whose methods update fields in place, as in the source. The loops that fill vertex and index streams are `while` loops. Each one is proved against a specification function on sequences; lemmas then establish the properties of those functions:
- lengths;
- element-wise layout;
- indices in range;
- the opaque/transparent partition;
- the consistency of every submitted draw call with the buffers it names.

The renderer's validity check is `FlushConsistent` in `Graphics`:
- the vertex buffer, index buffer, vertex format and effect instance all exist and are valid;
- the primitive count matches the index stream;
- every index points inside the vertex buffer.

Two facts about the cube server follow from the source's `DistinctEdgeCount` being computed from `Edges` rather than `DistinctEdges`:
- the cube's line flush is provably *not* consistent: it claims more lines than its index buffer holds (`CubeServer.EdgeFlushMiscounted`, `CubeServer.CustomServer.SubmittedChecked`);
- the struct `Index2d.Equals` compares index sums, so `Distinct` also merges cube edges that are not the same. The edges (0,5) and (1,4) are both genuine and both sum to 5, and `Distinct` keeps at most one of them (`CubeMesh.DistinctMergesCubeEdges`). Since every cube index sum lies in 0..46, `Distinct` keeps at most 47 lines (`CubeMesh.DistinctEdgesAtMost47`).

The model states code as written; the bugs are exhibited as lemmas, not corrected.

Two further facts of the code:
1. The alpha of a material is the *truncation* of `transparency / 100 * 255`: the cast to `uint` drops the fraction (`Helper.Alpha`).
2. The cube server flushes its lines in every display style, including `Shading`. The element server skips them under `Shading`.

A graphics object can stop being valid without the sample doing anything, for example when the device is reset. `LoseVertexBuffer` on a storage, and `LoseVertexBuffers` on each server, model that event: they mark the vertex buffers invalid. The server stays valid, but every storage with primitives then needs an update, and the next `RenderScene` rebuilds in any style.

## Model

| member | source | states |
|---|---|---|
| Helper.Alpha | DirectContext3DAPI/Helper.cs:32-33 | the 0..255 alpha is the truncation of transparency/100*255; it is 0 exactly for 0 % and 255 for 100 % |
| Helper.MaterialExtract | DirectContext3DAPI/Helper.cs:22-41 | invalid id leaves both refs untouched; otherwise the colour is the material's RGB with the converted alpha; the transparent flag ends up set iff it was set or the material's transparency is positive; from the default inputs the result is the resolved colour and transparency |
| RenderingPassStorage.RenderingPassBufferStorage.constructor | DirectContext3DAPI/RenderingPassBufferStorage.cs:43-48 | a new storage has the given style, empty mesh and polyline lists, zero counts and no buffers |
| RenderingPassStorage.RenderingPassBufferStorage.NeedsUpdate | DirectContext3DAPI/RenderingPassBufferStorage.cs:57-70 | a style change always needs an update; in the same style a storage without primitives never does, and one with primitives does iff one of its four buffers is missing or invalid |
| RenderingPassStorage.RenderingPassBufferStorage.LoseVertexBuffer | DirectContext3DAPI/RenderingPassBufferStorage.cs:62-67 | the graphics layer invalidating the vertex buffer: its contents stay, its flag drops, nothing else in the storage changes, and a storage with primitives then needs an update in every style |
| CustomStorage.CustomBufferStorage.constructor | DirectContext3DAPI/CustomBufferStorage.cs:32-35 | a new storage has the given style, zero counts and no buffers |
| CustomStorage.CustomBufferStorage.NeedsUpdate | DirectContext3DAPI/CustomBufferStorage.cs:44-57 | same update rule as the rendering-pass storage: style change, or primitives with a missing/invalid buffer |
| CustomStorage.CustomBufferStorage.LoseVertexBuffer | DirectContext3DAPI/CustomBufferStorage.cs:49-54 | the same invalidation on a cube storage, with the same consequence |
| ElementBuffers.VerticesBefore | DirectContext3DAPI/RevitElementDrawingServer.cs:248-249 | the prefix-sum table has one entry per mesh plus one, and entry i is the vertex total of the meshes before mesh i |
| ElementBuffers.FaceIndicesSnoc | DirectContext3DAPI/RevitElementDrawingServer.cs:331-345 | the index stream of one more mesh appends that mesh's triangles shifted by the vertices before it |
| ElementBuffers.FaceVerticesSnoc | DirectContext3DAPI/RevitElementDrawingServer.cs:273-307 | the vertex stream and the prefix table of one more mesh append that mesh's vertices and its running total |
| ElementBuffers.VerticesBeforeSnoc | DirectContext3DAPI/RevitElementDrawingServer.cs:248-249 | the prefix table of one more mesh appends its last entry plus that mesh's vertex count |
| ElementBuffers.TotalVerticesAppend | DirectContext3DAPI/RevitElementDrawingServer.cs:196-209 | vertex and triangle totals add over concatenated mesh lists |
| ElementBuffers.FaceVerticesLength | DirectContext3DAPI/RevitElementDrawingServer.cs:273-307 | the face vertex stream holds exactly the vertex total of its meshes |
| ElementBuffers.FaceVertexAt | DirectContext3DAPI/RevitElementDrawingServer.cs:273-307 | vertex k of mesh m sits at position verticesBefore[m] + k of the stream |
| ElementBuffers.FaceVerticesLayout | DirectContext3DAPI/RevitElementDrawingServer.cs:252-262 | every vertex of the stream has the one format chosen for the style (position+normal+colour when shading, position+colour otherwise) |
| ElementBuffers.HlrFaceVertices | DirectContext3DAPI/RevitElementDrawingServer.cs:289-305 | under hidden-line style every vertex is the shifted position coloured white with its own mesh's transparency |
| ElementBuffers.FaceIndicesLength | DirectContext3DAPI/RevitElementDrawingServer.cs:316-345 | the face index stream holds exactly the triangle total of its meshes |
| ElementBuffers.FaceIndexAt | DirectContext3DAPI/RevitElementDrawingServer.cs:331-345 | triangle t of mesh m is written at position trianglesBefore + t with each corner shifted by verticesBefore[m] |
| ElementBuffers.FaceIndicesInRange | DirectContext3DAPI/RevitElementDrawingServer.cs:331-345 | for well-formed meshes every written triangle points inside the vertex stream |
| ElementBuffers.PointsBefore | DirectContext3DAPI/RevitElementDrawingServer.cs:378-379 | the edge prefix table has one entry per polyline plus one, entry i being the point total before polyline i |
| ElementBuffers.EdgeIndicesSnoc | DirectContext3DAPI/RevitElementDrawingServer.cs:416-425 | one more polyline appends its consecutive-point lines shifted by the points before it |
| ElementBuffers.EdgeVerticesSnoc | DirectContext3DAPI/RevitElementDrawingServer.cs:388-396 | one more polyline appends its shifted points and its running total |
| ElementBuffers.EdgeTotalsAppend | DirectContext3DAPI/RevitElementDrawingServer.cs:217-226 | point and segment totals add over concatenated polyline lists |
| ElementBuffers.EdgeVerticesLength | DirectContext3DAPI/RevitElementDrawingServer.cs:372-396 | the edge vertex stream holds exactly the point total and every vertex is position-only |
| ElementBuffers.EdgeIndicesLength | DirectContext3DAPI/RevitElementDrawingServer.cs:407-425 | the edge index stream holds one line per consecutive point pair, which equals the accumulated segment count when no polyline is empty |
| ElementBuffers.EdgeIndexAt | DirectContext3DAPI/RevitElementDrawingServer.cs:416-425 | line j of polyline e joins points before+j and before+j+1 |
| ElementBuffers.EdgeIndicesInRange | DirectContext3DAPI/RevitElementDrawingServer.cs:416-425 | every written line joins two consecutive points inside the vertex stream |
| ElementClassification.TransparentIffAlpha | DirectContext3DAPI/Helper.cs:33-40 | a resolved material is transparent iff its converted alpha is positive iff its id is valid and its transparency is positive |
| ElementClassification.FacePartition | DirectContext3DAPI/RevitElementDrawingServer.cs:176-212 | the face loop sends every kept face to exactly one storage: transparent meshes have positive alpha, opaque ones zero, and the two storages' mesh, vertex and triangle counts add up to those of the kept faces |
| ElementClassification.WithFacesTwice | DirectContext3DAPI/RevitElementDrawingServer.cs:196-209 | adding meshes in two batches equals adding them at once; adding none changes nothing |
| ElementClassification.WithPolylinesTwice | DirectContext3DAPI/RevitElementDrawingServer.cs:217-226 | adding polylines in two batches equals adding them at once; adding none changes nothing |
| ElementClassification.FacesIntoStep | DirectContext3DAPI/RevitElementDrawingServer.cs:176-212 | the face loop over one more face appends what that face contributes |
| ElementClassification.EdgePolylinesStep | DirectContext3DAPI/RevitElementDrawingServer.cs:217-226 | the edge loop over one more edge appends what that edge contributes |
| ElementClassification.SolidsPartition | DirectContext3DAPI/RevitElementDrawingServer.cs:173-232 | over all kept solids the transparent storage gets only positive-alpha meshes and the opaque one only zero-alpha meshes; drawable solids yield well-formed meshes and non-empty polylines |
| ElementClassification.FacesWellFormed | DirectContext3DAPI/RevitElementDrawingServer.cs:176-212 | faces with well-formed triangulations yield only well-formed meshes |
| ElementClassification.EdgesNonEmpty | DirectContext3DAPI/RevitElementDrawingServer.cs:217-226 | edges whose tessellations have a point yield only non-empty polylines |
| ElementClassification.SolidsIntoStep | DirectContext3DAPI/RevitElementDrawingServer.cs:173-232 | the solid loop over one more solid appends that solid's meshes and polylines |
| ElementServer.AllConsistentConcat | DirectContext3DAPI/RevitElementDrawingServer.cs:126-143 | two lists of consistent draw calls submit together as consistent calls |
| ElementServer.FaceCallsConsistent | DirectContext3DAPI/RevitElementDrawingServer.cs:126-133 | a packed face storage of well-formed meshes only ever submits consistent triangle calls |
| ElementServer.EdgeCallsConsistent | DirectContext3DAPI/RevitElementDrawingServer.cs:136-143 | a packed edge storage of non-empty polylines only ever submits consistent line calls |
| ElementServer.OwnFaceBuild | DirectContext3DAPI/RevitElementDrawingServer.cs:155-156 | a face storage built in a style from some meshes records that style and those meshes |
| ElementServer.OwnEdgeBuild | DirectContext3DAPI/RevitElementDrawingServer.cs:157 | an edge storage built in a style from some polylines records that style and those polylines |
| ElementServer.FaceBuildIsCurrent | DirectContext3DAPI/RenderingPassBufferStorage.cs:57-70 | a freshly built face storage, with valid graphics objects when it has meshes, needs no update in the style it was built in |
| ElementServer.EdgeBuildIsCurrent | DirectContext3DAPI/RenderingPassBufferStorage.cs:57-70 | a freshly built edge storage, with valid graphics objects when it has polylines, needs no update in the style it was built in |
| ElementServer.FaceFlushConsistent | DirectContext3DAPI/RevitElementDrawingServer.cs:127-133 | the triangle flush of a non-empty built face storage of well-formed meshes with valid graphics objects is consistent |
| ElementServer.EdgeFlushConsistent | DirectContext3DAPI/RevitElementDrawingServer.cs:137-143 | the line flush of a non-empty built edge storage of non-empty polylines with valid graphics objects is consistent |
| ElementServer.StoreBuffers | DirectContext3DAPI/RevitElementDrawingServer.cs:262-355 | storing the packed buffers sets format, vertex buffer, index count, index buffer, vertex format and effect, and leaves the accumulated lists and counts alone |
| ElementServer.AccumulateFace | DirectContext3DAPI/RevitElementDrawingServer.cs:179-209 | a face at or below the area tolerance is skipped; otherwise its mesh, normal and resolved colour go to exactly one storage by transparency, with its vertex and triangle counts |
| ElementServer.AccumulateEdge | DirectContext3DAPI/RevitElementDrawingServer.cs:217-226 | an edge at or below the length tolerance is skipped; otherwise its tessellation is appended, adding its point count and point count minus one |
| ElementServer.AccumulateFaces | DirectContext3DAPI/RevitElementDrawingServer.cs:176-212 | the face loop of a solid adds to each storage exactly the faces the classification assigns it |
| ElementServer.AccumulateEdges | DirectContext3DAPI/RevitElementDrawingServer.cs:217-226 | the edge loop of a solid adds exactly the polylines of its kept edges |
| ElementServer.RevitElementDrawingServer.constructor | DirectContext3DAPI/RevitElementDrawingServer.cs:37-44 | a new server keeps its offset and has no storages yet |
| ElementServer.RevitElementDrawingServer.HoldsIsValid | DirectContext3DAPI/RevitElementDrawingServer.cs:152-232 | three storages built from some solids form a valid server state |
| ElementServer.RevitElementDrawingServer.AppendMeshVertices | DirectContext3DAPI/RevitElementDrawingServer.cs:277-304 | the per-mesh vertex loop appends that mesh's shifted vertices in the style's layout |
| ElementServer.RevitElementDrawingServer.ExtendVerticesBefore | DirectContext3DAPI/RevitElementDrawingServer.cs:248-249 | one step of the prefix table: the table for one more mesh |
| ElementServer.RevitElementDrawingServer.WriteFaceVertices | DirectContext3DAPI/RevitElementDrawingServer.cs:248-307 | the mesh loop writes the whole face vertex stream and the vertices-before table |
| ElementServer.RevitElementDrawingServer.WriteFaceIndices | DirectContext3DAPI/RevitElementDrawingServer.cs:331-345 | the triangle loop writes the whole remapped face index stream |
| ElementServer.RevitElementDrawingServer.ProcessFaces | DirectContext3DAPI/RevitElementDrawingServer.cs:239-356 | an empty storage is left untouched; otherwise it is packed with the vertex stream, index stream, index count 3 per triangle, format and effect for its style, all valid, without changing its lists or counts |
| ElementServer.RevitElementDrawingServer.AppendPolylineVertices | DirectContext3DAPI/RevitElementDrawingServer.cs:390-393 | the per-polyline loop appends its shifted points as position vertices |
| ElementServer.RevitElementDrawingServer.WriteEdgeVertices | DirectContext3DAPI/RevitElementDrawingServer.cs:378-396 | the polyline loop writes the whole edge vertex stream and the points-before table |
| ElementServer.RevitElementDrawingServer.WriteEdgeIndices | DirectContext3DAPI/RevitElementDrawingServer.cs:416-425 | the line loop writes the whole remapped line stream |
| ElementServer.RevitElementDrawingServer.ProcessEdges | DirectContext3DAPI/RevitElementDrawingServer.cs:363-435 | an empty storage is left untouched; otherwise it is packed with position vertices, lines, index count 2 per line, position format and effect, all valid, without changing its lists or counts |
| ElementServer.RevitElementDrawingServer.CollectSolids | DirectContext3DAPI/RevitElementDrawingServer.cs:160-171 | the collected solids are the geometry's solids whose volume exceeds the tolerance, in order |
| ElementServer.RevitElementDrawingServer.ProcessSolid | DirectContext3DAPI/RevitElementDrawingServer.cs:173-232 | one solid iteration (face loop, edge loop, packing) leaves the storages as one build over all solids so far |
| ElementServer.RevitElementDrawingServer.NewStorages | DirectContext3DAPI/RevitElementDrawingServer.cs:155-157 | three fresh storages in the style form the build of no solids |
| ElementServer.RevitElementDrawingServer.ProcessSolids | DirectContext3DAPI/RevitElementDrawingServer.cs:173-232 | the solid loop leaves the storages as the build over all the solids |
| ElementServer.RevitElementDrawingServer.CreateBufferStorageForElement | DirectContext3DAPI/RevitElementDrawingServer.cs:152-234 | the rebuild installs three fresh storages holding the build of the element's kept solids in the style |
| ElementServer.RevitElementDrawingServer.SubmittedConsistent | DirectContext3DAPI/RevitElementDrawingServer.cs:123-143 | every call a valid, drawable server that needs no rebuild submits is consistent: passing the rebuild test means every storage with primitives has valid graphics objects |
| ElementServer.RevitElementDrawingServer.BuiltPartition | DirectContext3DAPI/RevitElementDrawingServer.cs:173-232 | after a build the transparent storage holds only positive-alpha meshes and the opaque one only zero-alpha meshes; drawable solids make a drawable server |
| ElementServer.RevitElementDrawingServer.BuiltIsCurrent | DirectContext3DAPI/RevitElementDrawingServer.cs:108-110 | right after a build no rebuild is needed in its style |
| ElementServer.RevitElementDrawingServer.DeadHandleForcesRebuild | DirectContext3DAPI/RevitElementDrawingServer.cs:108-110 | a storage with primitives and a missing or invalid graphics object makes the rebuild test fire in every style |
| ElementServer.RevitElementDrawingServer.LoseVertexBuffers | DirectContext3DAPI/RenderingPassBufferStorage.cs:62-67 | invalidating the three vertex buffers keeps the server valid, and once a storage has primitives the rebuild test fires in every style |
| ElementServer.RevitElementDrawingServer.Refresh | DirectContext3DAPI/RevitElementDrawingServer.cs:108-116 | rebuilds exactly when a storage is missing or needs an update, and always when a storage with primitives has lost a graphics object, into fresh storages holding the build; otherwise nothing changes; afterwards the server is valid and current |
| ElementServer.RevitElementDrawingServer.RenderScene | DirectContext3DAPI/RevitElementDrawingServer.cs:103-150 | the refresh rule above, including the rebuild after a lost graphics object; then the flushes are the pass's face storage unless wireframe and the edges unless shading, each only when non-empty; all are consistent when the server is drawable |
| CubeMesh.EqualsIsEquivalence | DirectContext3DAPI/CustomMeshInfo.cs:190-193 | the sum-based Index2d equality is reflexive, symmetric, transitive and identifies an edge with its reverse |
| CubeMesh.EqualsConflates | DirectContext3DAPI/CustomMeshInfo.cs:190-193 | it also identifies different edges: (0,3) equals (1,2) though it is neither (1,2) nor (2,1) |
| CubeMesh.TablesShape | DirectContext3DAPI/CustomMeshInfo.cs:26-143 | the cube has 24 vertices, 24 normals and 12 triangles, and every triangle corner is a vertex index |
| CubeMesh.TrianglesPerSurface | DirectContext3DAPI/CustomMeshInfo.cs:117-143 | triangles 2k and 2k+1 use only the four vertices of surface k, and each surface is covered by its two triangles |
| CubeMesh.NormalsPerSurface | DirectContext3DAPI/CustomMeshInfo.cs:78-115 | the four vertices of a surface share one normal |
| CubeMesh.NormalsPerpendicular | DirectContext3DAPI/CustomMeshInfo.cs:26-115 | the normal of every surface but surface 3 is perpendicular to all directions within it; surface 3 (x = a) carries (0,1,0), which has component a along its edge from vertex 8 to vertex 9 |
| CubeMesh.StepSquare | DirectContext3DAPI/CustomMeshInfo.cs:151 | a coordinate difference of two corner coordinates squares to 0 or a*a |
| CubeMesh.ApartIffOneAxis | DirectContext3DAPI/CustomMeshInfo.cs:151 | two cube corners are at distance a iff they differ in exactly one coordinate |
| CubeMesh.VerticesAreCorners | DirectContext3DAPI/CustomMeshInfo.cs:26-63 | every vertex is a corner of the cube of side a |
| CubeMesh.EdgesMember | DirectContext3DAPI/CustomMeshInfo.cs:145-159 | the pair loop, stopped at (i, j), has collected exactly the earlier index pairs at distance a |
| CubeMesh.CubeEdgesMembers | DirectContext3DAPI/CustomMeshInfo.cs:145-159 | the edge list holds exactly the index pairs of vertices differing in one coordinate, and with each pair its reverse |
| CubeMesh.DistinctSubset | DirectContext3DAPI/CustomMeshInfo.cs:161 | Distinct keeps only elements of its input and is no longer |
| CubeMesh.DistinctNoDuplicates | DirectContext3DAPI/CustomMeshInfo.cs:161 | no two kept elements are equal under Index2d.Equals |
| CubeMesh.DistinctCovers | DirectContext3DAPI/CustomMeshInfo.cs:161 | every input element is equal to some kept element |
| CubeMesh.DistinctShorter | DirectContext3DAPI/CustomMeshInfo.cs:161 | two different but equal-by-sum inputs make Distinct strictly shorter |
| CubeMesh.LastCovered | DirectContext3DAPI/CustomMeshInfo.cs:161 | an element equal to an earlier one is dropped |
| CubeMesh.DistinctSums | DirectContext3DAPI/CustomMeshInfo.cs:161 | the kept lines have pairwise different index sums, one sum per kept line |
| CubeMesh.MeshCube.constructor | DirectContext3DAPI/CustomMeshInfo.cs:24-169 | the cube holds its vertex, normal and triangle tables, the distance-a pair list and its Distinct, and counts 24 vertices, 12 triangles, and the full pair count as both edge counts |
| CubeMesh.DistinctEdgesFewer | DirectContext3DAPI/CustomMeshInfo.cs:161-167 | the distinct edge list is strictly shorter than the edge count it is reported with |
| CubeMesh.DistinctEdgesInRange | DirectContext3DAPI/CustomMeshInfo.cs:161 | every distinct edge joins two vertex indices below 24 |
| CubeMesh.DistinctMergesCubeEdges | DirectContext3DAPI/CustomMeshInfo.cs:161 | the cube edges (0,5) and (1,4) are both in the edge list and equal by sum, though neither is the other or its reverse, and Distinct keeps at most one of them |
| CubeMesh.DistinctEdgesAtMost47 | DirectContext3DAPI/CustomMeshInfo.cs:161 | for every cube length, Distinct keeps at most 47 of the cube's lines, one per index sum 0..46 |
| CubeServer.SharedBoundingBox.constructor | DirectContext3DAPI/CustomServer.cs:31 | the shared outline starts as (-50,50,-50)..(50,50,50) |
| CubeServer.OutlineEnclosesCube | DirectContext3DAPI/CustomServer.cs:42 | the outline set by a server encloses every vertex of its cube |
| CubeServer.ShorterOutlineMissesCube | DirectContext3DAPI/CustomServer.cs:31-42 | an outline reset by a server with a smaller cube misses a corner of a larger cube, so the servers' shared outline fits only the last one built |
| CubeServer.FaceStream | DirectContext3DAPI/CustomServer.cs:159-167 | one position+normal+colour vertex per cube vertex, with its own normal and the fixed colour |
| CubeServer.PositionStream | DirectContext3DAPI/CustomServer.cs:228-231 | one position vertex per cube vertex |
| CubeServer.TriangleStream | DirectContext3DAPI/CustomServer.cs:186-189 | one triangle per cube triangle with the same corners |
| CubeServer.LineStream | DirectContext3DAPI/CustomServer.cs:247-251 | one line per listed edge with the same ends |
| CubeServer.WriteFaceStream | DirectContext3DAPI/CustomServer.cs:159-167 | the vertex loop writes the face stream |
| CubeServer.WritePositionStream | DirectContext3DAPI/CustomServer.cs:228-231 | the vertex loop writes the position stream |
| CubeServer.WriteTriangleStream | DirectContext3DAPI/CustomServer.cs:186-189 | the triangle loop writes the triangle stream |
| CubeServer.WriteLineStream | DirectContext3DAPI/CustomServer.cs:247-251 | the line loop writes the line stream |
| CubeServer.StoreBuffers | DirectContext3DAPI/CustomServer.cs:146-260 | storing the buffers sets the six buffer fields and leaves style and counts alone |
| CubeServer.FaceFlushConsistent | DirectContext3DAPI/CustomServer.cs:106-113 | the built face storage's triangle flush is consistent |
| CubeServer.EdgeFlushMiscounted | DirectContext3DAPI/CustomServer.cs:213-251 | the built edge storage's lines all point inside its 24 vertices, but it reports more lines than its index buffer holds, so its line flush is not consistent |
| CubeServer.CubeHasEdges | DirectContext3DAPI/CustomMeshInfo.cs:145-159 | a cube of positive side has edges |
| CubeServer.BuildIsCurrent | DirectContext3DAPI/CustomServer.cs:93-94 | freshly built storages with valid graphics objects need no update in their style |
| CubeServer.CustomServer.constructor | DirectContext3DAPI/CustomServer.cs:35-44 | the new server draws a cube of side 1..11, has no storages yet, and resets the shared outline to enclose its cube |
| CubeServer.CustomServer.CanExecute | DirectContext3DAPI/CustomServer.cs:75-81 | the server runs in a view exactly when it is a 3D view |
| CubeServer.CustomServer.GetBoundingBox | DirectContext3DAPI/CustomServer.cs:83-86 | returns the shared outline for any view; while that outline is the one this server set, it encloses every vertex of this server's cube |
| CubeServer.CustomServer.PopulateFaceBuffer | DirectContext3DAPI/CustomServer.cs:142-199 | the face storage gets 24 vertices, 12 triangles, index count 36 and valid position+normal+colour buffers of the cube |
| CubeServer.CustomServer.PopulateEdgeBuffer | DirectContext3DAPI/CustomServer.cs:212-260 | the edge storage gets 24 vertices, the full pair count as primitives, twice that as index count, and valid position buffers holding the distinct edges |
| CubeServer.CustomServer.CreateBufferStorageForMesh | DirectContext3DAPI/CustomServer.cs:132-261 | the rebuild installs two fresh storages holding the cube's face and edge buffers in the style |
| CubeServer.CustomServer.SubmittedCalls | DirectContext3DAPI/CustomServer.cs:106-123 | a built server submits the triangle flush unless wireframe, then the line flush in every style |
| CubeServer.CustomServer.StoragesChecked | DirectContext3DAPI/CustomServer.cs:106-123 | with valid face graphics objects, a built server's triangle flush is consistent; its line flush never is |
| CubeServer.CustomServer.SubmittedChecked | DirectContext3DAPI/CustomServer.cs:106-123 | for a built server that needs no rebuild: one call under wireframe, two otherwise; the triangle call is consistent, the last (line) call never is |
| CubeServer.CustomServer.DeadHandleForcesRebuild | DirectContext3DAPI/CustomServer.cs:93-94 | a storage with primitives and a missing or invalid graphics object makes the rebuild test fire in every style |
| CubeServer.CustomServer.LoseVertexBuffers | DirectContext3DAPI/CustomBufferStorage.cs:49-54 | invalidating both vertex buffers keeps the server valid and makes the rebuild test fire in every style, since a built cube always has primitives |
| CubeServer.CustomServer.Refresh | DirectContext3DAPI/CustomServer.cs:93-97 | rebuilds exactly when a storage is missing or needs an update, and always when a storage with primitives has lost a graphics object, into fresh storages holding the cube; otherwise nothing changes; afterwards the server is valid and current |
| CubeServer.CustomServer.RenderScene | DirectContext3DAPI/CustomServer.cs:88-130 | the refresh rule above, including the rebuild after a lost graphics object; then one or two flushes as in SubmittedChecked: the triangle call is consistent, the line call is not |

## Left out

- Floating point: coordinates, offsets, areas, lengths and volumes are reals, so rounding is not modelled. The cube's corners are integer points and converted to `XYZ` exactly. `DistanceTo(...) == a` becomes a squared integer distance, which agrees exactly for these corners.
- Helper.Alpha: computes `255 * t / 100` on integers, standing in for the single-precision `(uint)((float)t / 100f * 255f)`. The two agree on 0..100 only if the float product does not round below an integer; that float behaviour is not modelled.
- Buffer memory: `Map`/`Unmap`, buffer sizes in floats or shorts, and the stream objects. A buffer is a value holding its vertex or index sequence and a validity flag.
- The renderer (`DrawContext.FlushBuffer`, `IsTransparentPass`): the draw calls are returned as a list of `FlushCall` values and the pass kind is a parameter.
- What makes the host invalidate a graphics object: `LoseVertexBuffer` invalidates the vertex buffer only. Losing any of the other three objects has the same effect on `NeedsUpdate`.
- Exceptions and the `MessageBox` in `RenderScene`'s catch block. A failed material lookup (a null dereference in `MaterialExtract`) is instead excluded by the `Resolves` precondition.
- Revit's own geometry calls (`get_Geometry`, `Triangulate`, `ComputeNormal`, `Tessellate`, `GetMaterialElementId`): their results are the fields of the `Solid`, `Face` and `Edge` values. That meshes are well formed and tessellations are non-empty is an assumption of the drawable lemmas (`SolidsDrawable`), not something the code checks.
- `RevitElementDrawingServer.GetBoundingBox` and `CanExecute`: Revit bounding-box and document queries. `UseInTransparentPass`, the server id and name getters and `Document` are constant getters.
- The effect-instance colour setters at `DirectContext3DAPI/CustomServer.cs:202-205`: EffectInstance is modelled only by its format, and the colours have no effect on the modelled consistency.
- The throwing `ProcessEdges`/`ProcessFaces` stubs of `CustomServer`: they are never called.
- Randomness: `m_random.Next(1, 12)` becomes the constructor's `drawn` parameter with `1 <= drawn < 12`.
- The static `boundingBox`: it is a `SharedBoundingBox` object passed to every server.
- 32-bit `int` overflow of buffer counts and indices: the counts are unbounded integers.
- The hash that `Enumerable.Distinct` uses: `Distinct` is keep-first under `Index2d.Equals` alone. `Index2d` does not override `GetHashCode`, so at run time two sum-equal lines whose default hashes differ are both kept. CubeMesh.DistinctEdgesFewer, CubeMesh.DistinctMergesCubeEdges and CubeMesh.DistinctEdgesAtMost47 are stated for the model's `Distinct`. A hash that combines the two fields by exclusive or gives each merged pair they use, (0,1)/(1,0) and (0,5)/(1,4), one hash, but the model does not fix the runtime hash.
- The storages' `FormatBits` is an `Option` that is `None` until the first packing. The source's enum property instead starts at its default value, which no modelled contract reads before the packing sets it.
- `Vertices.IndexOf`: Revit's `XYZ` is compared here by reference, so each vertex's index is its loop position.
