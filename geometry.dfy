/**
 * The host application's geometry and document values that the drawing servers
 * consume. They stand for the results of the host's geometry queries
 * (triangulation, tessellation, normals, measures), which are inputs here.
 */
module Geometry {

  /** A point or vector; the host stores doubles, modelled here as reals. */
  datatype XYZ = XYZ(x: real, y: real, z: real)

  /** `p + q` on points and vectors. */
  function Add(p: XYZ, q: XYZ): XYZ
  {
    XYZ(p.x + q.x, p.y + q.y, p.z + q.z)
  }

  /** A colour channel or a transparency value that fits in one byte. */
  type Byte = b: int | 0 <= b <= 255

  /** A material transparency percentage. */
  type Percent = t: int | 0 <= t <= 100

  datatype Color = Color(red: Byte, green: Byte, blue: Byte)

  /** A colour plus a transparency (0 is opaque, 255 fully transparent). */
  datatype ColorWithTransparency = ColorWithTransparency(red: Byte, green: Byte, blue: Byte, transparency: Byte)

  /** One triangle of a mesh, by local (0-based) vertex indices. */
  datatype MeshTriangle = MeshTriangle(i0: nat, i1: nat, i2: nat)

  /** The triangulation of a face: its vertices and its triangles. */
  datatype Mesh = Mesh(vertices: seq<XYZ>, triangles: seq<MeshTriangle>) {

    /** Every local index of every triangle names one of the mesh's vertices. */
    predicate WellFormed()
    {
      forall t :: 0 <= t < |triangles| ==>
        triangles[t].i0 < |vertices| && triangles[t].i1 < |vertices| && triangles[t].i2 < |vertices|
    }
  }

  type ElementId = int

  /** The id the host uses for "no element". */
  const InvalidElementId: ElementId := -1

  datatype Material = Material(color: Color, transparency: Percent)

  /** The part of a document the servers look at: the elements that are materials. */
  datatype Document = Document(materials: map<ElementId, Material>)

  /** A face: its area, its material id, its triangulation and the normal at its parametric centre. */
  datatype Face = Face(area: real, materialId: ElementId, mesh: Mesh, normal: XYZ)

  /** An edge: its approximate length and its tessellation into an ordered polyline. */
  datatype Edge = Edge(approximateLength: real, tessellation: seq<XYZ>)

  datatype Solid = Solid(volume: real, faces: seq<Face>, edges: seq<Edge>)

  /** An entry of an element's geometry; only solids are drawn. */
  datatype GeometryObject = SolidObject(solid: Solid) | OtherObject

  datatype ViewType = ThreeD | FloorPlan | CeilingPlan | Elevation | Section | Schedule | DrawingSheet | OtherView

  /** A view: its type and the document it belongs to. */
  datatype View = View(viewType: ViewType, documentId: int)

  /** An axis-aligned box by its two corners. */
  datatype Outline = Outline(min: XYZ, max: XYZ)
}
