/**
 * The DirectContext3D graphics objects the servers fill and submit. Vertex and
 * index buffers are modelled by the records written into them; every buffer,
 * format and effect object carries the validity flag its `IsValid()` reports,
 * which a lower graphics layer may clear.
 */
module Graphics {
  import opened Wrappers
  import opened Geometry

  datatype DisplayStyle =
    | Undefined | Wireframe | HLR | Shading | ShadingWithEdges
    | Rendering | Realistic | FlatColors | RealisticWithEdges | Raytrace

  datatype VertexFormatBits = Position | PositionNormal | PositionColored | PositionNormalColored

  /** One record of a vertex stream, in one of the three layouts the servers use. */
  datatype Vertex =
    | VertexPosition(position: XYZ)
    | VertexPositionColored(position: XYZ, color: ColorWithTransparency)
    | VertexPositionNormalColored(position: XYZ, normal: XYZ, color: ColorWithTransparency)

  /** The format bits a vertex record is laid out by. */
  function LayoutOf(v: Vertex): VertexFormatBits
  {
    match v
    case VertexPosition(_) => Position
    case VertexPositionColored(_, _) => PositionColored
    case VertexPositionNormalColored(_, _, _) => PositionNormalColored
  }

  /** One record of an index stream: a triangle or a line segment. */
  datatype IndexPrimitive = IndexTriangle(i0: int, i1: int, i2: int) | IndexLine(l0: int, l1: int)


  datatype VertexBuffer = VertexBuffer(vertices: seq<Vertex>, valid: bool)
  datatype IndexBuffer = IndexBuffer(primitives: seq<IndexPrimitive>, valid: bool)
  datatype VertexFormat = VertexFormat(bits: VertexFormatBits, valid: bool)
  datatype EffectInstance = EffectInstance(bits: VertexFormatBits, valid: bool)

  datatype PrimitiveType = TriangleList | LineList

  /** One `DrawContext.FlushBuffer` call, with all its arguments. */
  datatype FlushCall = FlushCall(
    vertexBuffer: Option<VertexBuffer>, vertexCount: int,
    indexBuffer: Option<IndexBuffer>, indexCount: int,
    vertexFormat: Option<VertexFormat>, effectInstance: Option<EffectInstance>,
    primitiveType: PrimitiveType, start: int, primitiveCount: int)

  /**
   * A submitted buffer pair is drawable: all four graphics objects exist and are
   * valid, the counts passed match what the buffers hold, the index count is the
   * primitive count times the indices per primitive, and every index names a
   * vertex of the buffer.
   */
  ghost predicate FlushConsistent(c: FlushCall)
  {
    HandlesLive(c.vertexBuffer, c.indexBuffer, c.vertexFormat, c.effectInstance) &&
    |c.vertexBuffer.value.vertices| == c.vertexCount &&
    |c.indexBuffer.value.primitives| == c.primitiveCount &&
    c.indexCount == (if c.primitiveType == TriangleList then c.primitiveCount * 3 else c.primitiveCount * 2) &&
    forall p :: p in c.indexBuffer.value.primitives ==>
      (c.primitiveType == TriangleList ==>
         p.IndexTriangle? && 0 <= p.i0 < c.vertexCount && 0 <= p.i1 < c.vertexCount && 0 <= p.i2 < c.vertexCount) &&
      (c.primitiveType == LineList ==>
         p.IndexLine? && 0 <= p.l0 < c.vertexCount && 0 <= p.l1 < c.vertexCount)
  }

  /** None of the four graphics objects is null or reports itself invalid. */
  predicate HandlesLive(vb: Option<VertexBuffer>, ib: Option<IndexBuffer>,
                        vf: Option<VertexFormat>, ei: Option<EffectInstance>)
  {
    vb.Some? && vb.value.valid && ib.Some? && ib.value.valid &&
    vf.Some? && vf.value.valid && ei.Some? && ei.value.valid
  }

  /**
   * The rebuild rule shared by both buffer storages: a new style always needs a
   * rebuild; with the same style, only a storage that has primitives and a
   * missing or invalid graphics object does.
   */
  function UpdateNeeded(built: DisplayStyle, requested: DisplayStyle, primitiveCount: int, live: bool): bool
  {
    if requested != built then true
    else if primitiveCount > 0 && !live then true
    else false
  }
}
