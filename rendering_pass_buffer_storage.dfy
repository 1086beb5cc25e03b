/** `RenderingPassBufferStorage`: what is needed to draw one sequence of primitives. */
module RenderingPassStorage {
  import opened Wrappers
  import opened Geometry
  import opened Graphics

  /** `MeshInfo`: a face's triangulation with the one normal and colour its vertices share. */
  datatype MeshInfo = MeshInfo(mesh: Mesh, normal: XYZ, color: ColorWithTransparency)

  /** The part of a storage the accumulation loops write. */
  datatype Accumulation = Accumulation(style: DisplayStyle, meshes: seq<MeshInfo>, edgeXYZs: seq<seq<XYZ>>,
                                       vertexBufferCount: int, primitiveCount: int)

  /**
   * One buffer storage of the element drawing server. Its properties are public
   * and are set by the server: the accumulated geometry and counts, then the
   * buffers and the format and effect objects built from them.
   */
  class RenderingPassBufferStorage {
    var displayStyle: DisplayStyle
    var meshes: seq<MeshInfo>
    var edgeXYZs: seq<seq<XYZ>>
    var primitiveCount: int
    var vertexBufferCount: int
    var indexBufferCount: int
    var vertexBuffer: Option<VertexBuffer>
    var indexBuffer: Option<IndexBuffer>
    var formatBits: Option<VertexFormatBits>
    var vertexFormat: Option<VertexFormat>
    var effectInstance: Option<EffectInstance>

    /** What the accumulation loops write. */
    ghost function Accumulated(): Accumulation
      reads this
    {
      Accumulation(displayStyle, meshes, edgeXYZs, vertexBufferCount, primitiveCount)
    }

    /** What the buffer packing writes. */
    ghost function Packed(): (Option<VertexFormatBits>, Option<VertexBuffer>, int, Option<IndexBuffer>,
                              Option<VertexFormat>, Option<EffectInstance>)
      reads this
    {
      (formatBits, vertexBuffer, indexBufferCount, indexBuffer, vertexFormat, effectInstance)
    }

    /** Nothing has been packed yet: the state the constructor leaves. */
    ghost predicate Unpacked()
      reads this
    {
      formatBits == None && vertexBuffer == None && indexBufferCount == 0 &&
      indexBuffer == None && vertexFormat == None && effectInstance == None
    }

    constructor (style: DisplayStyle)
      ensures displayStyle == style && meshes == [] && edgeXYZs == []
      ensures primitiveCount == 0 && vertexBufferCount == 0
      ensures Unpacked()
    {
      displayStyle := style;
      meshes := [];
      edgeXYZs := [];
      primitiveCount, vertexBufferCount, indexBufferCount := 0, 0, 0;
      vertexBuffer, indexBuffer := None, None;
      formatBits, vertexFormat, effectInstance := None, None, None;
    }

    /** `needsUpdate`: whether this storage must be rebuilt before drawing in `newStyle`. */
    predicate NeedsUpdate(newStyle: DisplayStyle)
      reads this
      ensures newStyle != displayStyle ==> NeedsUpdate(newStyle)
      ensures newStyle == displayStyle && primitiveCount <= 0 ==> !NeedsUpdate(newStyle)
      ensures newStyle == displayStyle && primitiveCount > 0 ==>
        (NeedsUpdate(newStyle) <==> !Live())
    {
      UpdateNeeded(displayStyle, newStyle, primitiveCount, Live())
    }

    /** None of the four graphics objects is null or reports itself invalid. */
    predicate Live()
      reads this
    {
      HandlesLive(vertexBuffer, indexBuffer, vertexFormat, effectInstance)
    }

    /**
     * The graphics layer dropping the vertex buffer behind the storage's back:
     * the handle stays but reports itself invalid, which is what `needsUpdate`
     * tests for. Everything else is kept.
     */
    method LoseVertexBuffer()
      modifies this
      ensures vertexBuffer == (if old(vertexBuffer).Some? then Some(VertexBuffer(old(vertexBuffer).value.vertices, false)) else None)
      ensures Accumulated() == old(Accumulated())
      ensures formatBits == old(formatBits) && indexBufferCount == old(indexBufferCount) && indexBuffer == old(indexBuffer)
      ensures vertexFormat == old(vertexFormat) && effectInstance == old(effectInstance)
      ensures primitiveCount > 0 ==> forall style :: NeedsUpdate(style)
    {
      if vertexBuffer.Some? {
        vertexBuffer := Some(VertexBuffer(vertexBuffer.value.vertices, false));
      }
    }
  }
}
