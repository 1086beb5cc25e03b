/** `CustomBufferStorage`: the buffer storage of the cube server, without geometry lists. */
module CustomStorage {
  import opened Wrappers
  import opened Graphics

  class CustomBufferStorage {
    var displayStyle: DisplayStyle
    var primitiveCount: int
    var vertexBufferCount: int
    var indexBufferCount: int
    var vertexBuffer: Option<VertexBuffer>
    var indexBuffer: Option<IndexBuffer>
    var formatBits: Option<VertexFormatBits>
    var vertexFormat: Option<VertexFormat>
    var effectInstance: Option<EffectInstance>

    constructor (style: DisplayStyle)
      ensures displayStyle == style
      ensures primitiveCount == 0 && vertexBufferCount == 0 && indexBufferCount == 0
      ensures vertexBuffer == None && indexBuffer == None && formatBits == None
      ensures vertexFormat == None && effectInstance == None
    {
      displayStyle := style;
      primitiveCount, vertexBufferCount, indexBufferCount := 0, 0, 0;
      vertexBuffer, indexBuffer := None, None;
      formatBits, vertexFormat, effectInstance := None, None, None;
    }

    /** `needsUpdate`: the same rule as the element server's storages. */
    predicate NeedsUpdate(newStyle: DisplayStyle)
      reads this
      ensures newStyle != displayStyle ==> NeedsUpdate(newStyle)
      ensures newStyle == displayStyle && primitiveCount <= 0 ==> !NeedsUpdate(newStyle)
      ensures newStyle == displayStyle && primitiveCount > 0 ==>
        (NeedsUpdate(newStyle) <==> !Live())
    {
      UpdateNeeded(displayStyle, newStyle, primitiveCount, Live())
    }

    /** None of the four graphics objects is null or reports itself invalid. */
    predicate Live()
      reads this
    {
      HandlesLive(vertexBuffer, indexBuffer, vertexFormat, effectInstance)
    }

    /**
     * The graphics layer dropping the vertex buffer behind the storage's back:
     * the handle stays but reports itself invalid, which is what `needsUpdate`
     * tests for. Everything else is kept.
     */
    method LoseVertexBuffer()
      modifies this
      ensures vertexBuffer == (if old(vertexBuffer).Some? then Some(VertexBuffer(old(vertexBuffer).value.vertices, false)) else None)
      ensures displayStyle == old(displayStyle) && primitiveCount == old(primitiveCount) && vertexBufferCount == old(vertexBufferCount)
      ensures formatBits == old(formatBits) && indexBufferCount == old(indexBufferCount) && indexBuffer == old(indexBuffer)
      ensures vertexFormat == old(vertexFormat) && effectInstance == old(effectInstance)
      ensures primitiveCount > 0 ==> forall style :: NeedsUpdate(style)
    {
      if vertexBuffer.Some? {
        vertexBuffer := Some(VertexBuffer(vertexBuffer.value.vertices, false));
      }
    }
  }
}
