/** Material resolution: `Helper.MaterialExtract`. */
module Helper {
  import opened Geometry

  /**
   * The alpha a transparency percentage converts to. The source divides the
   * percentage by 100 and multiplies by 255 in single precision, then truncates
   * to an unsigned integer; for an integer
   * t in 0..100 the exact value's fractional part is a multiple of 0.05, far from
   * any float error, so the truncation equals this integer quotient.
   */
  function Alpha(t: Percent): (alpha: Byte)
    ensures alpha as real <= t as real / 100.0 * 255.0 < alpha as real + 1.0
    ensures alpha == 0 <==> t == 0
    ensures t == 100 ==> alpha == 255
  {
    (255 * t) / 100
  }

  /** The colour the face loop starts from before asking for the material. */
  const DefaultColor := ColorWithTransparency(127, 127, 127, 0)

  /** The material lookup does not fail: the id is invalid or names a material. */
  predicate Resolves(doc: Document, id: ElementId)
  {
    id == InvalidElementId || id in doc.materials
  }

  /**
   * Reference resolution of a material id to a colour and a transparency flag,
   * as seen by a caller that starts from the default grey and `false`: an
   * invalid id gives the default; otherwise the material's own colour with the
   * alpha of its transparency, transparent exactly when that alpha is positive.
   */
  function ResolvedColor(doc: Document, id: ElementId): ColorWithTransparency
    requires Resolves(doc, id)
  {
    if id == InvalidElementId then DefaultColor
    else
      var m := doc.materials[id];
      ColorWithTransparency(m.color.red, m.color.green, m.color.blue, Alpha(m.transparency))
  }

  predicate ResolvedTransparent(doc: Document, id: ElementId)
    requires Resolves(doc, id)
  {
    id != InvalidElementId && Alpha(doc.materials[id].transparency) > 0
  }

  /**
   * `MaterialExtract(doc, materialId, ref isTransparent, ref colorRGBA)`: the two
   * `ref` parameters come in as `isTransparentIn`, `colorIn` and go out as the
   * results. A material id that names no material is a null dereference in the
   * source, so it is excluded by the precondition.
   */
  method MaterialExtract(doc: Document, materialId: ElementId, isTransparentIn: bool, colorIn: ColorWithTransparency)
    returns (isTransparent: bool, colorRGBA: ColorWithTransparency)
    requires Resolves(doc, materialId)
    ensures materialId == InvalidElementId ==> isTransparent == isTransparentIn && colorRGBA == colorIn
    ensures materialId != InvalidElementId ==>
      var m := doc.materials[materialId];
      colorRGBA.red == m.color.red && colorRGBA.green == m.color.green && colorRGBA.blue == m.color.blue &&
      colorRGBA.transparency == Alpha(m.transparency)
    ensures isTransparent <==> isTransparentIn || (materialId != InvalidElementId && doc.materials[materialId].transparency > 0)
    ensures !isTransparentIn && colorIn == DefaultColor ==>
      isTransparent == ResolvedTransparent(doc, materialId) && colorRGBA == ResolvedColor(doc, materialId)
  {
    isTransparent, colorRGBA := isTransparentIn, colorIn;
    if materialId == InvalidElementId {
      return;
    }
    var material := doc.materials[materialId];
    var color := material.color;
    var transparency0To255 := Alpha(material.transparency);
    colorRGBA := ColorWithTransparency(color.red, color.green, color.blue, transparency0To255);
    if transparency0To255 > 0 {
      isTransparent := true;
    }
  }
}
