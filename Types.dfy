/**
 * The two records of src/types.ts.
 *
 * All coordinates are normalised: `x` and `width` are fractions of the image's
 * width, `y` and `height` fractions of its height, so the whole image is the box
 * (0, 0, 1, 1).  `ratio` is the image's pixel width divided by its pixel height.
 */
module Types {
  import opened RealFacts

  /** A crop region of one image. */
  datatype CropValues = CropValues(x: real, y: real, width: real, height: real, ratio: real)

  /**
   * The fixed point of a resize gesture: its absolute normalised position and its
   * position as a fraction of the box's width and height.
   */
  datatype Origin = Origin(originX: real, originY: real, originXProportion: real, originYProportion: real)

  /**
   * The invariant the code maintains: normalised height == ratio * normalised width,
   * which makes the crop a square in pixels (see PixelSquare).
   */
  predicate SquareInPixels(c: CropValues)
  {
    c.height == c.ratio * c.width
  }

  /** The box has non-negative extents and lies inside the image (0, 0, 1, 1). */
  predicate WithinImage(c: CropValues)
  {
    && 0.0 <= c.x && 0.0 <= c.width && c.x + c.width <= 1.0
    && 0.0 <= c.y && 0.0 <= c.height && c.y + c.height <= 1.0
  }

  /** The absolute anchor and its proportions describe the same point of box `c`. */
  predicate AnchoredAt(o: Origin, c: CropValues)
  {
    && o.originX == c.x + o.originXProportion * c.width
    && o.originY == c.y + o.originYProportion * c.height
  }

  /**
   * For an image of pixelWidth x pixelHeight with ratio = pixelWidth / pixelHeight,
   * the normalised invariant says exactly that the crop's pixel height equals its
   * pixel width.
   */
  lemma PixelSquare(c: CropValues, pixelWidth: real, pixelHeight: real)
    requires pixelWidth > 0.0 && pixelHeight > 0.0
    requires c.ratio == pixelWidth / pixelHeight
    ensures SquareInPixels(c) <==> c.height * pixelHeight == c.width * pixelWidth
  {
    assert c.ratio * pixelHeight == pixelWidth;
    assert c.ratio * c.width * pixelHeight == c.width * pixelWidth;
    if c.height * pixelHeight == c.width * pixelWidth {
      assert c.height * pixelHeight == c.ratio * c.width * pixelHeight;
      MulCancel(c.height, c.ratio * c.width, pixelHeight);
    }
  }
}
