/**
 * src/functions/scaleFunctions.ts: scaling a crop box about an arbitrary origin,
 * and the two-pass constraint that pulls a scaled box back to legal sizes.
 */
module ScaleFunctions {
  import opened Wrappers
  import opened Types
  import opened RealFacts

  /**
   * getConstrainedCoordinates's third argument.  `maxX` and `maxY` are carried
   * but never read: the upper bound is the literal 1.
   */
  datatype Constraints = Constraints(maxX: real, maxY: real, minX: Option<real>, minY: Option<real>)

  /**
   * getScaledCoordinates: the similarity transform that scales every point of the
   * box by `factor` about (originX, originY).  The distance from the origin to the
   * top-left corner is multiplied by `factor`, and the ratio is passed through.
   */
  function Scaled(c: CropValues, o: Origin, factor: real): (r: CropValues)
    ensures r.ratio == c.ratio
    ensures o.originX - r.x == factor * (o.originX - c.x)
    ensures o.originY - r.y == factor * (o.originY - c.y)
    ensures r.width == factor * c.width && r.height == factor * c.height
  {
    CropValues(o.originX * (1.0 - factor) + c.x * factor,
               o.originY * (1.0 - factor) + c.y * factor,
               c.width * factor,
               c.height * factor,
               c.ratio)
  }

  /** Factor 1 leaves the box unchanged, whatever the origin. */
  lemma ScaleIdentity(c: CropValues, o: Origin)
    ensures Scaled(c, o, 1.0) == c
  {
  }

  /**
   * An origin anchored at a point of the box (a corner, the centre, ...) is
   * anchored at the same point, with the same proportions, of the scaled box.
   */
  lemma ScaleKeepsAnchor(c: CropValues, o: Origin, factor: real)
    requires AnchoredAt(o, c)
    ensures AnchoredAt(o, Scaled(c, o, factor))
  {
    var r := Scaled(c, o, factor);
    calc {
      r.x + o.originXProportion * r.width;
      o.originX * (1.0 - factor) + factor * (c.x + o.originXProportion * c.width);
      o.originX;
    }
    calc {
      r.y + o.originYProportion * r.height;
      o.originY * (1.0 - factor) + factor * (c.y + o.originYProportion * c.height);
      o.originY;
    }
  }

  /**
   * The origin keeps its position relative to the box:
   * (originX - x') / width' == (originX - x) / width, and likewise for y.
   */
  lemma ScaleKeepsRelativePosition(c: CropValues, o: Origin, factor: real)
    requires factor != 0.0 && c.width != 0.0 && c.height != 0.0
    ensures (o.originX - Scaled(c, o, factor).x) / Scaled(c, o, factor).width == (o.originX - c.x) / c.width
    ensures (o.originY - Scaled(c, o, factor).y) / Scaled(c, o, factor).height == (o.originY - c.y) / c.height
  {
    var r := Scaled(c, o, factor);
    DivScaled(o.originX - c.x, c.width, factor);
    DivScaled(o.originY - c.y, c.height, factor);
  }

  /** (f * a) / (w * f) == a / w */
  lemma DivScaled(a: real, w: real, f: real)
    requires w != 0.0 && f != 0.0
    ensures (f * a) / (w * f) == a / w
  {
    var q := a / w;
    assert a == q * w;
    assert f * a == q * (w * f);
  }

  /** Width and height are scaled by the same factor, so the pixel-square invariant survives. */
  lemma ScaleKeepsSquare(c: CropValues, o: Origin, factor: real)
    requires SquareInPixels(c)
    ensures SquareInPixels(Scaled(c, o, factor))
  {
    calc {
      Scaled(c, o, factor).height;
      c.height * factor;
      (c.ratio * c.width) * factor;
      c.ratio * (c.width * factor);
    }
  }

  /** Scaling by f and then by g about the same origin is scaling by f * g. */
  lemma ScaleCompose(c: CropValues, o: Origin, f: real, g: real)
    ensures Scaled(Scaled(c, o, f), o, g) == Scaled(c, o, f * g)
  {
    ComposeHorizontal(c, o, f, g);
    ComposeVertical(c, o, f, g);
  }

  /** The horizontal half of ScaleCompose. */
  lemma ComposeHorizontal(c: CropValues, o: Origin, f: real, g: real)
    ensures Scaled(Scaled(c, o, f), o, g).x == Scaled(c, o, f * g).x
    ensures Scaled(Scaled(c, o, f), o, g).width == Scaled(c, o, f * g).width
  {
    ComposeCoordinate(o.originX, c.x, f, g);
    assert (c.width * f) * g == c.width * (f * g);
  }

  /** The vertical half of ScaleCompose. */
  lemma ComposeVertical(c: CropValues, o: Origin, f: real, g: real)
    ensures Scaled(Scaled(c, o, f), o, g).y == Scaled(c, o, f * g).y
    ensures Scaled(Scaled(c, o, f), o, g).height == Scaled(c, o, f * g).height
  {
    ComposeCoordinate(o.originY, c.y, f, g);
    assert (c.height * f) * g == c.height * (f * g);
  }

  /** One coordinate of ScaleCompose. */
  lemma ComposeCoordinate(origin: real, p: real, f: real, g: real)
    ensures origin * (1.0 - g) + (origin * (1.0 - f) + p * f) * g == origin * (1.0 - f * g) + p * (f * g)
  {
    assert (origin * (1.0 - f) + p * f) * g == origin * (1.0 - f) * g + p * f * g;
  }

  /** `constraints.minX || 0.1`: an absent or zero minimum becomes 0.1. */
  function EffectiveMin(m: Option<real>): (r: real)
    ensures r != 0.0
    ensures m.Some? && m.value != 0.0 ==> r == m.value
    ensures m.None? || m.value == 0.0 ==> r == 0.1
  {
    match m
    case Some(v) => if v != 0.0 then v else 0.1
    case None => 0.1
  }

  /** A box of the given extents placed so that the origin's proportions put it at (originX, originY). */
  function Refit(c: CropValues, o: Origin, width: real, height: real): CropValues
  {
    CropValues(o.originX - o.originXProportion * width, o.originY - o.originYProportion * height,
               width, height, c.ratio)
  }

  /** The width pass fires: the width is above 1 or below the minimum. */
  predicate WidthClamps(c: CropValues, minX: real)
  {
    c.width > 1.0 || c.width < minX
  }

  /** The height pass fires: the height is above 1 or below the minimum. */
  predicate HeightClamps(c: CropValues, minY: real)
  {
    c.height > 1.0 || c.height < minY
  }

  /** First pass: clamp the width to [minX, 1], re-derive the height as ratio * width, re-anchor. */
  function WidthPass(c: CropValues, o: Origin, minX: real): (r: CropValues)
    ensures r.ratio == c.ratio
    ensures !WidthClamps(c, minX) ==> r == c
    ensures WidthClamps(c, minX) ==> r.width == (if c.width > 1.0 then 1.0 else minX)
  {
    if c.width > 1.0 then Refit(c, o, 1.0, c.ratio * 1.0)
    else if c.width < minX then Refit(c, o, minX, c.ratio * minX)
    else c
  }

  /**
   * Second pass: clamp the height to [minY, 1] and re-derive the width as
   * height / ratio.  The overflow branch pins y to 0 instead of re-anchoring it.
   */
  function HeightPass(c: CropValues, o: Origin, minY: real): (r: CropValues)
    requires c.ratio != 0.0
    ensures r.ratio == c.ratio
    ensures !HeightClamps(c, minY) ==> r == c
    ensures HeightClamps(c, minY) ==> r.height == (if c.height > 1.0 then 1.0 else minY)
  {
    if c.height > 1.0 then
      CropValues(o.originX - o.originXProportion * ((1.0 / c.ratio) * 1.0), 0.0,
                 (1.0 / c.ratio) * 1.0, 1.0, c.ratio)
    else if c.height < minY then Refit(c, o, (1.0 / c.ratio) * minY, minY)
    else c
  }

  /** getConstrainedCoordinates, as the composition of its two passes. */
  function Constrained(c: CropValues, o: Origin, k: Constraints): (r: CropValues)
    requires c.ratio != 0.0
    ensures r.ratio == c.ratio
    ensures !Clamps(c, o, k) ==> r == c
  {
    HeightPass(WidthPass(c, o, EffectiveMin(k.minX)), o, EffectiveMin(k.minY))
  }

  /** Some branch of getConstrainedCoordinates fires on `c`. */
  predicate Clamps(c: CropValues, o: Origin, k: Constraints)
  {
    || WidthClamps(c, EffectiveMin(k.minX))
    || HeightClamps(WidthPass(c, o, EffectiveMin(k.minX)), EffectiveMin(k.minY))
  }

  /**
   * getConstrainedCoordinates as the source writes it: two sequential if/else
   * passes over the locals newX, newY, newWidth and newHeight.
   */
  method GetConstrainedCoordinates(c: CropValues, o: Origin, k: Constraints) returns (r: CropValues)
    requires c.ratio != 0.0
    ensures r == Constrained(c, o, k)
  {
    var minX := EffectiveMin(k.minX);
    var minY := EffectiveMin(k.minY);
    var newX, newY, newWidth, newHeight := c.x, c.y, c.width, c.height;
    var ratio := c.ratio;

    if newWidth > 1.0 {
      newWidth := 1.0;
      newHeight := ratio * newWidth;
      newX := o.originX - o.originXProportion * newWidth;
      newY := o.originY - o.originYProportion * newHeight;
      assert CropValues(newX, newY, newWidth, newHeight, ratio) == WidthPass(c, o, minX);
    } else if newWidth < minX {
      newWidth := minX;
      newHeight := ratio * newWidth;
      newX := o.originX - o.originXProportion * newWidth;
      newY := o.originY - o.originYProportion * newHeight;
      assert CropValues(newX, newY, newWidth, newHeight, ratio) == WidthPass(c, o, minX);
    }
    ghost var afterWidth := CropValues(newX, newY, newWidth, newHeight, ratio);
    assert afterWidth == WidthPass(c, o, minX);

    if newHeight > 1.0 {
      newHeight := 1.0;
      newWidth := (1.0 / ratio) * newHeight;
      newY := 0.0;
      newX := o.originX - o.originXProportion * newWidth;
      assert CropValues(newX, newY, newWidth, newHeight, ratio) == HeightPass(afterWidth, o, minY);
    } else if newHeight < minY {
      newHeight := minY;
      newWidth := (1.0 / ratio) * newHeight;
      newY := o.originY - o.originYProportion * newHeight;
      newX := o.originX - o.originXProportion * newWidth;
      assert CropValues(newX, newY, newWidth, newHeight, ratio) == HeightPass(afterWidth, o, minY);
    }

    r := CropValues(newX, newY, newWidth, newHeight, ratio);
    assert r == HeightPass(afterWidth, o, minY);
  }

  /** A box whose extents already lie within [minX, 1] x [minY, 1] comes back unchanged. */
  lemma ConstrainedIdentity(c: CropValues, o: Origin, k: Constraints)
    requires c.ratio != 0.0
    requires EffectiveMin(k.minX) <= c.width <= 1.0 && EffectiveMin(k.minY) <= c.height <= 1.0
    ensures !Clamps(c, o, k)
    ensures Constrained(c, o, k) == c
  {
  }

  /** The ratio is never altered, and the output height lies in [minY, 1] whenever minY <= 1. */
  lemma ConstrainedHeightBounds(c: CropValues, o: Origin, k: Constraints)
    requires c.ratio != 0.0
    requires EffectiveMin(k.minY) <= 1.0
    ensures Constrained(c, o, k).ratio == c.ratio
    ensures EffectiveMin(k.minY) <= Constrained(c, o, k).height <= 1.0
  {
  }

  /** Whenever a clamp branch fires, the output is square in pixels: height == ratio * width. */
  lemma ConstrainedSquareWhenClamped(c: CropValues, o: Origin, k: Constraints)
    requires c.ratio != 0.0
    requires Clamps(c, o, k)
    ensures SquareInPixels(Constrained(c, o, k))
  {
    var minX, minY := EffectiveMin(k.minX), EffectiveMin(k.minY);
    var w := WidthPass(c, o, minX);
    assert WidthClamps(c, minX) ==> SquareInPixels(w);
    if w.height > 1.0 || w.height < minY {
      var r := HeightPass(w, o, minY);
      assert r.ratio == c.ratio;
      assert r.width == (1.0 / c.ratio) * r.height;
      assert c.ratio * ((1.0 / c.ratio) * r.height) == r.height;
    }
  }

  /** A square input stays square: either nothing fires or every branch re-derives square extents. */
  lemma ConstrainedKeepsSquare(c: CropValues, o: Origin, k: Constraints)
    requires c.ratio != 0.0
    requires SquareInPixels(c)
    ensures SquareInPixels(Constrained(c, o, k))
  {
    if Clamps(c, o, k) {
      ConstrainedSquareWhenClamped(c, o, k);
    }
  }

  /**
   * Whenever a branch fires, x is re-anchored from the origin's proportions; so
   * is y, except after the height-overflow branch, which pins y to 0.
   */
  lemma ConstrainedAnchoring(c: CropValues, o: Origin, k: Constraints)
    requires c.ratio != 0.0
    requires Clamps(c, o, k)
    ensures Constrained(c, o, k).x == o.originX - o.originXProportion * Constrained(c, o, k).width
    ensures WidthPass(c, o, EffectiveMin(k.minX)).height > 1.0 ==> Constrained(c, o, k).y == 0.0
    ensures WidthPass(c, o, EffectiveMin(k.minX)).height <= 1.0 ==>
      Constrained(c, o, k).y == o.originY - o.originYProportion * Constrained(c, o, k).height
  {
    var minX, minY := EffectiveMin(k.minX), EffectiveMin(k.minY);
    var w := WidthPass(c, o, minX);
    assert w.ratio == c.ratio;
    assert Constrained(c, o, k) == HeightPass(w, o, minY);
    if HeightClamps(w, minY) {
      HeightPassAnchors(w, o, minY);
    } else {
      WidthPassAnchors(c, o, minX);
    }
  }

  /** A firing width pass re-anchors both x and y. */
  lemma WidthPassAnchors(c: CropValues, o: Origin, minX: real)
    requires WidthClamps(c, minX)
    ensures var w := WidthPass(c, o, minX);
      && w.x == o.originX - o.originXProportion * w.width
      && w.y == o.originY - o.originYProportion * w.height
  {
  }

  /** A firing height pass re-anchors x, and y unless it pinned y to 0. */
  lemma HeightPassAnchors(w: CropValues, o: Origin, minY: real)
    requires w.ratio != 0.0
    requires HeightClamps(w, minY)
    ensures var r := HeightPass(w, o, minY);
      && r.x == o.originX - o.originXProportion * r.width
      && r.y == if w.height > 1.0 then 0.0 else o.originY - o.originYProportion * r.height
  {
  }

  /**
   * For a square input whose ratio is at least the height minimum (both minima in
   * (0, 1]), the output is square, its width lies in (0, 1] and its height in [minY, 1].
   */
  lemma ConstrainedFits(c: CropValues, o: Origin, k: Constraints)
    requires 0.0 < EffectiveMin(k.minX) <= 1.0 && 0.0 < EffectiveMin(k.minY) <= 1.0
    requires c.ratio >= EffectiveMin(k.minY)
    requires SquareInPixels(c)
    ensures var r := Constrained(c, o, k);
      && SquareInPixels(r)
      && 0.0 < r.width <= 1.0
      && EffectiveMin(k.minY) <= r.height <= 1.0
  {
    var minX, minY := EffectiveMin(k.minX), EffectiveMin(k.minY);
    var w := WidthPass(c, o, minX);
    ConstrainedKeepsSquare(c, o, k);
    ConstrainedHeightBounds(c, o, k);
    WidthPassFits(c, o, minX);
    HeightPassFits(w, o, minY);
  }

  /** After the width pass a square box is square, with width in (0, 1] or exactly minX. */
  lemma WidthPassFits(c: CropValues, o: Origin, minX: real)
    requires 0.0 < minX <= 1.0
    requires SquareInPixels(c)
    ensures var w := WidthPass(c, o, minX);
      && SquareInPixels(w) && w.ratio == c.ratio && minX <= w.width <= 1.0
  {
  }

  /** The height pass keeps a square box with width in (0, 1] inside width (0, 1]. */
  lemma HeightPassFits(w: CropValues, o: Origin, minY: real)
    requires 0.0 < minY <= w.ratio
    requires SquareInPixels(w) && 0.0 < w.width <= 1.0
    ensures 0.0 < HeightPass(w, o, minY).width <= 1.0
  {
    if w.height > 1.0 {
      RecipBelow(w.ratio, w.width, w.height);
    } else if w.height < minY {
      RecipScaledAtMostOne(w.ratio, minY);
    }
  }

  /** height == ratio * m > 1 with 0 < m <= 1 gives 0 < 1 / ratio <= 1. */
  lemma RecipBelow(ratio: real, m: real, height: real)
    requires 0.0 < m <= 1.0 && height == ratio * m && height > 1.0
    ensures 0.0 < (1.0 / ratio) * 1.0 <= 1.0
  {
    assert ratio > 1.0;
    var q := 1.0 / ratio;
    assert q * ratio == 1.0;
    PositiveLeft(q, ratio);
    assert q * 1.0 <= q * ratio;
  }

  /** minY <= ratio gives 0 < minY / ratio <= 1. */
  lemma RecipScaledAtMostOne(ratio: real, minY: real)
    requires 0.0 < minY <= ratio
    ensures 0.0 < (1.0 / ratio) * minY <= 1.0
  {
    var q := 1.0 / ratio;
    assert q * ratio == 1.0;
    PositiveLeft(q, ratio);
    assert q * minY <= q * ratio;
  }

  /** A reciprocal of a positive number is positive. */
  lemma PositiveLeft(q: real, ratio: real)
    requires ratio > 0.0 && q * ratio == 1.0
    ensures q > 0.0
  {
  }
}
