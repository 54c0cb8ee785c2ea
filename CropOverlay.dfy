/**
 * src/components/CropOverlay.tsx: the geometry the overlay renders (four mask
 * strips and the resize handle, as fractions of the overlay) and the two
 * mouse-down handlers that start a gesture.
 */
module CropOverlay {
  import opened Types
  import opened ScaleFunctions
  import opened CropOverlayHook
  import opened RealFacts

  /** The width and height of one mask strip, as fractions of the overlay. */
  datatype Strip = Strip(width: real, height: real)

  /**
   * The four shaded strips around the crop.  The left and right strips sit in the
   * crop's own horizontal band (from y, as tall as the crop); the top and bottom
   * strips span the whole width.
   */
  datatype Mask = Mask(left: Strip, right: Strip, top: Strip, bottom: Strip)

  /** The strips' sizes: what the CSS percentages say, as fractions. */
  function MaskStrips(c: CropValues): (m: Mask)
    ensures m.left.width + c.width + m.right.width == 1.0
    ensures m.top.height + c.height + m.bottom.height == 1.0
    ensures m.left.height == c.height == m.right.height
    ensures m.top.width == 1.0 == m.bottom.width
    ensures (m.left.width >= 0.0 && m.right.width >= 0.0 && m.top.height >= 0.0 && m.bottom.height >= 0.0)
        <==> (0.0 <= c.x && c.x + c.width <= 1.0 && 0.0 <= c.y && c.y + c.height <= 1.0)
  {
    Mask(Strip(c.x, c.height),
         Strip(1.0 - (c.x + c.width), c.height),
         Strip(1.0, c.y),
         Strip(1.0, 1.0 - (c.y + c.height)))
  }

  /**
   * Where the resize handle is centred, as fractions of the overlay: on the
   * crop's top edge, halfway between its left and right corners.
   */
  function HandlePosition(c: CropValues): (p: Point)
    ensures p.y == c.y
    ensures p.x - c.x == (c.x + c.width) - p.x
  {
    Point(c.x + c.width / 2.0, c.y)
  }

  /**
   * The origin the handle's mouse-down records: the crop's centre, with its
   * proportions computed from the crop's width and height.
   */
  function EdgeOrigin(c: CropValues): (o: Origin)
    requires c.width != 0.0 && c.height != 0.0
    ensures o.originX - c.x == (c.x + c.width) - o.originX
    ensures o.originY - c.y == (c.y + c.height) - o.originY
    ensures o.originXProportion == 0.5 && o.originYProportion == 0.5
    ensures AnchoredAt(o, c)
    ensures o.originX - o.originXProportion * c.width == c.x
  {
    var originX := c.x + c.width / 2.0;
    var originY := c.y + c.height / 2.0;
    HalfOf(c.width);
    HalfOf(c.height);
    Origin(originX, originY, (originX - c.x) / c.width, (originY - c.y) / c.height)
  }

  /** (w / 2) / w == 0.5 */
  lemma HalfOf(w: real)
    requires w != 0.0
    ensures (w / 2.0) / w == 0.5
  {
  }

  /** Resizing about the edge origin keeps the handle horizontally over the origin. */
  lemma HandleStaysOverOrigin(c: CropValues, factor: real)
    requires c.width != 0.0 && c.height != 0.0
    ensures HandlePosition(Scaled(c, EdgeOrigin(c), factor)).x == EdgeOrigin(c).originX
    ensures HandlePosition(c).x == EdgeOrigin(c).originX
  {
    var o := EdgeOrigin(c);
    ScaleKeepsAnchor(c, o, factor);
  }

  /**
   * The edge resize is quadratic in the handle's travel d: from a square box, the
   * scaled box's top edge (before the constraint pass and the clamp) lands
   * d^2 / (2 * height) above the pointer rather than on it.  The factor is the
   * hook's; the lemma lives here because the origin is the one the handle's
   * mouse-down records (EdgeOrigin).
   */
  lemma ResizeTopEdge(c: CropValues, pointerY: real, rect: Rect)
    requires rect.height != 0.0 && c.ratio != 0.0 && c.height * c.width != 0.0
    requires SquareInPixels(c)
    ensures var pointer := PointerFraction(pointerY, rect);
      var d := c.y - pointer;
      Scaled(c, EdgeOrigin(c), ResizeFactor(c, pointerY, rect)).y == pointer - (d * d) / (2.0 * c.height)
  {
    var h := c.height;
    var pointer := PointerFraction(pointerY, rect);
    var d := c.y - pointer;
    var g := (h + d) / h;
    var f := ResizeFactor(c, pointerY, rect);
    var o := EdgeOrigin(c);
    ResizeFactorSquare(c, pointerY, rect);
    assert f == g * g;
    DivMulBack(h + d, h);
    var yScaled := Scaled(c, o, f).y;
    assert o.originY - yScaled == f * (o.originY - c.y);
    assert o.originY - c.y == h / 2.0;
    TopEdgeAlgebra(c.y, h, d, g, f, yScaled);
  }

  /** The algebra behind ResizeTopEdge. */
  lemma TopEdgeAlgebra(y: real, h: real, d: real, g: real, f: real, yScaled: real)
    requires h != 0.0 && g * h == h + d && f == g * g
    requires (y + h / 2.0) - yScaled == f * (h / 2.0)
    ensures yScaled == (y - d) - (d * d) / (2.0 * h)
  {
    var e := (y - d) - yScaled;
    assert e == f * (h / 2.0) - d - h / 2.0;
    assert e * (2.0 * h) == f * (h * h) - 2.0 * d * h - h * h;
    assert f * (h * h) == (g * h) * (g * h);
    assert (g * h) * (g * h) == (h + d) * (h + d);
    assert e * (2.0 * h) == d * d;
    QuotientOfProduct(e, 2.0 * h, d * d);
  }

  /** The centre box's client rect: the crop placed in the overlay's client rect. */
  function CentreBox(c: CropValues, overlay: Rect): (r: Rect)
    ensures overlay.width != 0.0 ==>
      (r.left - overlay.left) / overlay.width == c.x && r.width / overlay.width == c.width
    ensures overlay.height != 0.0 ==>
      (r.top - overlay.top) / overlay.height == c.y && r.height / overlay.height == c.height
  {
    Rect(overlay.left + c.x * overlay.width, overlay.top + c.y * overlay.height,
         c.width * overlay.width, c.height * overlay.height)
  }

  /** The drag offset the centre box's mouse-down records: the pointer relative to the box's top-left. */
  function DragOffset(pointer: Point, centreBox: Rect): (offset: Point)
    ensures centreBox.left + offset.x == pointer.x && centreBox.top + offset.y == pointer.y
  {
    Point(pointer.x - centreBox.left, pointer.y - centreBox.top)
  }

  /** A drag move with the pointer where it was pressed proposes the start box itself. */
  lemma DragFromPressPoint(c: CropValues, pointer: Point, overlay: Rect)
    requires overlay.width != 0.0 && overlay.height != 0.0
    ensures DragTarget(c, DragOffset(pointer, CentreBox(c, overlay)), pointer, overlay) == c
  {
    var r := DragTarget(c, DragOffset(pointer, CentreBox(c, overlay)), pointer, overlay);
    assert r.x * overlay.width == c.x * overlay.width;
    MulCancel(r.x, c.x, overlay.width);
    assert r.y * overlay.height == c.y * overlay.height;
    MulCancel(r.y, c.y, overlay.height);
  }

  /** The centre box's onMouseDown: record the pointer's offset inside the box, starting a drag. */
  method CentreMouseDown(state: CropOverlayState, pointer: Point, centreBox: Rect)
    modifies state`gesture
    ensures state.gesture == Dragging(DragOffset(pointer, centreBox), state.cropPosition)
  {
    state.SetDragOffset(DragOffset(pointer, centreBox));
  }

  /**
   * The handle's onMouseDown: record the crop's centre as the resize origin and
   * commit the crop through setLocalCrop.  Both updates land in one render, so the
   * resize starts from the committed (clamped) crop.
   */
  method HandleMouseDown(state: CropOverlayState)
    requires state.cropPosition.width != 0.0 && state.cropPosition.height != 0.0
    modifies state`cropPosition, state`gesture
    ensures state.cropPosition == Clamped(old(state.cropPosition))
    ensures state.gesture == Resizing(EdgeOrigin(old(state.cropPosition)), state.cropPosition)
  {
    var c := state.cropPosition;
    var origin := EdgeOrigin(c);
    var _ := state.SetLocalCrop(c);
    state.SetResizeOrigin(origin);
  }

  /**
   * The handle's origin for the 40 x 800 default crop (TallStart) is its centre
   * (0.5, 0.5); CropOverlayHook.TallResizeBreaksInvariant then resizes about it.
   */
  lemma TallEdgeOrigin()
    ensures EdgeOrigin(TallStart) == TallOrigin
  {
  }
}
