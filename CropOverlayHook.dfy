/**
 * src/hooks/useCropOverlay.tsx: the boundary clamp every gesture commits through,
 * the drag (translate) move, the edge-resize move, and the gesture state that
 * mouse-down starts and mouse-up ends.
 */
module CropOverlayHook {
  import opened Wrappers
  import opened Types
  import opened ScaleFunctions
  import opened RealFacts

  /** A pointer position (clientX, clientY) or a pixel offset, in screen pixels. */
  datatype Point = Point(x: real, y: real)

  /** What getBoundingClientRect reports for an element, in screen pixels. */
  datatype Rect = Rect(left: real, top: real, width: real, height: real)

  /** What setLocalCrop returns: the committed crop without its ratio. */
  datatype Box = Box(x: real, y: real, width: real, height: real)

  /**
   * The gesture in progress.  `start` is the crop the move handlers close over:
   * each move is computed from it, never from the previous move's result.
   */
  datatype Gesture =
    | Idle
    | Dragging(offset: Point, start: CropValues)
    | Resizing(origin: Origin, start: CropValues)

  /** One axis of setLocalCrop: raise a negative position to 0, then pull the far edge back to 1. */
  function ClampAxis(pos: real, extent: real): real
  {
    var p := if pos < 0.0 then 0.0 else pos;
    if p + extent > 1.0 then 1.0 - extent else p
  }

  /** An extent of setLocalCrop: capped at 1. */
  function CapExtent(extent: real): real
  {
    if extent > 1.0 then 1.0 else extent
  }

  /**
   * The crop setLocalCrop commits.  Positions are clamped against the extents
   * as they came in; the extents are capped only afterwards.
   */
  function Clamped(c: CropValues): (r: CropValues)
    ensures r.width <= 1.0 && r.height <= 1.0
    ensures r.ratio == c.ratio
    ensures c.width <= 1.0 ==> 0.0 <= r.x <= 1.0 - r.width
    ensures c.height <= 1.0 ==> 0.0 <= r.y <= 1.0 - r.height
  {
    CropValues(ClampAxis(c.x, c.width), ClampAxis(c.y, c.height),
               CapExtent(c.width), CapExtent(c.height), c.ratio)
  }

  /** The clamp leaves a box that already lies inside the image as it is. */
  lemma ClampedFixesInside(c: CropValues)
    requires WithinImage(c)
    ensures Clamped(c) == c
  {
  }

  /** Clamping twice is clamping once, for extents up to 1. */
  lemma ClampedIdempotent(c: CropValues)
    requires c.width <= 1.0 && c.height <= 1.0
    ensures Clamped(Clamped(c)) == Clamped(c)
  {
    var r := Clamped(c);
    assert r.width == c.width && r.height == c.height;
    assert 0.0 <= r.x && r.x + r.width <= 1.0;
    assert 0.0 <= r.y && r.y + r.height <= 1.0;
  }

  /** x = 0.8 with width 0.3 overflows the right edge and comes back to 0.7; y stays. */
  lemma ClampedExample()
    ensures Clamped(CropValues(0.8, 0.1, 0.3, 0.3, 1.0)) == CropValues(0.7, 0.1, 0.3, 0.3, 1.0)
  {
  }

  /**
   * Because x is clamped against the width before the width is capped, a box
   * wider than the image ends up with x == 1 - width < 0 and width 1.
   */
  lemma ClampedOverwide(c: CropValues)
    requires c.width > 1.0
    ensures Clamped(c).x == 1.0 - c.width < 0.0 && Clamped(c).width == 1.0
  {
  }

  /** A box kept inside the image by the clamp keeps the pixel-square invariant. */
  lemma ClampedKeepsSquare(c: CropValues)
    requires c.width <= 1.0 && c.height <= 1.0 && SquareInPixels(c)
    ensures SquareInPixels(Clamped(c))
  {
  }

  /** The crop a drag move proposes, before the clamp. */
  function DragTarget(start: CropValues, offset: Point, pointer: Point, rect: Rect): (r: CropValues)
    requires rect.width != 0.0 && rect.height != 0.0
    ensures r.(x := start.x, y := start.y) == start
    ensures rect.left + r.x * rect.width + offset.x == pointer.x
    ensures rect.top + r.y * rect.height + offset.y == pointer.y
  {
    var r := start.(x := (pointer.x - rect.left - offset.x) / rect.width,
                    y := (pointer.y - rect.top - offset.y) / rect.height);
    DivMulBack(pointer.x - rect.left - offset.x, rect.width);
    DivMulBack(pointer.y - rect.top - offset.y, rect.height);
    r
  }

  /**
   * A drag of a box whose extents lie in [0, 1] commits a box inside the image
   * with the start box's extents and ratio; the pixel-square invariant survives.
   */
  lemma DragMoveKeepsInvariant(start: CropValues, offset: Point, pointer: Point, rect: Rect)
    requires rect.width != 0.0 && rect.height != 0.0
    requires 0.0 <= start.width <= 1.0 && 0.0 <= start.height <= 1.0
    ensures var r := Clamped(DragTarget(start, offset, pointer, rect));
      && WithinImage(r)
      && r.width == start.width && r.height == start.height && r.ratio == start.ratio
      && (SquareInPixels(start) ==> SquareInPixels(r))
  {
  }

  /** The pointer's y as a fraction of the overlay's height. */
  function PointerFraction(pointerY: real, rect: Rect): (r: real)
    requires rect.height != 0.0
    ensures rect.top + r * rect.height == pointerY
  {
    DivMulBack(pointerY - rect.top, rect.height);
    (pointerY - rect.top) / rect.height
  }

  /** The edge-resize scale: the handle's vertical travel, applied to both extents. */
  function ResizeFactor(start: CropValues, pointerY: real, rect: Rect): (r: real)
    requires rect.height != 0.0 && start.ratio != 0.0 && start.height * start.width != 0.0
    ensures var d := start.y - PointerFraction(pointerY, rect);
      r * (start.height * start.width) == (start.height + d) * (start.width + d / start.ratio)
  {
    var differenceY := start.y - PointerFraction(pointerY, rect);
    var differenceX := differenceY / start.ratio;
    DivMulBack((start.height + differenceY) * (start.width + differenceX), start.height * start.width);
    ((start.height + differenceY) * (start.width + differenceX)) / (start.height * start.width)
  }

  /** With the pointer level with the box's top edge the factor is 1, so the scaled box is the start box. */
  lemma ResizeFactorAtTop(start: CropValues, o: Origin, pointerY: real, rect: Rect)
    requires rect.height != 0.0 && start.ratio != 0.0 && start.height * start.width != 0.0
    requires PointerFraction(pointerY, rect) == start.y
    ensures ResizeFactor(start, pointerY, rect) == 1.0
    ensures Scaled(start, o, ResizeFactor(start, pointerY, rect)) == start
  {
    assert start.y - PointerFraction(pointerY, rect) == 0.0;
    ScaleIdentity(start, o);
  }

  /**
   * For a square box the factor is the square of the height's relative change,
   * ((height + dY) / height)^2, so it is never negative.
   */
  lemma ResizeFactorSquare(start: CropValues, pointerY: real, rect: Rect)
    requires rect.height != 0.0 && start.ratio != 0.0 && start.height * start.width != 0.0
    requires SquareInPixels(start)
    ensures var d := start.y - PointerFraction(pointerY, rect);
      var g := (start.height + d) / start.height;
      ResizeFactor(start, pointerY, rect) == g * g >= 0.0
  {
    var h, w, ratio := start.height, start.width, start.ratio;
    var d := start.y - PointerFraction(pointerY, rect);
    var g := (h + d) / h;
    var dx := d / ratio;
    DivMulBack(h + d, h);
    DivMulBack(d, ratio);
    WidthGrowth(w, dx, ratio, h, d, g);
    NumeratorSquare(h, w, dx, d, g);
    QuotientOfProduct(g * g, h * w, (h + d) * (w + dx));
    SquareNonNegative(g);
  }

  /** With height == ratio * width, width + dY / ratio == g * width where g * height == height + dY. */
  lemma WidthGrowth(w: real, dx: real, ratio: real, h: real, d: real, g: real)
    requires ratio != 0.0 && dx * ratio == d && h == ratio * w && g * h == h + d
    ensures w + dx == g * w
  {
    assert (w + dx) * ratio == w * ratio + dx * ratio;
    assert (g * w) * ratio == g * (ratio * w);
    MulCancel(w + dx, g * w, ratio);
  }

  /** (height + dY) * (width + dX) == g^2 * (height * width) */
  lemma NumeratorSquare(h: real, w: real, dx: real, d: real, g: real)
    requires g * h == h + d && w + dx == g * w
    ensures (h + d) * (w + dx) == (g * g) * (h * w)
  {
    assert (h + d) * (w + dx) == (g * h) * (g * w);
  }

  /** The crop an edge-resize move proposes: scale about the origin, then constrain (maxX = maxY = 1). */
  function ResizeTarget(start: CropValues, o: Origin, pointerY: real, rect: Rect): (r: CropValues)
    requires rect.height != 0.0 && start.ratio != 0.0 && start.height * start.width != 0.0
    ensures r.ratio == start.ratio
    ensures 0.1 <= r.height <= 1.0
  {
    var scaled := Scaled(start, o, ResizeFactor(start, pointerY, rect));
    ConstrainedHeightBounds(scaled, o, HookConstraints());
    Constrained(scaled, o, HookConstraints())
  }

  /** The constraints the resize move passes: maxX = maxY = 1 and no minima (so both default to 0.1). */
  function HookConstraints(): (k: Constraints)
    ensures EffectiveMin(k.minX) == 0.1 && EffectiveMin(k.minY) == 0.1
  {
    Constraints(1.0, 1.0, None, None)
  }

  /**
   * A resize move from a square start box whose ratio is at least 0.1 commits a
   * square box inside the image, with width in (0, 1] and height in [0.1, 1].
   */
  lemma ResizeMoveKeepsInvariant(start: CropValues, o: Origin, pointerY: real, rect: Rect)
    requires rect.height != 0.0 && start.height * start.width != 0.0
    requires start.ratio >= 0.1 && SquareInPixels(start)
    ensures var r := Clamped(ResizeTarget(start, o, pointerY, rect));
      && SquareInPixels(r) && WithinImage(r)
      && 0.0 < r.width <= 1.0 && 0.1 <= r.height <= 1.0
  {
    var f := ResizeFactor(start, pointerY, rect);
    var s := Scaled(start, o, f);
    ScaleKeepsSquare(start, o, f);
    ConstrainedFits(s, o, HookConstraints());
    var t := ResizeTarget(start, o, pointerY, rect);
    ClampedKeepsSquare(t);
  }

  /**
   * With the pointer level with the top edge, a resize of a box that is inside
   * the image with extents in [0.1, 1] commits the box unchanged, whatever the origin.
   */
  lemma ResizeWithoutTravel(start: CropValues, o: Origin, pointerY: real, rect: Rect)
    requires rect.height != 0.0 && start.ratio != 0.0 && start.height * start.width != 0.0
    requires PointerFraction(pointerY, rect) == start.y
    requires WithinImage(start) && 0.1 <= start.width && 0.1 <= start.height
    ensures Clamped(ResizeTarget(start, o, pointerY, rect)) == start
  {
    ResizeFactorAtTop(start, o, pointerY, rect);
    ConstrainedIdentity(start, o, HookConstraints());
    ClampedFixesInside(start);
  }

  /**
   * The default crop of a 40 x 800 image (ratio 0.05, see
   * ImageDropperHook.TallDefaultCrop) and the handle's origin for it
   * (CropOverlay.TallEdgeOrigin).
   */
  const TallStart: CropValues := CropValues(0.0, 0.475, 1.0, 0.05, 0.05)
  const TallOrigin: Origin := Origin(0.5, 0.5, 0.5, 0.5)

  /**
   * For ratio < 0.1 the height-underflow branch fires even without travel: the
   * height is raised to 0.1, the width re-derived as 0.1 / ratio = 2, and x
   * re-anchored to 0.5 - 0.5 * 2 = -0.5.
   */
  lemma TallConstrained()
    ensures Constrained(TallStart, TallOrigin, HookConstraints()) == CropValues(-0.5, 0.45, 2.0, 0.1, 0.05)
  {
    assert (1.0 / 0.05) * 0.1 == 2.0;
  }

  /**
   * The clamp then pulls x back against the uncapped width 2 (x = 1 - 2 = -1)
   * before capping the width at 1: the committed box sticks out of the image on
   * the left and is no longer square in pixels.
   */
  lemma TallClamped()
    ensures var r := Clamped(CropValues(-0.5, 0.45, 2.0, 0.1, 0.05));
      && r == CropValues(-1.0, 0.45, 1.0, 0.1, 0.05)
      && !WithinImage(r) && !SquareInPixels(r)
  {
  }

  /**
   * So ResizeMoveKeepsInvariant's `ratio >= 0.1` cannot be dropped: a resize of
   * the tall default crop with the pointer on the top edge commits a box outside
   * the image that breaks the pixel-square invariant.
   */
  lemma TallResizeBreaksInvariant(pointerY: real, rect: Rect)
    requires rect.height != 0.0 && PointerFraction(pointerY, rect) == TallStart.y
    ensures var r := Clamped(ResizeTarget(TallStart, TallOrigin, pointerY, rect));
      && r == CropValues(-1.0, 0.45, 1.0, 0.1, 0.05)
      && !WithinImage(r) && !SquareInPixels(r)
  {
    ResizeFactorAtTop(TallStart, TallOrigin, pointerY, rect);
    TallConstrained();
    TallClamped();
  }

  /**
   * For ratio > 10 the constrained width falls below the 0.1 minimum: a square
   * box of ratio 20 raised to width 0.1 gets height 2, and the height-overflow
   * branch brings the width back to 1 / 20.
   */
  lemma WideConstrainedWidth(o: Origin)
    ensures Constrained(CropValues(0.0, 0.0, 0.05, 1.0, 20.0), o, HookConstraints()).width == 0.05
  {
    assert (1.0 / 20.0) * 1.0 == 0.05;
  }

  /** Whether a move event can be evaluated: the divisors the active gesture uses are non-zero. */
  predicate MoveDefined(g: Gesture, rect: Option<Rect>)
  {
    match g
    case Idle => true
    case Dragging(_, _) => rect.Some? ==> rect.value.width != 0.0 && rect.value.height != 0.0
    case Resizing(_, s) =>
      rect.Some? ==> rect.value.height != 0.0 && s.ratio != 0.0 && s.height * s.width != 0.0
  }

  /**
   * The hook's state: the crop its owner holds (written through setCropPosition)
   * and the gesture that dragOffset and resizeOrigin record.
   */
  class CropOverlayState {
    var cropPosition: CropValues
    var gesture: Gesture

    constructor (initial: CropValues)
      ensures cropPosition == initial && gesture == Idle
    {
      cropPosition := initial;
      gesture := Idle;
    }

    /** setLocalCrop: clamp, commit through setCropPosition (ratio included), return the box without it. */
    method SetLocalCrop(c: CropValues) returns (shown: Box)
      modifies this`cropPosition
      ensures cropPosition == Clamped(c)
      ensures shown == Box(cropPosition.x, cropPosition.y, cropPosition.width, cropPosition.height)
    {
      var x, y, cropWidth, cropHeight, ratio := c.x, c.y, c.width, c.height, c.ratio;
      if x < 0.0 { x := 0.0; }
      if y < 0.0 { y := 0.0; }
      if x + cropWidth > 1.0 { x := 1.0 - cropWidth; }
      if y + cropHeight > 1.0 { y := 1.0 - cropHeight; }
      if cropWidth > 1.0 { cropWidth := 1.0; }
      if cropHeight > 1.0 { cropHeight := 1.0; }
      cropPosition := CropValues(x, y, cropWidth, cropHeight, ratio);
      shown := Box(x, y, cropWidth, cropHeight);
    }

    /** setDragOffset(offset): a drag starts from the crop as it is now. */
    method SetDragOffset(offset: Point)
      modifies this`gesture
      ensures gesture == Dragging(offset, cropPosition)
    {
      gesture := Dragging(offset, cropPosition);
    }

    /** setResizeOrigin(origin): a resize starts from the crop as it is now. */
    method SetResizeOrigin(origin: Origin)
      modifies this`gesture
      ensures gesture == Resizing(origin, cropPosition)
    {
      gesture := Resizing(origin, cropPosition);
    }

    /**
     * The window's mousemove listener.  With no gesture, or no overlay element
     * (rect None), nothing happens; otherwise the move is computed from the
     * gesture's start box and committed through setLocalCrop.
     */
    method MouseMove(pointer: Point, rect: Option<Rect>)
      requires MoveDefined(gesture, rect)
      modifies this`cropPosition
      ensures gesture.Idle? || rect.None? ==> cropPosition == old(cropPosition)
      ensures gesture.Dragging? && rect.Some? ==>
        cropPosition == Clamped(DragTarget(gesture.start, gesture.offset, pointer, rect.value))
      ensures gesture.Resizing? && rect.Some? ==>
        cropPosition == Clamped(ResizeTarget(gesture.start, gesture.origin, pointer.y, rect.value))
    {
      match gesture
      case Idle =>
      case Dragging(offset, start) =>
        if rect.Some? {
          var box := rect.value;
          var x := (pointer.x - box.left - offset.x) / box.width;
          var y := (pointer.y - box.top - offset.y) / box.height;
          var _ := SetLocalCrop(CropValues(x, y, start.width, start.height, start.ratio));
        }
      case Resizing(origin, start) =>
        if rect.Some? {
          var scale := ResizeFactor(start, pointer.y, rect.value);
          var newCoords := Scaled(start, origin, scale);
          var constrainedCoords := GetConstrainedCoordinates(newCoords, origin, HookConstraints());
          var _ := SetLocalCrop(constrainedCoords);
        }
    }

    /** The window's mouseup listener: dragOffset and resizeOrigin both go back to null. */
    method MouseUp()
      modifies this`gesture
      ensures gesture == Idle
    {
      gesture := Idle;
    }
  }
}
