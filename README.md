# Crop-box geometry of an image cropper, in Dafny

This project models the crop-box geometry of a browser image cropper. The user drops images onto a page. Each image is downscaled and gets a default crop region. The region is a `CropValues` box `(x, y, width, height, ratio)` in normalised coordinates, so the whole image is `(0, 0, 1, 1)`. `ratio` is the image's pixel width divided by its pixel height.

The user changes the box in two ways:
- Dragging the box translates it.
- Dragging the handle on its top edge resizes it about its centre: the box is scaled about an origin, then constrained.

Every gesture commits its result through a boundary clamp (`setLocalCrop`).

The project models that geometry over Dafny `real`. It has one module per source file:

| module | source file | what it holds |
|---|---|---|
| `Types` | `src/types.ts` | The two records. The invariant the code keeps is normalised `height == ratio * width`, `SquareInPixels`, which makes the crop square in pixels. |
| `ScaleFunctions` | `src/functions/scaleFunctions.ts` | `getScaledCoordinates` is the pure function `Scaled`. `getConstrainedCoordinates` is two things, proved equal: the imperative method `GetConstrainedCoordinates`, which reassigns locals the way the source does, and the specification function `Constrained`, which is `HeightPass ∘ WidthPass`. |
| `CropOverlayHook` | `src/hooks/useCropOverlay.tsx` | The clamp `Clamped`, the drag target and the resize factor and target. The class `CropOverlayState` holds the committed crop and the gesture `Idle`, `Dragging(offset, start)` or `Resizing(origin, start)`. |
| `CropOverlay` | `src/components/CropOverlay.tsx` | The mask strips, the handle, the edge origin and the two mouse-down handlers. |
| `ImageDropperHook` | `src/hooks/useImageDropper.tsx` | The image-type filter (a function and a loop), the downscale rule, the default crop, and the class `ImageDropperState`. Its methods are delete, clear and set-crop on the two parallel lists. |
| `RealFacts`, `Wrappers` | (none) | Small lemmas about real multiplication and division, and `Option`. |

Pointer positions and client rects enter the model as parameters: the overlay's rect for the moves, and the centre box's rect for `CropOverlay.CentreMouseDown`. The centre box's rect is tied to the overlay's only through `CropOverlay.CentreBox`, in `CropOverlay.DragFromPressPoint`. No window listener, React state or timing is modelled.

The gesture's `start` field is the crop that the source's `useEffect` closure captures. The effects depend only on `[dragOffset]` and `[resizeOrigin]`. So every move is computed from the box as the gesture began, not from the previous move's result. The handle's mouse-down calls `setResizeOrigin` and `setLocalCrop({...cropPosition})` in the same event, and React batches both updates into one render. The resize therefore starts from the clamped crop, and `CropOverlay.HandleMouseDown` commits the crop first so that its ensures says this.

Where the code departs from what its own comments and names suggest, the model keeps the code's behaviour:
- **Aspect ratio.** The comment on `CropValues` says "ratio: width / height" (`src/types.ts:6`). There `ratio` is the image's pixel width over its pixel height; the crop does not keep `width / height == ratio`. The code re-derives `height = ratio * width` (`src/functions/scaleFunctions.ts:54,59,66,71`), and the default crop satisfies that too. The model proves `SquareInPixels`, and `Types.PixelSquare` shows that it means the crop is square in pixels.
- **Resize factor.** The resize factor carries the comment "needs investigating" (`src/hooks/useCropOverlay.tsx:63`). It is `((h + dY) * (w + dY/ratio)) / (h * w)`, which for a square box is `((h + dY) / h)^2` (`CropOverlayHook.ResizeFactorSquare`), quadratic in the handle's travel. So the top edge of the box scaled about the edge origin lands `dY^2 / (2h)` above the pointer (`CropOverlay.ResizeTopEdge`); that is the scaled box, before the constraint pass and the clamp.
- **Constraint bound.** `getConstrainedCoordinates` documents its constraints as "Maximum values for each coordinate" (`src/functions/scaleFunctions.ts:39`), but `maxX` and `maxY` are never read. The bound is the literal 1.
- **The clamp.** `setLocalCrop` clamps `x` against the width before capping the width. A box wider than the image therefore ends with `x = 1 - width < 0` (`CropOverlayHook.ClampedOverwide`).
- **Height overflow.** The height-overflow branch of `getConstrainedCoordinates` pins `y` to 0 instead of re-anchoring it.
- **Tall and wide images.** `CropOverlayHook.ResizeMoveKeepsInvariant` needs `ratio >= 0.1`, and the source does not keep the invariants without it. The default crop of an image taller than 10:1 has height `ratio`, already below the 0.1 minimum; this is why `CropOverlayHook.ResizeWithoutTravel` asks for extents of at least 0.1. Take a 40 x 800 image (`ImageDropperHook.TallDefaultCrop`, `CropOverlay.TallEdgeOrigin`). A resize move without travel hits the height-underflow branch, which sets the height to 0.1 and the width to `0.1 / ratio = 2` (`CropOverlayHook.TallConstrained`). `setLocalCrop` then clamps x against the width 2 before capping it, and commits `(-1, 0.45, 1, 0.1, 0.05)` (`CropOverlayHook.TallClamped`, `CropOverlayHook.TallResizeBreaksInvariant`). That box sticks out of the image on the left, and its height 0.1 is not `ratio * width = 0.05`. For images wider than 10:1 the constrained width can fall below 0.1: the width pass raises it to 0.1, the height `ratio * 0.1` then overflows, and the height pass brings the width back to `1 / ratio` (`CropOverlayHook.WideConstrainedWidth`). `ScaleFunctions.ConstrainedFits` therefore gives the width only in (0, 1].

## Model

| member | source | states |
|---|---|---|
| Types.PixelSquare | src/types.ts:1-14 | With `ratio` = pixel width / pixel height, `height == ratio * width` holds exactly when the crop's pixel height equals its pixel width. |
| ScaleFunctions.Scaled | src/functions/scaleFunctions.ts:17-33 | Scaling keeps the ratio and multiplies by the factor both the origin-to-corner distances `originX - x` and `originY - y` and the extents `width` and `height`. |
| ScaleFunctions.ScaleIdentity | src/functions/scaleFunctions.ts:21-24 | Factor 1 returns the input box unchanged, for any origin. |
| ScaleFunctions.ScaleKeepsAnchor | src/functions/scaleFunctions.ts:17-33 | An origin anchored at a point of the box (absolute position equals `x + proportion * width`) stays anchored at that point of the scaled box. |
| ScaleFunctions.ScaleKeepsRelativePosition | src/functions/scaleFunctions.ts:21-24 | For non-zero factor and extents, `(originX - x') / w' == (originX - x) / w`, and likewise for y. |
| ScaleFunctions.ScaleKeepsSquare | src/functions/scaleFunctions.ts:23-24 | `height == ratio * width` before scaling implies it after. |
| ScaleFunctions.ScaleCompose | src/functions/scaleFunctions.ts:21-24 | Scaling by f, then by g, about the same origin equals scaling by f·g. |
| ScaleFunctions.EffectiveMin | src/functions/scaleFunctions.ts:44-45 | The `or 0.1` default: a present non-zero minimum is kept; an absent or zero one becomes 0.1. The result is never zero. |
| ScaleFunctions.WidthPass | src/functions/scaleFunctions.ts:52-62 | The ratio is kept. When the width lies in [minX, 1] the box is unchanged; otherwise the width becomes 1 (overflow) or minX (underflow). |
| ScaleFunctions.HeightPass | src/functions/scaleFunctions.ts:64-74 | The ratio is kept. When the height lies in [minY, 1] the box is unchanged; otherwise the height becomes 1 (overflow) or minY (underflow). |
| ScaleFunctions.Constrained | src/functions/scaleFunctions.ts:42-83 | The ratio is kept, and a box on which no branch fires comes back unchanged. |
| ScaleFunctions.GetConstrainedCoordinates | src/functions/scaleFunctions.ts:42-83 | The two sequential if/else passes over the locals compute exactly `Constrained`, the height pass applied to the width pass's result. |
| ScaleFunctions.ConstrainedIdentity | src/functions/scaleFunctions.ts:47-81 | With `minX <= width <= 1` and `minY <= height <= 1`, no branch fires and the box comes back unchanged. |
| ScaleFunctions.ConstrainedHeightBounds | src/functions/scaleFunctions.ts:64-74 | The ratio is never altered. When `minY <= 1`, the output height lies in `[minY, 1]`. |
| ScaleFunctions.ConstrainedSquareWhenClamped | src/functions/scaleFunctions.ts:52-74 | Whenever any branch fires, the output satisfies `height == ratio * width`. |
| ScaleFunctions.ConstrainedKeepsSquare | src/functions/scaleFunctions.ts:52-74 | A square input gives a square output, whether or not a branch fires. |
| ScaleFunctions.ConstrainedAnchoring | src/functions/scaleFunctions.ts:52-74 | When a branch fires, x is `originX - originXProportion * width`. y is pinned to 0 if the width pass left the height above 1, and otherwise is `originY - originYProportion * height`. |
| ScaleFunctions.WidthPassAnchors | src/functions/scaleFunctions.ts:52-62 | A firing width branch re-anchors both x and y from the origin's proportions. |
| ScaleFunctions.HeightPassAnchors | src/functions/scaleFunctions.ts:64-74 | A firing height branch re-anchors x. It sets y to 0 on overflow, and re-anchors y on underflow. |
| ScaleFunctions.ConstrainedFits | src/functions/scaleFunctions.ts:42-83 | Take minima in (0, 1], a ratio at least minY and a square input. The output is square, with width in (0, 1] and height in [minY, 1]. |
| ScaleFunctions.WidthPassFits | src/functions/scaleFunctions.ts:52-62 | After the width pass, a square box stays square with width in [minX, 1]. |
| ScaleFunctions.HeightPassFits | src/functions/scaleFunctions.ts:64-74 | The height pass keeps the width of a square box with width in (0, 1] within (0, 1], provided `minY <= ratio`. |
| CropOverlayHook.Clamped | src/hooks/useCropOverlay.tsx:18-29 | The committed box has width and height at most 1 and the same ratio. If the incoming width is at most 1, x lies in `[0, 1 - width]`; likewise for y and height. |
| CropOverlayHook.ClampedFixesInside | src/hooks/useCropOverlay.tsx:20-25 | A box already inside the image is left exactly as it is. |
| CropOverlayHook.ClampedIdempotent | src/hooks/useCropOverlay.tsx:20-25 | For extents up to 1, clamping twice is clamping once. |
| CropOverlayHook.ClampedExample | src/hooks/useCropOverlay.tsx:22 | `(0.8, 0.1, 0.3, 0.3, 1)` clamps to x = 0.7, with y unchanged. |
| CropOverlayHook.ClampedOverwide | src/hooks/useCropOverlay.tsx:22-24 | A box wider than 1 ends with width 1 and `x = 1 - width < 0`, because x is clamped before the width is capped. |
| CropOverlayHook.ClampedKeepsSquare | src/hooks/useCropOverlay.tsx:24-25 | For extents up to 1, the clamp moves the box without touching its extents, so the square invariant survives. |
| CropOverlayHook.DragTarget | src/hooks/useCropOverlay.tsx:36-38 | A drag changes only x and y: width, height and ratio are the start box's. The new x, placed in the overlay's rect and shifted by the offset, lands on the pointer; likewise for y. |
| CropOverlayHook.DragMoveKeepsInvariant | src/hooks/useCropOverlay.tsx:33-39 | A drag of a box with extents in [0, 1] commits a box inside the image. It keeps the start box's extents and ratio, and the square invariant if the start box had it. |
| CropOverlayHook.PointerFraction | src/hooks/useCropOverlay.tsx:59 | The fraction placed back in the overlay's rect (`top + fraction * height`) is the pointer's y. |
| CropOverlayHook.ResizeFactor | src/hooks/useCropOverlay.tsx:59-64 | The factor times `height * width` is `(height + dY) * (width + dY / ratio)`, with `dY` the box's top minus the pointer's fraction. |
| CropOverlayHook.ResizeFactorAtTop | src/hooks/useCropOverlay.tsx:59-66 | With the pointer level with the box's top edge, the factor is 1 and the scaled box is the start box. |
| CropOverlayHook.ResizeFactorSquare | src/hooks/useCropOverlay.tsx:59-64 | For a square box, the factor is `((height + dY) / height)^2`, so it is never negative. |
| CropOverlayHook.ResizeTarget | src/hooks/useCropOverlay.tsx:66-67 | The scaled, then constrained, box keeps the start box's ratio and has height in [0.1, 1]. |
| CropOverlayHook.HookConstraints | src/hooks/useCropOverlay.tsx:67 | The resize passes `{maxX: 1, maxY: 1}`, so both effective minima are 0.1. |
| CropOverlayHook.ResizeMoveKeepsInvariant | src/hooks/useCropOverlay.tsx:53-68 | Take a square start box with ratio at least 0.1. The scale, constrain and clamp pipeline commits a square box inside the image, with width in (0, 1] and height in [0.1, 1]. |
| CropOverlayHook.ResizeWithoutTravel | src/hooks/useCropOverlay.tsx:57-68 | Take a box inside the image with extents of at least 0.1, and no pointer travel. The resize commits the box unchanged, whatever the origin. |
| CropOverlayHook.TallConstrained | src/functions/scaleFunctions.ts:69-73 | For the 40 x 800 default crop `(0, 0.475, 1, 0.05, 0.05)` about its centre, the height-underflow branch gives `(-0.5, 0.45, 2, 0.1, 0.05)`. |
| CropOverlayHook.TallClamped | src/hooks/useCropOverlay.tsx:20-25 | The clamp turns `(-0.5, 0.45, 2, 0.1, 0.05)` into `(-1, 0.45, 1, 0.1, 0.05)`, which is outside the image and not square in pixels. |
| CropOverlayHook.TallResizeBreaksInvariant | src/hooks/useCropOverlay.tsx:53-68 | A resize without travel of the 40 x 800 default crop about its centre commits `(-1, 0.45, 1, 0.1, 0.05)`, outside the image and not square in pixels. |
| CropOverlayHook.WideConstrainedWidth | src/functions/scaleFunctions.ts:57-68 | For ratio 20, a box of width 0.05 leaves the constraint pass with width `1 / 20 = 0.05`, below the 0.1 minimum. |
| CropOverlayHook.CropOverlayState.constructor | src/hooks/useCropOverlay.tsx:12-16 | The hook starts idle (both gesture fields null) on the crop it is given. |
| CropOverlayHook.CropOverlayState.SetLocalCrop | src/hooks/useCropOverlay.tsx:18-29 | The six conditional reassignments commit exactly `Clamped(c)`, ratio included. The returned box is the committed one without its ratio. |
| CropOverlayHook.CropOverlayState.SetDragOffset | src/hooks/useCropOverlay.tsx:14 | Recording a drag offset starts a drag from the crop as it is now. |
| CropOverlayHook.CropOverlayState.SetResizeOrigin | src/hooks/useCropOverlay.tsx:16 | Recording a resize origin starts a resize from the crop as it is now. |
| CropOverlayHook.CropOverlayState.MouseMove | src/hooks/useCropOverlay.tsx:31-81 | Idle, or no overlay element: nothing changes. Dragging: the commit is `Clamped(DragTarget(start, ...))`. Resizing: the commit is `Clamped(ResizeTarget(start, ...))`. The gesture itself is untouched. |
| CropOverlayHook.CropOverlayState.MouseUp | src/hooks/useCropOverlay.tsx:40-42 | Mouse-up returns the gesture to idle. The same holds for the resize listener at lines 71-73. |
| CropOverlay.MaskStrips | src/components/CropOverlay.tsx:25-28 | Left strip + crop + right strip widths sum to 1, and so do the top, crop and bottom heights. The side strips are as tall as the crop and the top and bottom strips span the full width. All four sizes are non-negative exactly when the crop lies inside the image. |
| CropOverlay.HandlePosition | src/components/CropOverlay.tsx:40 | The handle sits on the top edge, halfway between the left and right corners. |
| CropOverlay.EdgeOrigin | src/components/CropOverlay.tsx:42-45 | The origin is the box centre and both proportions are 0.5, so it is anchored at the box. Consequently `originX - originXProportion * width == x`. |
| CropOverlay.HandleStaysOverOrigin | src/components/CropOverlay.tsx:40-47 | Scaling about the edge origin, by any factor, keeps the handle horizontally over the origin. |
| CropOverlay.ResizeTopEdge | src/hooks/useCropOverlay.tsx:59-66 | For a square box resized about its centre, the new top edge is `pointer - dY^2 / (2 * height)`, not the pointer's position. |
| CropOverlay.CentreBox | src/components/CropOverlay.tsx:30 | The centre box's rect, read back as fractions of the overlay's rect, gives the crop's x, y, width and height. |
| CropOverlay.DragOffset | src/components/CropOverlay.tsx:33-36 | The offset added to the centre box's top-left gives the pointer. |
| CropOverlay.DragFromPressPoint | src/components/CropOverlay.tsx:30-36 | The offset is the pointer relative to the box's top-left. A move with the pointer where it was pressed therefore proposes the start box itself. |
| CropOverlay.CentreMouseDown | src/components/CropOverlay.tsx:30-37 | Pressing the centre box starts a drag with that offset from the current crop. |
| CropOverlay.HandleMouseDown | src/components/CropOverlay.tsx:40-49 | Pressing the handle commits `Clamped(crop)` and starts a resize about the edge origin from that committed crop. |
| CropOverlay.TallEdgeOrigin | src/components/CropOverlay.tsx:42-45 | The handle's origin for the 40 x 800 default crop is `(0.5, 0.5)` with proportions 0.5. |
| ImageDropperHook.MatchesImage | src/hooks/useImageDropper.tsx:106 | A matching type has at least five characters, and a type ending in "image" matches. |
| ImageDropperHook.MatchesImageIff | src/hooks/useImageDropper.tsx:106 | `type.match('image.*')` holds exactly when "image" occurs somewhere in the type. |
| ImageDropperHook.ImageFiles | src/hooks/useImageDropper.tsx:103-109 | Every kept file was dropped and matches, and no more files are kept than were dropped. |
| ImageDropperHook.ImageFilesMembership | src/hooks/useImageDropper.tsx:103-109 | A file is kept if and only if it was dropped and its type matches. |
| ImageDropperHook.ImageFilesAppend | src/hooks/useImageDropper.tsx:103-109 | Filtering distributes over concatenation, so the kept files are in drop order. |
| ImageDropperHook.SelectImageFiles | src/hooks/useImageDropper.tsx:103-109 | The push loop computes exactly `ImageFiles(files)`. |
| ImageDropperHook.Downscale | src/hooks/useImageDropper.tsx:35-50 | Neither dimension grows and the proportion `width * H == height * W` is kept. A landscape image ends with width at most 800, exactly 800 if it was wider. Any other image ends with height at most 600, exactly 600 if it was taller. An image within its limit is unchanged. |
| ImageDropperHook.DefaultCrop | src/hooks/useImageDropper.tsx:68-74 | For width ≥ 0 and height > 0, the crop lies inside the image, with positive extents when the width is positive. It has `ratio = width / height` and is square in pixels. It is centred: in landscape `x + width/2 = 1/2` with y 0 and height 1; otherwise `y + height/2 = 1/2` with x 0 and width 1. |
| ImageDropperHook.DefaultCropZeroWidth | src/hooks/useImageDropper.tsx:68-74 | An image of width 0 gets the degenerate crop `(0, 0.5, 1, 0, 0)`. |
| ImageDropperHook.TallDefaultCrop | src/hooks/useImageDropper.tsx:68-74 | A 40 x 800 image gets `(0, 0.475, 1, 0.05, 0.05)`, already lower than the 0.1 minimum height. |
| ImageDropperHook.RemoveAt | src/hooks/useImageDropper.tsx:141-142 | Exactly element k is removed; the elements before and after it keep their order, and the multiset loses only that element. |
| ImageDropperHook.SpliceStart | src/hooks/useImageDropper.tsx:141 | A negative start counts from the end; the start is clamped to `[0, length]`. |
| ImageDropperHook.SpliceOne | src/hooks/useImageDropper.tsx:139-142 | `splice(i, 1)` on a copy removes element i when it exists. A start past the end leaves the list unchanged, a negative start removes from the end, and the empty list stays empty. |
| ImageDropperHook.Spread | src/hooks/useImageDropper.tsx:170 | Spreading an object with no fields keeps the old crop; spreading one with all five fields gives exactly those values. |
| ImageDropperHook.SpreadOfComplete | src/hooks/useImageDropper.tsx:170 | Spreading a complete CropValues over the old one replaces every field. |
| ImageDropperHook.WithCrop | src/hooks/useImageDropper.tsx:167-174 | Only entry index's `cropPosition` changes, to the new crop; the length and every other entry stay as they were. |
| ImageDropperHook.ImageDropperState.constructor | src/hooks/useImageDropper.tsx:16-17 | Both lists start null. |
| ImageDropperHook.ImageDropperState.HandleDelete | src/hooks/useImageDropper.tsx:137-146 | When both lists are non-null, each becomes its `splice(index, 1)`. Otherwise nothing changes. The compression effect that the new `images` re-triggers is not modelled (see below). |
| ImageDropperHook.ImageDropperState.Clear | src/hooks/useImageDropper.tsx:148-151 | Both lists become null. |
| ImageDropperHook.ImageDropperState.SetCropPosition | src/hooks/useImageDropper.tsx:167-174 | A null list stays null. Otherwise the list becomes `WithCrop(list, index, crop)`. |

## Left out

- Browser I/O is not modelled: FileReader, `Image` decoding, canvas `drawImage`/`toBlob`, `URL.createObjectURL` and the JPEG quality (`src/hooks/useImageDropper.tsx:26-34, 52-62, 84-88, 113-133`). The image's pixel size is an input to `Downscale`.
- The async compression effect is not modelled. That is the per-image callback chain that writes `compressedImages[index]`, and the completion counting at `src/hooks/useImageDropper.tsx:81` and `:127`. Both depend on the order in which callbacks fire. One consequence is outside the model: `handleDelete` calls `setImages(newImages)`, which re-runs the `[images]` effect (`src/hooks/useImageDropper.tsx:20-97`). That effect rebuilds `compressedImages` from scratch with default crops, so the spliced list that `ImageDropperHook.ImageDropperState.HandleDelete` leaves behind does not last, and the crops the user set are lost.
- React `useState`/`useEffect`, `addEventListener`/`removeEventListener` and `getBoundingClientRect` are not modelled. Pointer positions and the overlay's client rect are parameters; "no overlay element" is `rect == None`.
- `src/components/ImageDropper.tsx` and `src/app/page.tsx` are not part of this model. They are layout and JSX only.
- `upload` is not modelled: its body is an empty TODO.
- The `console.log` calls are left out.
- CSS percentage strings are left out. The strips and the handle are modelled as numeric fractions.
- IEEE floating point is not modelled: numbers are `real`, with no NaN, Infinity or rounding. Every divisor therefore carries a non-zero precondition: `ratio`, `height * width`, the overlay's width and height, and the crop's width and height at the handle. This applies to ScaleFunctions.HeightPass, ScaleFunctions.Constrained, ScaleFunctions.GetConstrainedCoordinates, CropOverlayHook.DragTarget, CropOverlayHook.PointerFraction, CropOverlayHook.ResizeFactor, CropOverlayHook.ResizeTarget, CropOverlayHook.CropOverlayState.MouseMove (through `MoveDefined`), CropOverlay.EdgeOrigin and CropOverlay.HandleMouseDown.
- ImageDropperHook.DefaultCrop requires a positive pixel height and a non-negative width. An image of height 0 is excluded: there the source divides by zero and gets an infinite ratio (`width / 0`), or NaN when the width is 0 too. Width 0 with a positive height is kept, and gives the degenerate crop of `ImageDropperHook.DefaultCropZeroWidth`.
- ImageDropperHook.Downscale: the truncation of a fractional size by `canvas.width = width` is not modelled, because it is part of the canvas I/O.
- ImageDropperHook.ImageDropperState.SetCropPosition: the source throws on an index outside a non-null list, hence the precondition. The model also does not capture that the source mutates the entry object in place, which the old array shares. It builds a new entry instead.
- CropOverlayHook.CropOverlayState: the two nullable fields `dragOffset` and `resizeOrigin` are one tagged gesture. A second mouse-down therefore replaces the gesture in progress; the source would have both fields set at once.
- CropOverlay.HandleMouseDown calls `setLocalCrop` before `setResizeOrigin`, while the source calls them the other way round. Under React's batching both updates land in the same render, so the resulting state is the same.
