# Cropper and free-drawing tools of the image editor, in Dafny

This project models two controllers of a browser image editor built on
Fabric.js, and proves properties of the model.

- **The cropper** (`cropper.js`) enters and leaves a cropping mode. On the
  way in and out it toggles:
  - the canvas's selection flag and cursor;
  - every object's `evented` flag;
  - the mouse and keyboard handlers.

  While cropping it turns a mouse drag from an anchor into a crop
  rectangle, in one of three modes: a free drag, a square with Shift held,
  or a fixed aspect ratio with a second pass when the rectangle runs past
  the bottom edge. It can set the cropzone to a centred rectangle of a
  preset ratio, and it exports the region under the cropzone without the
  cropzone itself.
- **The free-drawing tool** (`freeDrawing.js`) has two modes:
  - a plain brush, through the canvas's drawing mode;
  - a mosaic brush, which on every mouse-move replaces the square pixel
    block under the pointer with its average colour. On mouse-up it hands
    a snapshot of the canvas to the editor as a new image object.

Files:

| file | module | contents |
|---|---|---|
| `wrappers.dfy` | `Wrappers` | `Option` |
| `crop_geometry.dfy` | `CropGeometry` | the drag and preset-rectangle arithmetic over `real`: functions and their lemmas |
| `fabric_canvas.dfy` | `FabricCanvas` | the part of the Fabric canvas and the DOM document the two tools drive |
| `cropper.dfy` | `CropperComponent` | class `Cropper` |
| `mosaic.dfy` | `Mosaic` | the block average: the specification functions, the two loops over an `array<int>`, and its lemmas |
| `free_drawing.dfy` | `FreeDrawingComponent` | class `FreeDrawing` |

Conventions:

- A preset ratio of `0.0` stands for JavaScript's absent or `null` ratio,
  which is falsy. The drag anchor `_startX`/`_startY` starts as `null`,
  which arithmetic reads as 0, so it is modelled as `0.0`.
- The canvas's handler registrations are a sequence in registration order.
  Fabric's `off` drops the first matching registration, and so does the
  model. The document's key listeners are a set, because a DOM listener is
  registered at most once.
- `clamp` comes from a util file that is not part of this model. It is
  defined here as clamping into the interval between its two bounds,
  whichever order they come in; the call sites swap the bounds on purpose.
- `keyCodes.SHIFT` comes from a constants file that is not part of this
  model; it is the DOM key code 16.
- JavaScript truthiness is spelled out:
  - `setting.width || this.width` keeps the old width when the setting's
    width is absent or 0 (`TruthyWidth`);
  - `if (setting.color)` ignores an absent or empty colour (`TruthyColor`).
- `Math.floor(sum / area)` with a positive area is Dafny's `/` on `int`.

Two behaviours of the code that are easy to overlook, and that the model
keeps:

- `setMosaic` does not turn the canvas's drawing mode on.
- `end` sets every object's `evented` flag to `true`. It does not restore
  the values they had before `start`.

## Model

Paths are relative to the repository root; `cropper.js` is
`apps/image-editor/src/js/component/cropper.js` and `freeDrawing.js` is
`apps/image-editor/src/js/component/freeDrawing.js`.

| member | source | states |
|---|---|---|
| CropGeometry.Clamp | apps/image-editor/src/js/component/cropper.js:216-219 | the result lies between the two bounds taken in either order; it is `v` when `v` lies between them, and the nearer bound otherwise |
| CropGeometry.ExceedsMoveThreshold | apps/image-editor/src/js/component/cropper.js:193 | a move of more than `MOUSE_MOVE_THRESHOLD` (10) along either axis counts as a drag; a move that does not count stays within 10 on both axes; a drag never ends at the anchor |
| CropGeometry.FreeDragRect | apps/image-editor/src/js/component/cropper.js:216-219 | the clamped rectangle between anchor and pointer lies on the canvas and contains the anchor whenever the anchor is on the canvas |
| CropGeometry.FreeDragIsClippedBoundingBox | apps/image-editor/src/js/component/cropper.js:216-219 | with no Shift and no ratio, and the anchor on the canvas, the rectangle is the bounding box of anchor and pointer intersected with the canvas, so it lies on the canvas (non-negative sides, inside `W x H`) and contains the anchor |
| CropGeometry.FreeDragAnchoredOpposite | apps/image-editor/src/js/component/cropper.js:216-219 | the free drag lies on the canvas and has the anchor at the corner opposite the pointer on each axis |
| CropGeometry.FreeDragExample | apps/image-editor/src/js/component/cropper.js:216-219 | a drag from (10,10) to (60,40) on a 100x100 canvas gives {10, 10, 50, 30} |
| CropGeometry.SquareRect | apps/image-editor/src/js/component/cropper.js:223-235 | the Shift rectangle is a square whose side is the larger of the free drag's sides, ending at the anchor on each axis where the pointer is at or before it |
| CropGeometry.ShiftDragIsSquare | apps/image-editor/src/js/component/cropper.js:221-235 | a Shift drag without a ratio has width == height == the larger side of the free drag; the near edge moves to `anchor - size` exactly on the axes where the pointer is at or before the anchor, and stays at the anchor on the others |
| CropGeometry.ShiftDragExample | apps/image-editor/src/js/component/cropper.js:221-235 | the same drag with Shift held gives {10, 10, 50, 50} |
| CropGeometry.PresetRatioWinsOverShift | apps/image-editor/src/js/component/cropper.js:221-236 | with a non-zero ratio the ratio branch is taken whether Shift is held or not |
| CropGeometry.RatioRect | apps/image-editor/src/js/component/cropper.js:236-264 | the ratio branch either keeps the free drag's width (the first pass stands) or takes the room below the first pass's top edge as its height (the overflow pass) |
| CropGeometry.CalcRectDimensionFromPoint | apps/image-editor/src/js/component/cropper.js:210-273 | Shift without a ratio gives a square; a free drag from an on-canvas anchor lies on the canvas and contains the anchor (the ratio branch is covered by `RatioDragKeepsRatio` and `RatioDragInsideCanvas`) |
| CropGeometry.RatioRectKeepsRatio | apps/image-editor/src/js/component/cropper.js:236-264 | the ratio branch yields `width == height * presetRatio`, whether the first pass stands or the overflow correction replaces it, from any starting rectangle |
| CropGeometry.RatioDragKeepsRatio | apps/image-editor/src/js/component/cropper.js:210-273 | every drag with a non-zero ratio yields `width == height * presetRatio`, Shift or not |
| CropGeometry.FirstPassHeightFacts | apps/image-editor/src/js/component/cropper.js:238 | the first-pass height `width / presetRatio` is non-negative and times the ratio gives back the width |
| CropGeometry.ReanchorHorizontal | apps/image-editor/src/js/component/cropper.js:242-244 | re-anchoring a width that fits the room beside the anchor keeps the rectangle horizontally on the canvas, around the anchor, with its far or near edge on it |
| CropGeometry.ReanchorVertical | apps/image-editor/src/js/component/cropper.js:246-248 | re-anchoring vertically keeps the top edge on the canvas and the anchor between top and bottom |
| CropGeometry.ReanchorInsideCanvas | apps/image-editor/src/js/component/cropper.js:242-248 | a re-anchored rectangle that fits the room the anchor leaves lies on the canvas and contains the anchor |
| CropGeometry.ReanchorFreeDrag | apps/image-editor/src/js/component/cropper.js:242-248 | re-anchoring the free drag with its own width keeps it horizontally on the canvas, anchored, with the top edge on the canvas and the anchor inside |
| CropGeometry.RatioFirstPassFacts | apps/image-editor/src/js/component/cropper.js:238-248 | the first ratio pass keeps the free drag's width, has the ratio, a non-negative height, lies horizontally on the canvas and contains the anchor |
| CropGeometry.OverflowWidthFits | apps/image-editor/src/js/component/cropper.js:251-253 | after an overflow, the width recomputed from the remaining height lies in `[0, first-pass width]` |
| CropGeometry.ReanchorAfterOverflow | apps/image-editor/src/js/component/cropper.js:252-263 | re-anchoring to the room below the top edge, with any width up to the first pass's, lies on the canvas around the anchor |
| CropGeometry.RatioOverflowPassFacts | apps/image-editor/src/js/component/cropper.js:251-264 | the overflow pass lies on the canvas and contains the anchor |
| CropGeometry.RatioRectInsideCanvas | apps/image-editor/src/js/component/cropper.js:236-264 | the ratio branch, started from an on-canvas rectangle anchored opposite the pointer, lies on the canvas and contains the anchor |
| CropGeometry.RatioDragInsideCanvas | apps/image-editor/src/js/component/cropper.js:210-273 | any drag with a positive ratio from an anchor on the canvas lies on the canvas and contains the anchor |
| CropGeometry.GetScale | apps/image-editor/src/js/component/cropper.js:376 | a value above the limit times the scale is the limit; otherwise the scale is 1 |
| CropGeometry.GetScaleBounds | apps/image-editor/src/js/component/cropper.js:376 | a shrinking scale lies in `[0, 1)`, and in `(0, 1)` for a positive limit |
| CropGeometry.ScaleBothKeepsRatio | apps/image-editor/src/js/component/cropper.js:381-385 | scaling both sides by the same factor keeps `width == height * presetRatio` |
| CropGeometry.ScaleBothShrinks | apps/image-editor/src/js/component/cropper.js:381-385 | a factor in `(0, 1]` keeps both sides positive and no larger |
| CropGeometry.FitWidthStep | apps/image-editor/src/js/component/cropper.js:381-382 | after the width step the width fits the canvas width, nothing grows, an overflowing width becomes exactly the canvas width and a fitting size is left alone |
| CropGeometry.FitHeightStep | apps/image-editor/src/js/component/cropper.js:384-385 | the same for the height step and the canvas height |
| CropGeometry.PresetSizeFits | apps/image-editor/src/js/component/cropper.js:375-385 | the fitted size is positive, within the canvas, and spans the full canvas width or the full canvas height |
| CropGeometry.PresetSizeKeepsRatio | apps/image-editor/src/js/component/cropper.js:375-385 | the fitted size keeps `width == height * presetRatio` |
| CropGeometry.CentredInsideCanvas | apps/image-editor/src/js/component/cropper.js:387-393 | a size no larger than the canvas, centred with `(W - w) / 2` and `(H - h) / 2`, lies on the canvas with its own sides |
| CropGeometry.PresetPropertiesForCropSize | apps/image-editor/src/js/component/cropper.js:370-394 | the preset rectangle is always centred: `left == (W - width) / 2` and `top == (H - height) / 2`; its fit and ratio are `PresetRectFitsAndIsCentred` |
| CropGeometry.PresetRectFitsAndIsCentred | apps/image-editor/src/js/component/cropper.js:370-394 | for a positive ratio on a non-empty canvas the preset rectangle is non-empty, lies on the canvas, has the ratio, spans the full width or height, and has `left == (W - width) / 2` and `top == (H - height) / 2` |
| FabricCanvas.RemoveFirst | apps/image-editor/src/js/component/cropper.js:134 | removing an object that is absent changes nothing; removing one that is present shortens the collection by one and keeps only existing elements |
| FabricCanvas.RemoveFirstContents | apps/image-editor/src/js/component/cropper.js:134 | removal takes exactly one occurrence of the object out of the contents |
| FabricCanvas.RemoveThenAddKeepsContents | apps/image-editor/src/js/component/cropper.js:307-318 | removing an object and adding it back keeps the same contents, with the object on top |
| FabricCanvas.RemoveFirstOfSingle | apps/image-editor/src/js/component/cropper.js:307-313 | an object held once is gone after its removal, so it is not rendered |
| FabricCanvas.RemoveFirstUndoesAdd | apps/image-editor/src/js/component/cropper.js:73-146 | removing what was just added, when it was not there before, gives the earlier collection back |
| FabricCanvas.Canvas.SetAllEvented | apps/image-editor/src/js/component/cropper.js:79-82 | after the `forEachObject` loop every object on the canvas has `evented` set to the given value |
| CropperComponent.Cropper.constructor | apps/image-editor/src/js/component/cropper.js:25-68 | no cropzone, anchor (0, 0), Shift not held |
| CropperComponent.Cropper.Start | apps/image-editor/src/js/component/cropper.js:73-122 | with a cropzone nothing changes: the canvas, the document, and every existing object's geometry, visibility, ratio and `evented` flag stay. Otherwise: a new cropzone at {0, 0, 0.5, 0.5} is added on top; every earlier object stops receiving events and keeps its geometry, visibility and ratio; nothing is active; selection is off; the crop cursor is shown; mouse-down is registered on the canvas and keydown/keyup on the document |
| CropperComponent.Cropper.End | apps/image-editor/src/js/component/cropper.js:127-146 | without a cropzone nothing changes: the canvas, the document, and every object's geometry, visibility, ratio and `evented` flag stay. Otherwise: the cropzone is removed and forgotten; every remaining object receives events and keeps its geometry, visibility and ratio; selection is on; the default cursor is back; mouse-down is unregistered on the canvas and keydown/keyup on the document |
| CropperComponent.Cropper.StartThenEnd | apps/image-editor/src/js/component/cropper.js:73-146 | from a state with no cropzone and none of the cropper's handlers registered, starting then ending restores the canvas's objects, each with its geometry, visibility and ratio, and both listener collections; every object ends up receiving events, with selection on and the default cursor |
| CropperComponent.Cropper.ChangeVisibility | apps/image-editor/src/js/component/cropper.js:152-156 | the cropzone, if any, takes the given visibility and nothing else about it changes |
| CropperComponent.Cropper.OnMouseDown | apps/image-editor/src/js/component/cropper.js:163-180 | a press on an object changes nothing; otherwise the pointer becomes the anchor, selection goes off, and mouse-move and mouse-up are registered |
| CropperComponent.Cropper.OnMouseMove | apps/image-editor/src/js/component/cropper.js:187-200 | within the 10-unit Manhattan threshold nothing changes, with or without a cropzone (a drag interrupted by `end` leaves the mouse-move handler registered). Beyond it: the cropzone takes the drag rectangle, is re-added on top and becomes active. A positive-ratio or free drag from an anchor on the canvas lies on the canvas and contains the anchor; a ratio drag keeps the ratio |
| CropperComponent.DragProperties | apps/image-editor/src/js/component/cropper.js:210-273 | the rectangle of a drag lies on the canvas around an on-canvas anchor, for a positive ratio or a free drag, and keeps a non-zero ratio |
| CropperComponent.Cropper.OnMouseUp | apps/image-editor/src/js/component/cropper.js:279-289 | the cropzone becomes active and the mouse-move and mouse-up registrations are dropped |
| CropperComponent.Cropper.GetCroppedImageData | apps/image-editor/src/js/component/cropper.js:300-321 | no rectangle, no image, and the canvas is untouched. With a rectangle the image carries the name and the region. If the cropzone was on the canvas, it is rendered without the cropzone (not at all when it occurred once) and then put back on top: same contents, on the canvas before and after. Otherwise the canvas is unchanged |
| CropperComponent.Cropper.SetCropzoneRect | apps/image-editor/src/js/component/cropper.js:346-362 | the cropzone is re-added on top, selection ends on, and the ratio is stored. A zero ratio gives `{-10, -10, 1, 1}` and nothing active. A non-zero ratio gives the preset rectangle with the cropzone active, which for a positive ratio on a non-empty canvas is centred, fits and has the ratio |
| CropperComponent.Cropper.OnKeyDown | apps/image-editor/src/js/component/cropper.js:401-405 | Shift sets the flag; any other key leaves it as it was |
| CropperComponent.Cropper.OnKeyUp | apps/image-editor/src/js/component/cropper.js:412-416 | Shift clears the flag; any other key leaves it as it was |
| Mosaic.SumChannels | apps/image-editor/src/js/component/freeDrawing.js:123-130 | the first loop returns the red, green and blue sums over the whole buffer |
| Mosaic.Average | apps/image-editor/src/js/component/freeDrawing.js:131-133 | the average of a channel is the floor of its sum over the block area: `avg * area <= sum < (avg + 1) * area` |
| Mosaic.Pixelated | apps/image-editor/src/js/component/freeDrawing.js:123-139 | the averaged buffer has the length of the input; its pixels are described by `PixelatedPixel` |
| Mosaic.FillBlock | apps/image-editor/src/js/component/freeDrawing.js:134-139 | the second loop leaves every pixel equal to `(r, g, b, 255)` |
| Mosaic.UniformAt | apps/image-editor/src/js/component/freeDrawing.js:134-139 | every pixel of a filled buffer is the fill pixel |
| Mosaic.PixelatedPixel | apps/image-editor/src/js/component/freeDrawing.js:123-139 | every pixel of the result has R, G, B equal to the floor of the channel sum over the block area and alpha 255; the length is kept |
| Mosaic.ChannelSumOnlyReadsChannel | apps/image-editor/src/js/component/freeDrawing.js:126-130 | a channel's sum depends only on that channel's bytes |
| Mosaic.SameColourChannel | apps/image-editor/src/js/component/freeDrawing.js:126-130 | buffers that agree outside the alpha bytes have the same red, green and blue sums |
| Mosaic.AlphaIsIgnored | apps/image-editor/src/js/component/freeDrawing.js:126-139 | the input alpha bytes do not affect the result |
| Mosaic.ChannelSumBounds | apps/image-editor/src/js/component/freeDrawing.js:126-130 | over bytes, a channel sum of `n` pixels lies in `[0, 255 n]` |
| Mosaic.PixelatedAreBytes | apps/image-editor/src/js/component/freeDrawing.js:126-139 | a block of exactly `blockSize^2` byte pixels averages to bytes |
| Mosaic.ChannelSumUniform | apps/image-editor/src/js/component/freeDrawing.js:126-130 | a channel of a uniform buffer sums to the pixel count times the channel value |
| Mosaic.UniformBlockKeepsColour | apps/image-editor/src/js/component/freeDrawing.js:126-139 | a uniform block `(R, G, B, A)` becomes `(R, G, B, 255)` everywhere |
| Mosaic.PixelateIsIdempotent | apps/image-editor/src/js/component/freeDrawing.js:126-139 | averaging a block that was just averaged changes nothing |
| FreeDrawingComponent.FreeDrawing.constructor | apps/image-editor/src/js/component/freeDrawing.js:13-37 | width 12, colour `rgba(0, 0, 0, 0.5)`, no editor |
| FreeDrawingComponent.FreeDrawing.Start | apps/image-editor/src/js/component/freeDrawing.js:43-53 | a mosaic setting takes the mosaic path: editor and width as given, colour kept, selection off, mouse-down registered, drawing mode and brush untouched. Anything else, no setting included, turns drawing mode on and applies the brush rules of `SetBrush`, leaving selection and listeners alone |
| FreeDrawingComponent.FreeDrawing.SetBrush | apps/image-editor/src/js/component/freeDrawing.js:59-69 | the width is replaced only by a given non-zero width and the colour only by a given non-empty colour; afterwards the brush shows the stored width and colour |
| FreeDrawingComponent.FreeDrawing.End | apps/image-editor/src/js/component/freeDrawing.js:74-79 | drawing mode off, selection on, the mouse-down registration dropped; width and colour are outside its frame and stay |
| FreeDrawingComponent.FreeDrawing.SetMosaic | apps/image-editor/src/js/component/freeDrawing.js:84-90 | editor and width taken as given with no fallback, selection off, mouse-down registered |
| FreeDrawingComponent.FreeDrawing.OnMouseDown | apps/image-editor/src/js/component/freeDrawing.js:97-103 | mouse-move and mouse-up are registered |
| FreeDrawingComponent.FreeDrawing.OnMouseMove | apps/image-editor/src/js/component/freeDrawing.js:110-141 | for a byte block (an `ImageData` buffer): the block's top-left corner is the pointer minus half the width on both axes; the block becomes its average (`Pixelated`); the result is bytes; it is a fixed point of averaging |
| FreeDrawingComponent.FreeDrawing.OnMasikMouseUp | apps/image-editor/src/js/component/freeDrawing.js:147-160 | with an editor the snapshot is handed to it as a new image object and both gesture registrations are dropped; without one nothing is handed over and the registrations stay |
| FreeDrawingComponent.FreeDrawing.MosaicStroke | apps/image-editor/src/js/component/freeDrawing.js:84-160 | entering mosaic mode and one press-move-release gesture leave exactly the mosaic mouse-down registration behind, hand the snapshot to the editor, and leave the block averaged |

## Left out

- Fabric rendering. `canvas.toDataURL(rect)` is modelled as a `Rendering` value: the objects rendered and the region.
- The `Cropzone` extension is not part of this model.
  - Its `set` is modelled as assigning the geometry and `presetRatio` fields.
  - `getCropzoneRect` is left out: its `isValid` check lives in that extension.
- `CROPZONE_DEFAULT_OPTIONS`, `cropSelectionStyle` and the corner and fill options only style the cropzone, so they are left out.
- The crop cursor's SVG string and its `btoa` encoding are one abstract value, `CropCursor`.
- `canvas.getPointer` is left out: pointers are inputs in canvas coordinates.
- `getImageData` and `putImageData` are left out.
  - The pixel block is an `array<int>` parameter of exactly `width * width` pixels.
  - The mouse-move handler returns the corner where the block is written back.
  - Clipping at the canvas edges belongs to the browser API.
- `FreeDrawingComponent.FreeDrawing.OnMouseMove` requires a positive integer width. `getImageData` rejects a zero-sized block. Fractional brush widths are not modelled.
- The mouse-up chain (`toDataURL`, `fetch`, `blob`, `URL.createObjectURL`) is asynchronous I/O.
  - The snapshot URL is a parameter.
  - `imageEditor.invoke('addImageObject', url)` is returned as an `EditorCall` value.
  - Without an editor the handler throws before the registrations are dropped. The model returns no call and leaves them in place.
  - With the await steps, other events can run before the handler finishes; that interleaving is not modelled.
- `fabric.Color` parsing and `toRgba()` are left out: the brush colour is kept as the string it was given.
- `CropGeometry.PresetPropertiesForCropSize`: `fixFloatingPoint` rounding and IEEE floating point are not modelled; geometry is exact over `real`.
- `console.log` calls are left out.
- `CropperComponent.Cropper.OnMouseMove` requires a cropzone only for a move beyond the threshold, where the JavaScript would fail on `null`. That move can only come after `end` has interrupted a drag: `end` drops the mouse-down handler and the cropzone, but the mouse-move and mouse-up handlers stay registered until the next mouse-up. The failing call is not modelled.
- `CropperComponent.Cropper.OnMouseUp` requires a cropzone. After a drag interrupted by `end`, the JavaScript calls `setActiveObject(null)`, whose effect depends on Fabric internals outside this model. So the mouse-up that ends such a gesture, and its unregistering of mouse-move and mouse-up, is not modelled.
- `CropperComponent.Cropper.SetCropzoneRect` requires a cropzone. Called outside cropping, the JavaScript discards the active object, turns selection off and removes `null`, then fails at `cropzone.set`. That failing call is not modelled.
- `CropperComponent.Cropper.OnMouseMove`: the on-canvas guarantee is stated for free and positive-ratio drags only. A Shift square can extend beyond the canvas: its side is the larger free-drag side, moved to `anchor - side`. A negative ratio is not bounded either.
