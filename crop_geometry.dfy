/**
 * The arithmetic of the crop tool: turning a drag from an anchor to the
 * pointer into a crop rectangle (free, shift-square or fixed ratio), and the
 * centred rectangle of a preset ratio.  Geometry is over `real`; a preset
 * ratio of 0.0 stands for JavaScript's absent (`null`) ratio, which is falsy.
 */
module CropGeometry {

  datatype Point = Point(x: real, y: real)
  datatype Size = Size(width: real, height: real)
  datatype Rect = Rect(left: real, top: real, width: real, height: real)

  /** Manhattan distance a drag must exceed before the crop zone follows it. */
  const MOUSE_MOVE_THRESHOLD: real := 10.0

  /** Geometry applied by `setCropzoneRect` when no ratio is given (the DEFAULT_OPTION constant). */
  const DEFAULT_RECT: Rect := Rect(-10.0, -10.0, 1.0, 1.0)

  /** Geometry of a freshly created crop zone. */
  const START_RECT: Rect := Rect(0.0, 0.0, 0.5, 0.5)

  function Min(a: real, b: real): real { if a <= b then a else b }
  function Max(a: real, b: real): real { if a >= b then a else b }
  function Abs(a: real): real { if a >= 0.0 then a else -a }

  /**
   * Clamps `v` into the interval spanned by `lo` and `hi`, whichever order
   * they come in: the call sites swap them on purpose so that the anchor
   * corner of the crop zone stays put.
   */
  function Clamp(v: real, lo: real, hi: real): (r: real)
    ensures Min(lo, hi) <= r <= Max(lo, hi)
    ensures Min(lo, hi) <= v <= Max(lo, hi) ==> r == v
    ensures v < Min(lo, hi) ==> r == Min(lo, hi)
    ensures v > Max(lo, hi) ==> r == Max(lo, hi)
  {
    Max(Min(lo, hi), Min(v, Max(lo, hi)))
  }

  /** True when the pointer has moved far enough from the anchor to count as a drag. */
  predicate ExceedsMoveThreshold(start: Point, p: Point): (r: bool)
    ensures Abs(p.x - start.x) > MOUSE_MOVE_THRESHOLD || Abs(p.y - start.y) > MOUSE_MOVE_THRESHOLD ==> r
    ensures !r ==> Abs(p.x - start.x) <= MOUSE_MOVE_THRESHOLD && Abs(p.y - start.y) <= MOUSE_MOVE_THRESHOLD
    ensures r ==> p != start
  {
    Abs(p.x - start.x) + Abs(p.y - start.y) > MOUSE_MOVE_THRESHOLD
  }

  /** True when the anchor lies on the canvas. */
  predicate AnchorOnCanvas(start: Point, canvas: Size)
  {
    0.0 <= start.x <= canvas.width && 0.0 <= start.y <= canvas.height
  }

  /** First step of the drag computation: the rectangle spanned by anchor and pointer, clipped. */
  function FreeDragRect(p: Point, start: Point, canvas: Size): (r: Rect)
    ensures AnchorOnCanvas(start, canvas) ==> InsideCanvas(r, canvas) && ContainsAnchor(r, start)
  {
    var left := Clamp(p.x, 0.0, start.x);
    var top := Clamp(p.y, 0.0, start.y);
    Rect(left, top,
         Clamp(p.x, start.x, canvas.width) - left,
         Clamp(p.y, start.y, canvas.height) - top)
  }

  /** The shift-key branch: both sides become the larger one, re-anchored in the drag direction. */
  function SquareRect(p: Point, start: Point, free: Rect): (r: Rect)
    ensures r.width == r.height && r.width >= free.width && r.width >= free.height
    ensures r.width == free.width || r.width == free.height
    ensures start.x >= p.x ==> r.left + r.width == start.x
    ensures start.y >= p.y ==> r.top + r.height == start.y
  {
    var size :=
      if free.width > free.height then free.width
      else if free.height > free.width then free.height
      else free.width;
    Rect(if start.x >= p.x then start.x - size else free.left,
         if start.y >= p.y then start.y - size else free.top,
         size, size)
  }

  /**
   * Moves the top-left corner so that a `width x height` rectangle keeps the
   * anchor at its far corner along each axis on which the pointer is at or
   * before the anchor; along the other axes the corner of `prev` is kept.
   */
  function Reanchor(p: Point, start: Point, canvas: Size, prev: Rect, width: real, height: real): Rect
  {
    Rect(if start.x >= p.x then Clamp(start.x - width, 0.0, canvas.width) else prev.left,
         if start.y >= p.y then Clamp(start.y - height, 0.0, canvas.height) else prev.top,
         width, height)
  }

  /** The height the first ratio pass derives from the free drag's width. */
  function FirstPassHeight(free: Rect, presetRatio: real): real
    requires presetRatio != 0.0
  {
    free.width / presetRatio
  }

  /** First pass of the preset-ratio branch: the height follows the width. */
  function RatioFirstPass(p: Point, start: Point, canvas: Size, presetRatio: real, free: Rect): Rect
    requires presetRatio != 0.0
  {
    Reanchor(p, start, canvas, free, free.width, FirstPassHeight(free, presetRatio))
  }

  /** The room left below the first pass's top edge. */
  function OverflowHeight(canvas: Size, first: Rect): real
  {
    canvas.height - first.top
  }

  /** The width the second pass derives from that room. */
  function OverflowWidth(canvas: Size, presetRatio: real, first: Rect): real
  {
    OverflowHeight(canvas, first) * presetRatio
  }

  /** Second pass, taken when the first one overflows the bottom edge: the width follows the available height. */
  function RatioOverflowPass(p: Point, start: Point, canvas: Size, presetRatio: real, first: Rect): Rect
  {
    Reanchor(p, start, canvas, first, OverflowWidth(canvas, presetRatio, first), OverflowHeight(canvas, first))
  }

  /** The preset-ratio branch: the first pass, corrected by the second when it overflows downward. */
  function RatioRect(p: Point, start: Point, canvas: Size, presetRatio: real, free: Rect): (r: Rect)
    requires presetRatio != 0.0
    ensures r.width == free.width || r.height == OverflowHeight(canvas, RatioFirstPass(p, start, canvas, presetRatio, free))
  {
    var first := RatioFirstPass(p, start, canvas, presetRatio, free);
    if first.top + first.height > canvas.height then RatioOverflowPass(p, start, canvas, presetRatio, first)
    else first
  }

  /**
   * The crop rectangle for a drag from `start` to `p` on a canvas of the given
   * size.  The shift branch is taken only without a preset ratio, so a preset
   * ratio wins when both are present.
   */
  function CalcRectDimensionFromPoint(p: Point, start: Point, canvas: Size, presetRatio: real, withShiftKey: bool): (r: Rect)
    ensures presetRatio == 0.0 && withShiftKey ==> r.width == r.height
    ensures presetRatio == 0.0 && !withShiftKey && AnchorOnCanvas(start, canvas) ==>
      InsideCanvas(r, canvas) && ContainsAnchor(r, start)
  {
    var free := FreeDragRect(p, start, canvas);
    if withShiftKey && presetRatio == 0.0 then SquareRect(p, start, free)
    else if presetRatio != 0.0 then RatioRect(p, start, canvas, presetRatio, free)
    else free
  }

  /** Scale factor that brings `value` down to `original` when it exceeds it, and 1 otherwise. */
  function GetScale(value: real, original: real): (r: real)
    requires original >= 0.0
    ensures value > original ==> value * r == original
    ensures value <= original ==> r == 1.0
  {
    if value > original then original / value else 1.0
  }

  /** A scale factor that shrinks lies in [0, 1), and in (0, 1) when the limit is positive. */
  lemma GetScaleBounds(value: real, original: real)
    requires value > original >= 0.0
    ensures 0.0 <= GetScale(value, original) < 1.0
    ensures original > 0.0 ==> GetScale(value, original) > 0.0
  {
    var r := original / value;
    assert r * value == original;
  }

  /** Both sides multiplied by the same factor. */
  function ScaleBoth(s: Size, scale: real): Size
  {
    Size(s.width * scale, s.height * scale)
  }

  /** The longer canvas side (the width on a tie). */
  function StandardSize(canvas: Size): real
  {
    if canvas.width >= canvas.height then canvas.width else canvas.height
  }

  /** Shrinks `s` uniformly so that its width fits `limit`. */
  function FitWidth(s: Size, limit: real): Size
    requires limit >= 0.0
  {
    ScaleBoth(s, GetScale(s.width, limit))
  }

  /** Shrinks `s` uniformly so that its height fits `limit`. */
  function FitHeight(s: Size, limit: real): Size
    requires limit >= 0.0
  {
    ScaleBoth(s, GetScale(s.height, limit))
  }

  /**
   * The preset-ratio rectangle applied by `setCropzoneRect`: start from a
   * `presetRatio x 1` rectangle scaled to the longer canvas side, shrink it
   * to fit the canvas width, then the canvas height, and centre it
   * (floating-point rounding is not modelled).
   */
  function PresetPropertiesForCropSize(canvas: Size, presetRatio: real): (r: Rect)
    requires canvas.width >= 0.0 && canvas.height >= 0.0
    ensures r.left == (canvas.width - r.width) / 2.0 && r.top == (canvas.height - r.height) / 2.0
  {
    Centred(canvas, FitHeight(FitWidth(InitialPresetSize(canvas, presetRatio), canvas.width), canvas.height))
  }

  /** A `presetRatio x 1` rectangle scaled to the longer canvas side. */
  function InitialPresetSize(canvas: Size, presetRatio: real): Size
  {
    Size(StandardSize(canvas) * presetRatio, StandardSize(canvas))
  }

  /** A rectangle of the given size centred on the canvas. */
  function Centred(canvas: Size, s: Size): Rect
  {
    Rect((canvas.width - s.width) / 2.0, (canvas.height - s.height) / 2.0, s.width, s.height)
  }

  // ---------------------------------------------------------------------
  // Properties
  // ---------------------------------------------------------------------

  /** A rectangle lying entirely on the canvas. */
  predicate InsideCanvas(r: Rect, canvas: Size)
  {
    0.0 <= r.left && 0.0 <= r.top && 0.0 <= r.width && 0.0 <= r.height &&
    r.left + r.width <= canvas.width && r.top + r.height <= canvas.height
  }

  /** A rectangle that has the anchor on its boundary or inside it. */
  predicate ContainsAnchor(r: Rect, start: Point)
  {
    r.left <= start.x <= r.left + r.width && r.top <= start.y <= r.top + r.height
  }

  /**
   * A free drag is the bounding box of anchor and pointer intersected with
   * the canvas; in particular it lies on the canvas and contains the anchor.
   */
  lemma FreeDragIsClippedBoundingBox(p: Point, start: Point, canvas: Size)
    requires AnchorOnCanvas(start, canvas)
    ensures var r := CalcRectDimensionFromPoint(p, start, canvas, 0.0, false);
      r == FreeDragRect(p, start, canvas) &&
      r.left == Max(0.0, Min(p.x, start.x)) &&
      r.left + r.width == Min(canvas.width, Max(p.x, start.x)) &&
      r.top == Max(0.0, Min(p.y, start.y)) &&
      r.top + r.height == Min(canvas.height, Max(p.y, start.y)) &&
      InsideCanvas(r, canvas) && ContainsAnchor(r, start)
  {
  }

  /**
   * A shift drag without a preset ratio is a square whose side is the larger
   * side of the free drag, with the anchor at the corner opposite the pointer.
   */
  lemma ShiftDragIsSquare(p: Point, start: Point, canvas: Size)
    requires AnchorOnCanvas(start, canvas)
    ensures var free := FreeDragRect(p, start, canvas);
      var r := CalcRectDimensionFromPoint(p, start, canvas, 0.0, true);
      r.width == r.height == Max(free.width, free.height) &&
      (p.x <= start.x ==> r.left + r.width == start.x) &&
      (p.x > start.x ==> r.left == start.x) &&
      (p.y <= start.y ==> r.top + r.height == start.y) &&
      (p.y > start.y ==> r.top == start.y)
  {
  }

  /** Dividing by a non-zero ratio and multiplying back gives the original length. */
  lemma DivMulCancel(a: real, b: real)
    requires b != 0.0
    ensures a / b * b == a
  {
  }

  /** Scaling by a non-negative factor preserves order. */
  lemma MulMonotone(a: real, b: real, c: real)
    requires a <= b && c >= 0.0
    ensures a * c <= b * c
  {
  }

  /** A rectangle whose width is `presetRatio` times its height. */
  predicate HasRatio(r: Rect, presetRatio: real)
  {
    r.width == r.height * presetRatio
  }

  /** Both passes of the ratio branch leave `width == height * presetRatio`, whatever rectangle they start from. */
  lemma RatioRectKeepsRatio(p: Point, start: Point, canvas: Size, presetRatio: real, free: Rect)
    requires presetRatio != 0.0
    ensures HasRatio(RatioRect(p, start, canvas, presetRatio, free), presetRatio)
  {
    var first := RatioFirstPass(p, start, canvas, presetRatio, free);
    if first.top + first.height <= canvas.height {
      assert RatioRect(p, start, canvas, presetRatio, free) == first;
      assert first.width == free.width && first.height == FirstPassHeight(free, presetRatio);
      DivMulCancel(free.width, presetRatio);
    }
  }

  /** With a preset ratio the ratio branch is taken, whether the shift key is held or not. */
  lemma PresetRatioWinsOverShift(p: Point, start: Point, canvas: Size, presetRatio: real, withShiftKey: bool)
    requires presetRatio != 0.0
    ensures CalcRectDimensionFromPoint(p, start, canvas, presetRatio, withShiftKey)
         == RatioRect(p, start, canvas, presetRatio, FreeDragRect(p, start, canvas))
  {
  }

  /** Any drag with a preset ratio yields `width == height * presetRatio`, shift key or not. */
  lemma RatioDragKeepsRatio(p: Point, start: Point, canvas: Size, presetRatio: real, withShiftKey: bool)
    requires presetRatio != 0.0
    ensures HasRatio(CalcRectDimensionFromPoint(p, start, canvas, presetRatio, withShiftKey), presetRatio)
  {
    var free := FreeDragRect(p, start, canvas);
    PresetRatioWinsOverShift(p, start, canvas, presetRatio, withShiftKey);
    RatioRectKeepsRatio(p, start, canvas, presetRatio, free);
  }

  /** The free drag keeps the anchor at the corner opposite the pointer. */
  predicate AnchoredOpposite(r: Rect, p: Point, start: Point)
  {
    (start.x >= p.x ==> r.left + r.width == start.x) && (start.x < p.x ==> r.left == start.x) &&
    (start.y >= p.y ==> r.top + r.height == start.y) && (start.y < p.y ==> r.top == start.y)
  }

  lemma FreeDragAnchoredOpposite(p: Point, start: Point, canvas: Size)
    requires AnchorOnCanvas(start, canvas)
    ensures var free := FreeDragRect(p, start, canvas);
      InsideCanvas(free, canvas) && AnchoredOpposite(free, p, start)
  {
  }

  /**
   * Re-anchoring a rectangle no wider than the room left of the anchor (or
   * right of it) keeps it horizontally on the canvas and around the anchor.
   */
  lemma ReanchorHorizontal(p: Point, start: Point, canvas: Size, prev: Rect, width: real, height: real)
    requires AnchorOnCanvas(start, canvas) && 0.0 <= width
    requires start.x >= p.x ==> width <= start.x
    requires start.x < p.x ==> prev.left == start.x && start.x + width <= canvas.width
    ensures var r := Reanchor(p, start, canvas, prev, width, height);
      0.0 <= r.left && r.left + r.width <= canvas.width && r.left <= start.x <= r.left + r.width &&
      (start.x >= p.x ==> r.left + r.width == start.x) && (start.x < p.x ==> r.left == start.x)
  {
  }

  /** Vertically, re-anchoring keeps the top edge on the canvas and the anchor inside. */
  lemma ReanchorVertical(p: Point, start: Point, canvas: Size, prev: Rect, width: real, height: real)
    requires AnchorOnCanvas(start, canvas) && 0.0 <= height
    requires start.y < p.y ==> prev.top == start.y
    ensures var r := Reanchor(p, start, canvas, prev, width, height);
      0.0 <= r.top <= canvas.height && r.top <= start.y <= r.top + r.height &&
      (start.y < p.y ==> r.top == start.y) &&
      (start.y >= p.y ==> r.top + r.height <= Max(start.y, height))
  {
  }

  /**
   * Re-anchoring a rectangle that fits in the room the anchor leaves in the
   * drag direction puts it on the canvas, around the anchor.
   */
  lemma ReanchorInsideCanvas(p: Point, start: Point, canvas: Size, prev: Rect, width: real, height: real)
    requires AnchorOnCanvas(start, canvas) && 0.0 <= width && 0.0 <= height <= canvas.height
    requires start.x >= p.x ==> width <= start.x
    requires start.x < p.x ==> prev.left == start.x && start.x + width <= canvas.width
    requires start.y < p.y ==> prev.top == start.y && start.y + height <= canvas.height
    ensures var r := Reanchor(p, start, canvas, prev, width, height);
      InsideCanvas(r, canvas) && ContainsAnchor(r, start)
  {
    ReanchorHorizontal(p, start, canvas, prev, width, height);
    ReanchorVertical(p, start, canvas, prev, width, height);
  }

  /**
   * The horizontal and top-edge facts the first ratio pass establishes: the
   * rectangle lies horizontally on the canvas, its far side (or near side)
   * sits on the anchor, and its top edge is on the canvas.
   */
  predicate FirstPassShape(first: Rect, p: Point, start: Point, canvas: Size)
  {
    0.0 <= first.left && first.left + first.width <= canvas.width &&
    (start.x >= p.x ==> first.left + first.width == start.x) && (start.x < p.x ==> first.left == start.x) &&
    0.0 <= first.top <= canvas.height && (start.y < p.y ==> first.top == start.y)
  }

  /** The first ratio pass keeps the free drag's horizontal extent and the anchor inside. */
  lemma RatioFirstPassFacts(p: Point, start: Point, canvas: Size, presetRatio: real, free: Rect)
    requires presetRatio > 0.0 && AnchorOnCanvas(start, canvas)
    requires InsideCanvas(free, canvas) && AnchoredOpposite(free, p, start)
    ensures var first := RatioFirstPass(p, start, canvas, presetRatio, free);
      FirstPassShape(first, p, start, canvas) && ContainsAnchor(first, start) &&
      first.width == free.width && first.height >= 0.0 && HasRatio(first, presetRatio)
  {
    FirstPassHeightFacts(free, presetRatio);
    ReanchorFreeDrag(p, start, canvas, free, FirstPassHeight(free, presetRatio));
  }

  /** The first-pass height is non-negative and times the ratio gives back the width. */
  lemma FirstPassHeightFacts(free: Rect, presetRatio: real)
    requires presetRatio > 0.0 && free.width >= 0.0
    ensures FirstPassHeight(free, presetRatio) >= 0.0
    ensures free.width == FirstPassHeight(free, presetRatio) * presetRatio
  {
    DivMulCancel(free.width, presetRatio);
  }

  /** Re-anchoring the free drag with its own width and any height keeps the first-pass shape and the anchor inside. */
  lemma ReanchorFreeDrag(p: Point, start: Point, canvas: Size, free: Rect, height: real)
    requires AnchorOnCanvas(start, canvas) && height >= 0.0
    requires InsideCanvas(free, canvas) && AnchoredOpposite(free, p, start)
    ensures var r := Reanchor(p, start, canvas, free, free.width, height);
      FirstPassShape(r, p, start, canvas) && ContainsAnchor(r, start)
  {
    ReanchorHorizontal(p, start, canvas, free, free.width, height);
    ReanchorVertical(p, start, canvas, free, free.width, height);
  }

  /** Shrinking the height while keeping the ratio shrinks the width. */
  lemma OverflowWidthShrinks(height: real, firstHeight: real, firstWidth: real, presetRatio: real)
    requires presetRatio > 0.0 && 0.0 <= height < firstHeight && firstHeight * presetRatio == firstWidth
    ensures 0.0 <= height * presetRatio <= firstWidth
  {
    MulMonotone(height, firstHeight, presetRatio);
    MulMonotone(0.0, height, presetRatio);
  }

  /** After an overflow the width the second pass derives from the remaining height is no wider than the first pass. */
  lemma OverflowWidthFits(canvas: Size, presetRatio: real, first: Rect)
    requires presetRatio > 0.0 && first.top <= canvas.height && HasRatio(first, presetRatio)
    requires first.top + first.height > canvas.height
    ensures 0.0 <= OverflowWidth(canvas, presetRatio, first) <= first.width
  {
    OverflowWidthShrinks(OverflowHeight(canvas, first), first.height, first.width, presetRatio);
  }

  /** Re-anchoring to the room below the top edge, with any width up to the first pass's, fits the canvas around the anchor. */
  lemma ReanchorAfterOverflow(p: Point, start: Point, canvas: Size, first: Rect, width: real)
    requires AnchorOnCanvas(start, canvas) && FirstPassShape(first, p, start, canvas)
    requires 0.0 <= width <= first.width
    ensures var r := Reanchor(p, start, canvas, first, width, OverflowHeight(canvas, first));
      InsideCanvas(r, canvas) && ContainsAnchor(r, start)
  {
    ReanchorInsideCanvas(p, start, canvas, first, width, OverflowHeight(canvas, first));
  }

  /** The overflow pass fits the canvas and keeps the anchor inside. */
  lemma RatioOverflowPassFacts(p: Point, start: Point, canvas: Size, presetRatio: real, first: Rect)
    requires presetRatio > 0.0 && AnchorOnCanvas(start, canvas)
    requires FirstPassShape(first, p, start, canvas) && HasRatio(first, presetRatio)
    requires first.top + first.height > canvas.height
    ensures var r := RatioOverflowPass(p, start, canvas, presetRatio, first);
      InsideCanvas(r, canvas) && ContainsAnchor(r, start)
  {
    OverflowWidthFits(canvas, presetRatio, first);
    ReanchorAfterOverflow(p, start, canvas, first, OverflowWidth(canvas, presetRatio, first));
  }

  /**
   * The ratio branch, started from any on-canvas rectangle anchored opposite
   * the pointer, stays on the canvas and keeps the anchor inside.
   */
  lemma RatioRectInsideCanvas(p: Point, start: Point, canvas: Size, presetRatio: real, free: Rect)
    requires presetRatio > 0.0 && AnchorOnCanvas(start, canvas)
    requires InsideCanvas(free, canvas) && AnchoredOpposite(free, p, start)
    ensures var r := RatioRect(p, start, canvas, presetRatio, free);
      InsideCanvas(r, canvas) && ContainsAnchor(r, start)
  {
    var first := RatioFirstPass(p, start, canvas, presetRatio, free);
    RatioFirstPassFacts(p, start, canvas, presetRatio, free);
    if first.top + first.height > canvas.height {
      RatioOverflowPassFacts(p, start, canvas, presetRatio, first);
    } else {
      assert RatioRect(p, start, canvas, presetRatio, free) == first;
    }
  }

  /**
   * With a positive ratio and the anchor on the canvas, the ratio branch
   * (including its overflow correction) yields a rectangle on the canvas that
   * still contains the anchor.
   */
  lemma RatioDragInsideCanvas(p: Point, start: Point, canvas: Size, presetRatio: real, withShiftKey: bool)
    requires presetRatio > 0.0 && AnchorOnCanvas(start, canvas)
    ensures var r := CalcRectDimensionFromPoint(p, start, canvas, presetRatio, withShiftKey);
      InsideCanvas(r, canvas) && ContainsAnchor(r, start)
  {
    var free := FreeDragRect(p, start, canvas);
    PresetRatioWinsOverShift(p, start, canvas, presetRatio, withShiftKey);
    FreeDragAnchoredOpposite(p, start, canvas);
    RatioRectInsideCanvas(p, start, canvas, presetRatio, free);
  }

  /** Scaling both sides of a positive rectangle by the same factor keeps its ratio. */
  lemma ScaleBothKeepsRatio(s: Size, scale: real, presetRatio: real)
    requires s.width == s.height * presetRatio
    ensures ScaleBoth(s, scale).width == ScaleBoth(s, scale).height * presetRatio
  {
    calc {
      s.width * scale;
      (s.height * presetRatio) * scale;
      { MulAssocComm(s.height, presetRatio, scale); }
      (s.height * scale) * presetRatio;
    }
  }

  lemma MulAssocComm(a: real, b: real, c: real)
    ensures (a * b) * c == (a * c) * b
  {
  }

  /** Scaling by a factor in (0, 1] keeps both sides positive and no larger. */
  lemma ScaleBothShrinks(s: Size, scale: real)
    requires s.width > 0.0 && s.height > 0.0 && 0.0 < scale <= 1.0
    ensures 0.0 < ScaleBoth(s, scale).width <= s.width
    ensures 0.0 < ScaleBoth(s, scale).height <= s.height
  {
    MulMonotone(scale, 1.0, s.width);
    MulMonotone(scale, 1.0, s.height);
  }

  /** The width-fitting step: the width fits the limit, nothing grows, and a fitting width is left alone. */
  lemma FitWidthStep(s: Size, limit: real)
    requires limit > 0.0 && s.width > 0.0 && s.height > 0.0
    ensures var t := FitWidth(s, limit);
      0.0 < t.width <= limit && 0.0 < t.height <= s.height &&
      (s.width > limit ==> t.width == limit) && (s.width <= limit ==> t == s)
  {
    if s.width > limit {
      GetScaleBounds(s.width, limit);
      ScaleBothShrinks(s, GetScale(s.width, limit));
    }
  }

  /** The height-fitting step: the height fits the limit, nothing grows, and a fitting height is left alone. */
  lemma FitHeightStep(s: Size, limit: real)
    requires limit > 0.0 && s.width > 0.0 && s.height > 0.0
    ensures var t := FitHeight(s, limit);
      0.0 < t.height <= limit && 0.0 < t.width <= s.width &&
      (s.height > limit ==> t.height == limit) && (s.height <= limit ==> t == s)
  {
    if s.height > limit {
      GetScaleBounds(s.height, limit);
      ScaleBothShrinks(s, GetScale(s.height, limit));
    }
  }

  /**
   * The two fitting steps give a positive size within the canvas that spans
   * the full canvas width or the full canvas height.
   */
  lemma PresetSizeFits(canvas: Size, presetRatio: real)
    requires canvas.width > 0.0 && canvas.height > 0.0 && presetRatio > 0.0
    ensures var s := FitHeight(FitWidth(InitialPresetSize(canvas, presetRatio), canvas.width), canvas.height);
      0.0 < s.width <= canvas.width && 0.0 < s.height <= canvas.height &&
      (s.width == canvas.width || s.height == canvas.height)
  {
    var initial := InitialPresetSize(canvas, presetRatio);
    MulPositive(StandardSize(canvas), presetRatio);
    var fitWidth := FitWidth(initial, canvas.width);
    FitWidthStep(initial, canvas.width);
    var fitted := FitHeight(fitWidth, canvas.height);
    FitHeightStep(fitWidth, canvas.height);
    if fitWidth.height > canvas.height {
      assert fitted.height == canvas.height;
    } else if initial.width > canvas.width {
      assert fitted == fitWidth;
    } else {
      assert fitted == fitWidth == initial;
    }
  }

  /** The two fitting steps keep the requested ratio. */
  lemma PresetSizeKeepsRatio(canvas: Size, presetRatio: real)
    requires canvas.width >= 0.0 && canvas.height >= 0.0
    ensures var s := FitHeight(FitWidth(InitialPresetSize(canvas, presetRatio), canvas.width), canvas.height);
      s.width == s.height * presetRatio
  {
    var initial := InitialPresetSize(canvas, presetRatio);
    var fitWidth := FitWidth(initial, canvas.width);
    ScaleBothKeepsRatio(initial, GetScale(initial.width, canvas.width), presetRatio);
    ScaleBothKeepsRatio(fitWidth, GetScale(fitWidth.height, canvas.height), presetRatio);
  }

  /**
   * The preset-ratio rectangle fits the canvas, has the requested ratio,
   * spans the full width or the full height, and is centred.
   */
  lemma PresetRectFitsAndIsCentred(canvas: Size, presetRatio: real)
    requires canvas.width > 0.0 && canvas.height > 0.0 && presetRatio > 0.0
    ensures CentredFit(PresetPropertiesForCropSize(canvas, presetRatio), canvas, presetRatio)
  {
    var fitted := FitHeight(FitWidth(InitialPresetSize(canvas, presetRatio), canvas.width), canvas.height);
    PresetSizeFits(canvas, presetRatio);
    PresetSizeKeepsRatio(canvas, presetRatio);
    CentredInsideCanvas(canvas, fitted);
  }

  /**
   * A non-empty rectangle on the canvas with the given ratio that spans the
   * full width or the full height and is centred: the largest centred
   * rectangle of that ratio.
   */
  predicate CentredFit(r: Rect, canvas: Size, presetRatio: real)
  {
    0.0 < r.width && 0.0 < r.height && InsideCanvas(r, canvas) && HasRatio(r, presetRatio) &&
    (r.width == canvas.width || r.height == canvas.height) &&
    r.left == (canvas.width - r.width) / 2.0 && r.top == (canvas.height - r.height) / 2.0
  }

  /** A rectangle no larger than the canvas, centred, lies on it. */
  lemma CentredInsideCanvas(canvas: Size, s: Size)
    requires 0.0 < s.width <= canvas.width && 0.0 < s.height <= canvas.height
    ensures var r := Centred(canvas, s);
      r.width == s.width && r.height == s.height && InsideCanvas(r, canvas)
  {
  }

  lemma MulPositive(a: real, b: real)
    requires a > 0.0 && b > 0.0
    ensures a * b > 0.0
  {
  }

  /** Drag from (10,10) to (60,40) on a 100x100 canvas, no modifier. */
  lemma FreeDragExample()
    ensures CalcRectDimensionFromPoint(Point(60.0, 40.0), Point(10.0, 10.0), Size(100.0, 100.0), 0.0, false)
         == Rect(10.0, 10.0, 50.0, 30.0)
  {
  }

  /** The same drag with the shift key held. */
  lemma ShiftDragExample()
    ensures CalcRectDimensionFromPoint(Point(60.0, 40.0), Point(10.0, 10.0), Size(100.0, 100.0), 0.0, true)
         == Rect(10.0, 10.0, 50.0, 50.0)
  {
  }
}
