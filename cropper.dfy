/**
 * The cropping tool: it puts a cropzone on the canvas, lets the user drag it
 * out from an anchor point (free, square with Shift, or with a preset aspect
 * ratio), sets it to a preset rectangle, and exports the canvas region under
 * it with the cropzone itself left out of the picture.
 */
module CropperComponent {
  import opened Wrappers
  import opened CropGeometry
  import opened FabricCanvas

  /** Key code of the Shift key. */
  const SHIFT: int := 16

  /** What `canvas.toDataURL(rect)` encodes: the objects rendered, and the region. */
  datatype Rendering = Rendering(objects: seq<FabricObject>, region: Rect)

  /** The `{ imageName, url }` record `getCroppedImageData` returns. */
  datatype CroppedImage = CroppedImage(imageName: string, url: Rendering)

  const MOUSE_DOWN := Listener(MouseDown, CropperMouseDown)
  const MOUSE_MOVE := Listener(MouseMove, CropperMouseMove)
  const MOUSE_UP := Listener(MouseUp, CropperMouseUp)
  const KEY_DOWN := Listener(KeyDown, CropperKeyDown)
  const KEY_UP := Listener(KeyUp, CropperKeyUp)

  class Cropper {
    const canvas: Canvas
    const document: Document
    var cropzone: FabricObject?
    /** The drag anchor; `null` before the first mouse-down, which arithmetic reads as 0. */
    var startX: real
    var startY: real
    var withShiftKey: bool

    constructor (canvas: Canvas, document: Document)
      ensures this.canvas == canvas && this.document == document
      ensures cropzone == null && startX == 0.0 && startY == 0.0 && !withShiftKey
    {
      this.canvas, this.document := canvas, document;
      cropzone := null;
      startX, startY := 0.0, 0.0;
      withShiftKey := false;
    }

    function Anchor(): Point
      reads this
    {
      Point(startX, startY)
    }

    /**
     * Enters cropping: every existing object stops receiving events, a new
     * cropzone is added on top, mouse-down and the Shift key are listened to,
     * selection is off and the crop cursor is shown.  Does nothing when a
     * cropzone already exists.
     */
    method Start()
      modifies this`cropzone, canvas`objects, canvas`active, canvas`selection, canvas`defaultCursor, canvas`listeners
      modifies document, set o | o in canvas.objects
      ensures old(cropzone) != null ==>
        cropzone == old(cropzone) && unchanged(canvas, document) &&
        forall o :: o in old(canvas.objects) ==> o.evented == old(o.evented)
      ensures old(cropzone) == null ==>
        cropzone != null && fresh(cropzone) &&
        cropzone.Geometry() == START_RECT && cropzone.presetRatio == 0.0 &&
        cropzone.visible && cropzone.evented &&
        canvas.objects == old(canvas.objects) + [cropzone] &&
        (forall o :: o in old(canvas.objects) ==> !o.evented) &&
        canvas.active == null && !canvas.selection && canvas.defaultCursor == CropCursor &&
        canvas.listeners == old(canvas.listeners) + [MOUSE_DOWN] &&
        document.listeners == old(document.listeners) + {KEY_DOWN, KEY_UP}
      ensures forall o :: o in old(canvas.objects) ==>
        o.Geometry() == old(o.Geometry()) && o.visible == old(o.visible) && o.presetRatio == old(o.presetRatio)
    {
      if cropzone != null {
        return;
      }
      canvas.SetAllEvented(false);
      var cz := new FabricObject(START_RECT);
      cropzone := cz;
      canvas.DiscardActiveObject();
      canvas.Add(cz);
      canvas.On(MOUSE_DOWN);
      canvas.selection := false;
      canvas.defaultCursor := CropCursor;
      document.AddListener(KEY_DOWN);
      document.AddListener(KEY_UP);
    }

    /**
     * Leaves cropping: the cropzone is removed, selection and the default
     * cursor come back, mouse-down and key listeners go, and every remaining
     * object receives events again.  Does nothing without a cropzone.
     */
    method End()
      modifies this`cropzone, canvas`objects, canvas`active, canvas`selection, canvas`defaultCursor, canvas`listeners
      modifies document, set o | o in canvas.objects
      ensures old(cropzone) == null ==>
        cropzone == null && unchanged(canvas, document) &&
        forall o :: o in old(canvas.objects) ==> o.evented == old(o.evented)
      ensures old(cropzone) != null ==>
        cropzone == null &&
        canvas.objects == RemoveFirst<FabricObject>(old(canvas.objects), old(cropzone)) &&
        canvas.active == (if old(canvas.Contains(cropzone)) && old(canvas.active) == old(cropzone) then null else old(canvas.active)) &&
        (forall o :: o in canvas.objects ==> o.evented) &&
        canvas.selection && canvas.defaultCursor == DefaultCursor &&
        canvas.listeners == RemoveFirst(old(canvas.listeners), MOUSE_DOWN) &&
        document.listeners == old(document.listeners) - {KEY_DOWN, KEY_UP}
      ensures forall o :: o in old(canvas.objects) ==>
        o.Geometry() == old(o.Geometry()) && o.visible == old(o.visible) && o.presetRatio == old(o.presetRatio)
    {
      var cz := cropzone;
      if cz == null {
        return;
      }
      canvas.Remove(cz);
      canvas.selection := true;
      canvas.defaultCursor := DefaultCursor;
      canvas.Off(MOUSE_DOWN);
      canvas.SetAllEvented(true);
      cropzone := null;
      document.RemoveListener(KEY_DOWN);
      document.RemoveListener(KEY_UP);
    }

    /** Shows or hides the cropzone, if there is one. */
    method ChangeVisibility(visible: bool)
      modifies cropzone
      ensures cropzone == old(cropzone)
      ensures cropzone != null ==>
        cropzone.visible == visible && cropzone.Geometry() == old(cropzone.Geometry()) &&
        cropzone.presetRatio == old(cropzone.presetRatio) && cropzone.evented == old(cropzone.evented)
    {
      if cropzone != null {
        cropzone.visible := visible;
      }
    }

    /**
     * Mouse-down at `pointer` (canvas coordinates): unless an object was hit,
     * the point becomes the drag anchor and mouse-move and mouse-up are
     * listened to.
     */
    method OnMouseDown(hasTarget: bool, pointer: Point)
      modifies this`startX, this`startY, canvas`selection, canvas`listeners
      ensures hasTarget ==>
        startX == old(startX) && startY == old(startY) &&
        canvas.selection == old(canvas.selection) && canvas.listeners == old(canvas.listeners)
      ensures !hasTarget ==>
        Anchor() == pointer && !canvas.selection &&
        canvas.listeners == old(canvas.listeners) + [MOUSE_MOVE, MOUSE_UP]
    {
      if hasTarget {
        return;
      }
      canvas.selection := false;
      startX, startY := pointer.x, pointer.y;
      canvas.On(MOUSE_MOVE);
      canvas.On(MOUSE_UP);
    }

    /**
     * Mouse-move to `pointer`: once the pointer is more than the threshold
     * away from the anchor (Manhattan distance), the cropzone takes the
     * rectangle computed from anchor, pointer, ratio and Shift state, is
     * re-added on top and becomes active.  A preset-ratio or free drag from
     * an anchor on the canvas stays on the canvas and keeps the anchor; a
     * preset-ratio drag keeps the ratio.  A move within the threshold
     * changes nothing, also after `End` has dropped the cropzone in the
     * middle of a drag (its mouse-move registration outlives the cropzone).
     */
    method OnMouseMove(pointer: Point)
      requires cropzone != null || !ExceedsMoveThreshold(Anchor(), pointer)
      modifies canvas`objects, canvas`active, cropzone
      ensures cropzone != null ==>
        cropzone.presetRatio == old(cropzone.presetRatio) &&
        cropzone.visible == old(cropzone.visible) && cropzone.evented == old(cropzone.evented)
      ensures !ExceedsMoveThreshold(Anchor(), pointer) ==>
        (cropzone != null ==> cropzone.Geometry() == old(cropzone.Geometry())) &&
        canvas.objects == old(canvas.objects) && canvas.active == old(canvas.active)
      ensures ExceedsMoveThreshold(Anchor(), pointer) ==>
        cropzone != null &&
        cropzone.Geometry() == CalcRectDimensionFromPoint(pointer, Anchor(), canvas.Size(), cropzone.presetRatio, withShiftKey) &&
        canvas.objects == RemoveFirst<FabricObject>(old(canvas.objects), cropzone) + [cropzone] &&
        canvas.active == cropzone
      ensures (ExceedsMoveThreshold(Anchor(), pointer) && AnchorOnCanvas(Anchor(), canvas.Size()) &&
               (cropzone.presetRatio > 0.0 || (cropzone.presetRatio == 0.0 && !withShiftKey))) ==>
        InsideCanvas(cropzone.Geometry(), canvas.Size()) && ContainsAnchor(cropzone.Geometry(), Anchor())
      ensures ExceedsMoveThreshold(Anchor(), pointer) && cropzone.presetRatio != 0.0 ==>
        HasRatio(cropzone.Geometry(), cropzone.presetRatio)
    {
      if ExceedsMoveThreshold(Anchor(), pointer) {
        var cz := cropzone;
        canvas.Remove(cz);
        var r := CalcRectDimensionFromPoint(pointer, Anchor(), canvas.Size(), cz.presetRatio, withShiftKey);
        cz.SetRect(r);
        canvas.Add(cz);
        canvas.SetActiveObject(cz);
        DragProperties(pointer, Anchor(), canvas.Size(), cz.presetRatio, withShiftKey);
      }
    }

    /** Mouse-up: the cropzone becomes active and mouse-move and mouse-up are no longer listened to. */
    method OnMouseUp()
      requires cropzone != null
      modifies canvas`active, canvas`listeners
      ensures canvas.active == cropzone
      ensures canvas.listeners == RemoveFirst(RemoveFirst(old(canvas.listeners), MOUSE_MOVE), MOUSE_UP)
    {
      canvas.SetActiveObject(cropzone);
      canvas.Off(MOUSE_MOVE);
      canvas.Off(MOUSE_UP);
    }

    /**
     * The image of `cropRect` (none without a rectangle), rendered without
     * the cropzone; a cropzone that was on the canvas is put back on top, so
     * the canvas keeps the same objects.
     */
    method GetCroppedImageData(cropRect: Option<Rect>, imageName: string) returns (r: Option<CroppedImage>)
      modifies canvas`objects, canvas`active
      ensures r.None? <==> cropRect.None?
      ensures cropRect.None? ==> canvas.objects == old(canvas.objects) && canvas.active == old(canvas.active)
      ensures r.Some? ==> r.value.imageName == imageName && r.value.url.region == cropRect.value
      ensures r.Some? && !old(canvas.Contains(cropzone)) ==>
        r.value.url.objects == canvas.objects == old(canvas.objects) && canvas.active == old(canvas.active)
      ensures r.Some? && old(canvas.Contains(cropzone)) ==>
        r.value.url.objects == RemoveFirst<FabricObject>(old(canvas.objects), cropzone) &&
        canvas.objects == r.value.url.objects + [cropzone] &&
        multiset(canvas.objects) == multiset(old(canvas.objects)) &&
        canvas.active == (if old(canvas.active) == cropzone then null else old(canvas.active))
      ensures r.Some? && old(multiset(canvas.objects)[cropzone]) <= 1 ==> cropzone !in r.value.url.objects
    {
      var contains := canvas.Contains(cropzone);
      if cropRect.None? {
        return None;
      }
      var cz := cropzone;
      if contains {
        canvas.Remove(cz);
        RemoveThenAddKeepsContents<FabricObject>(old(canvas.objects), cz);
        if multiset(old(canvas.objects))[cz] <= 1 {
          RemoveFirstOfSingle<FabricObject>(old(canvas.objects), cz);
        }
      }
      r := Some(CroppedImage(imageName, Rendering(canvas.objects, cropRect.value)));
      if contains {
        canvas.Add(cz);
      }
    }

    /**
     * Sets the cropzone to the centred maximal rectangle of `presetRatio`
     * (a non-zero ratio, after which the cropzone is active), or to the
     * default off-canvas rectangle without a ratio (ratio 0, after which
     * nothing is active).  The cropzone is re-added on top and selection is on.
     */
    method SetCropzoneRect(presetRatio: real)
      requires cropzone != null
      modifies canvas`objects, canvas`active, canvas`selection, cropzone
      ensures canvas.objects == RemoveFirst<FabricObject>(old(canvas.objects), cropzone) + [cropzone]
      ensures canvas.selection
      ensures canvas.active == (if presetRatio != 0.0 then cropzone else null)
      ensures cropzone.presetRatio == presetRatio
      ensures cropzone.visible == old(cropzone.visible) && cropzone.evented == old(cropzone.evented)
      ensures presetRatio == 0.0 ==> cropzone.Geometry() == DEFAULT_RECT
      ensures presetRatio != 0.0 ==> cropzone.Geometry() == PresetPropertiesForCropSize(canvas.Size(), presetRatio)
      ensures presetRatio > 0.0 && canvas.width > 0.0 && canvas.height > 0.0 ==>
        CentredFit(cropzone.Geometry(), canvas.Size(), presetRatio)
    {
      var cz := cropzone;
      canvas.DiscardActiveObject();
      canvas.selection := false;
      canvas.Remove(cz);
      if presetRatio != 0.0 {
        cz.SetRect(PresetPropertiesForCropSize(canvas.Size(), presetRatio));
        cz.presetRatio := presetRatio;
        if presetRatio > 0.0 && canvas.width > 0.0 && canvas.height > 0.0 {
          PresetRectFitsAndIsCentred(canvas.Size(), presetRatio);
        }
      } else {
        cz.SetRect(DEFAULT_RECT);
        cz.presetRatio := 0.0;
      }
      canvas.Add(cz);
      canvas.selection := true;
      if presetRatio != 0.0 {
        canvas.SetActiveObject(cz);
      }
    }

    /** Pressing Shift turns square dragging on; other keys change nothing. */
    method OnKeyDown(keyCode: int)
      modifies this`withShiftKey
      ensures withShiftKey == (keyCode == SHIFT || old(withShiftKey))
    {
      if keyCode == SHIFT {
        withShiftKey := true;
      }
    }

    /** Releasing Shift turns square dragging off; other keys change nothing. */
    method OnKeyUp(keyCode: int)
      modifies this`withShiftKey
      ensures withShiftKey == (keyCode != SHIFT && old(withShiftKey))
    {
      if keyCode == SHIFT {
        withShiftKey := false;
      }
    }

    /**
     * Entering and leaving cropping restores the canvas's objects and every
     * listener, and leaves all objects receiving events.
     */
    method StartThenEnd()
      requires cropzone == null
      requires MOUSE_DOWN !in canvas.listeners
      requires KEY_DOWN !in document.listeners && KEY_UP !in document.listeners
      modifies this`cropzone, canvas`objects, canvas`active, canvas`selection, canvas`defaultCursor, canvas`listeners
      modifies document, set o | o in canvas.objects
      ensures cropzone == null
      ensures canvas.objects == old(canvas.objects)
      ensures canvas.listeners == old(canvas.listeners)
      ensures document.listeners == old(document.listeners)
      ensures canvas.active == null && canvas.selection && canvas.defaultCursor == DefaultCursor
      ensures forall o :: o in canvas.objects ==> o.evented
      ensures forall o :: o in old(canvas.objects) ==>
        o.Geometry() == old(o.Geometry()) && o.visible == old(o.visible) && o.presetRatio == old(o.presetRatio)
    {
      Start();
      var cz := cropzone;
      assert canvas.objects == old(canvas.objects) + [cz];
      assert canvas.listeners == old(canvas.listeners) + [MOUSE_DOWN];
      assert document.listeners == old(document.listeners) + {KEY_DOWN, KEY_UP};
      RemoveFirstUndoesAdd<FabricObject>(old(canvas.objects), cz, []);
      assert old(canvas.objects) + [cz] + [] == old(canvas.objects) + [cz];
      RemoveFirstUndoesAdd(old(canvas.listeners), MOUSE_DOWN, []);
      assert old(canvas.listeners) + [MOUSE_DOWN] + [] == old(canvas.listeners) + [MOUSE_DOWN];
      AddThenRemoveSet(old(document.listeners), {KEY_DOWN, KEY_UP});
      End();
    }
  }

  /** Adding elements a set did not hold and removing them again gives the set back. */
  lemma AddThenRemoveSet<T>(s: set<T>, extra: set<T>)
    requires s !! extra
    ensures (s + extra) - extra == s
  {
  }

  /** What a drag guarantees about the rectangle it computes. */
  lemma DragProperties(p: Point, start: Point, canvas: Size, presetRatio: real, withShiftKey: bool)
    ensures AnchorOnCanvas(start, canvas) && (presetRatio > 0.0 || (presetRatio == 0.0 && !withShiftKey)) ==>
      var r := CalcRectDimensionFromPoint(p, start, canvas, presetRatio, withShiftKey);
      InsideCanvas(r, canvas) && ContainsAnchor(r, start)
    ensures presetRatio != 0.0 ==>
      HasRatio(CalcRectDimensionFromPoint(p, start, canvas, presetRatio, withShiftKey), presetRatio)
  {
    if AnchorOnCanvas(start, canvas) {
      if presetRatio > 0.0 {
        RatioDragInsideCanvas(p, start, canvas, presetRatio, withShiftKey);
      } else if presetRatio == 0.0 && !withShiftKey {
        FreeDragIsClippedBoundingBox(p, start, canvas);
      }
    }
    if presetRatio != 0.0 {
      RatioDragKeepsRatio(p, start, canvas, presetRatio, withShiftKey);
    }
  }
}
