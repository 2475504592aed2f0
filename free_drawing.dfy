/**
 * The free-drawing tool: plain brush drawing through the canvas's drawing
 * mode, or the mosaic brush, which on every mouse-move replaces the square
 * block under the pointer with its average colour and on mouse-up hands a
 * snapshot of the canvas to the editor as a new image object.
 */
module FreeDrawingComponent {
  import opened Wrappers
  import opened CropGeometry
  import opened FabricCanvas
  import opened Mosaic

  const DEFAULT_WIDTH: int := 12
  const DEFAULT_COLOR: string := "rgba(0, 0, 0, 0.5)"

  const MOUSE_DOWN := Listener(MouseDown, DrawingMouseDown)
  const MOUSE_MOVE := Listener(MouseMove, DrawingMouseMove)
  const MOUSE_UP := Listener(MouseUp, DrawingMouseUp)

  /** The editor object a mosaic setting carries; its own behaviour is outside this model. */
  datatype EditorRef = EditorRef(id: nat)

  /** An `imageEditor.invoke('addImageObject', url)` request. */
  datatype EditorCall = AddImageObject(editor: EditorRef, url: string)

  /** The `setting` argument; every member may be absent, and an absent `mosaic` is false. */
  datatype Setting = Setting(width: Option<int>, color: Option<string>, mosaic: bool, imageEditor: Option<EditorRef>)

  const NO_SETTING := Setting(None, None, false, None)

  /** A width JavaScript treats as true: present and not 0. */
  predicate TruthyWidth(w: Option<int>)
  {
    w.Some? && w.value != 0
  }

  /** A colour JavaScript treats as true: present and not empty. */
  predicate TruthyColor(c: Option<string>)
  {
    c.Some? && c.value != ""
  }

  class FreeDrawing {
    const canvas: Canvas
    /** Brush width; absent after a mosaic setting without a width. */
    var width: Option<int>
    /** Brush colour, as the colour string it was given. */
    var color: string
    var imageEditor: Option<EditorRef>

    constructor (canvas: Canvas)
      ensures this.canvas == canvas
      ensures width == Some(DEFAULT_WIDTH) && color == DEFAULT_COLOR && imageEditor == None
    {
      this.canvas := canvas;
      width := Some(DEFAULT_WIDTH);
      color := DEFAULT_COLOR;
      imageEditor := None;
    }

    /** The canvas brush shows this tool's width and colour. */
    predicate BrushInSync()
      reads this, canvas
    {
      canvas.brushWidth == width && canvas.brushColor == color
    }

    /**
     * A mosaic setting switches to the mosaic brush; anything else (also no
     * setting at all) turns on the canvas's drawing mode and sets the brush.
     */
    method Start(setting: Option<Setting>)
      modifies this`width, this`color, this`imageEditor
      modifies canvas`isDrawingMode, canvas`selection, canvas`listeners, canvas`brushWidth, canvas`brushColor
      ensures setting.Some? && setting.value.mosaic ==>
        imageEditor == setting.value.imageEditor && width == setting.value.width && color == old(color) &&
        !canvas.selection && canvas.listeners == old(canvas.listeners) + [MOUSE_DOWN] &&
        canvas.isDrawingMode == old(canvas.isDrawingMode) &&
        canvas.brushWidth == old(canvas.brushWidth) && canvas.brushColor == old(canvas.brushColor)
      ensures !(setting.Some? && setting.value.mosaic) ==>
        var s := setting.GetOr(NO_SETTING);
        canvas.isDrawingMode && BrushInSync() && imageEditor == old(imageEditor) &&
        width == (if TruthyWidth(s.width) then s.width else old(width)) &&
        color == (if TruthyColor(s.color) then s.color.value else old(color)) &&
        canvas.selection == old(canvas.selection) && canvas.listeners == old(canvas.listeners)
    {
      if setting.Some? && setting.value.mosaic {
        SetMosaic(setting.value);
      } else {
        canvas.isDrawingMode := true;
        SetBrush(setting);
      }
    }

    /**
     * Takes the setting's width and colour where they are given (a width of
     * 0 or an empty colour counts as not given) and copies both to the brush.
     */
    method SetBrush(setting: Option<Setting>)
      modifies this`width, this`color, canvas`brushWidth, canvas`brushColor
      ensures var s := setting.GetOr(NO_SETTING);
        width == (if TruthyWidth(s.width) then s.width else old(width)) &&
        color == (if TruthyColor(s.color) then s.color.value else old(color))
      ensures BrushInSync()
    {
      var s := setting.GetOr(NO_SETTING);
      width := if TruthyWidth(s.width) then s.width else width;
      if TruthyColor(s.color) {
        color := s.color.value;
      }
      canvas.brushWidth := width;
      canvas.brushColor := color;
    }

    /** Leaves drawing: drawing mode off, selection on, mouse-down no longer listened to. */
    method End()
      modifies canvas`isDrawingMode, canvas`selection, canvas`listeners
      ensures !canvas.isDrawingMode && canvas.selection
      ensures canvas.listeners == RemoveFirst(old(canvas.listeners), MOUSE_DOWN)
    {
      canvas.isDrawingMode := false;
      canvas.selection := true;
      canvas.Off(MOUSE_DOWN);
    }

    /**
     * Switches to the mosaic brush: the setting's editor and width are taken
     * as given (absent ones included), selection goes off and mouse-down is
     * listened to.  Drawing mode is left as it was.
     */
    method SetMosaic(setting: Setting)
      modifies this`imageEditor, this`width, canvas`selection, canvas`listeners
      ensures imageEditor == setting.imageEditor && width == setting.width
      ensures !canvas.selection && canvas.listeners == old(canvas.listeners) + [MOUSE_DOWN]
    {
      imageEditor := setting.imageEditor;
      width := setting.width;
      canvas.selection := false;
      canvas.On(MOUSE_DOWN);
    }

    /** Mouse-down in mosaic mode: mouse-move and mouse-up are listened to. */
    method OnMouseDown()
      modifies canvas`listeners
      ensures canvas.listeners == old(canvas.listeners) + [MOUSE_MOVE, MOUSE_UP]
    {
      canvas.On(MOUSE_MOVE);
      canvas.On(MOUSE_UP);
    }

    /**
     * Mouse-move at `pointer`: `block` holds the RGBA bytes (an `ImageData`
     * buffer, so every entry is a byte) of the square of
     * side `width` centred on the pointer; every pixel of it becomes the
     * block's average colour, opaque.  Returns the square's top-left corner,
     * where the block is written back.
     */
    method OnMouseMove(pointer: Point, block: array<int>) returns (origin: Point)
      requires width.Some? && width.value > 0
      requires block.Length == 4 * (width.value * width.value) && AreBytes(block[..])
      modifies block
      ensures origin == Point(pointer.x - width.value as real / 2.0, pointer.y - width.value as real / 2.0)
      ensures block[..] == Pixelated(old(block[..]), width.value)
      ensures AreBytes(block[..])
      ensures Pixelated(block[..], width.value) == block[..]
    {
      var blockSize := width.value;
      var halfSize := blockSize as real / 2.0;
      origin := Point(pointer.x - halfSize, pointer.y - halfSize);
      var r, g, b := SumChannels(block);
      var area := blockSize * blockSize;
      r := r / area;
      g := g / area;
      b := b / area;
      FillBlock(block, r, g, b);
      PixelatedAreBytes(old(block[..]), blockSize);
      PixelateIsIdempotent(old(block[..]), blockSize);
    }

    /**
     * Mouse-up in mosaic mode: the snapshot `imageUrl` of the canvas is sent
     * to the editor as a new image object and mouse-move and mouse-up are no
     * longer listened to.  Without an editor the handler fails before either
     * happens.
     */
    method OnMasikMouseUp(imageUrl: string) returns (call: Option<EditorCall>)
      modifies canvas`listeners
      ensures imageEditor.None? ==> call.None? && canvas.listeners == old(canvas.listeners)
      ensures imageEditor.Some? ==>
        call == Some(AddImageObject(imageEditor.value, imageUrl)) &&
        canvas.listeners == RemoveFirst(RemoveFirst(old(canvas.listeners), MOUSE_MOVE), MOUSE_UP)
    {
      if imageEditor.None? {
        return None;
      }
      call := Some(AddImageObject(imageEditor.value, imageUrl));
      canvas.Off(MOUSE_MOVE);
      canvas.Off(MOUSE_UP);
    }

    /**
     * One mosaic stroke (press, one move, release) leaves exactly the
     * mouse-down registration of the mosaic brush behind.
     */
    method MosaicStroke(setting: Setting, pointer: Point, block: array<int>, imageUrl: string)
        returns (origin: Point, call: Option<EditorCall>)
      requires setting.width.Some? && setting.width.value > 0 && setting.imageEditor.Some?
      requires block.Length == 4 * (setting.width.value * setting.width.value) && AreBytes(block[..])
      requires MOUSE_MOVE !in canvas.listeners && MOUSE_UP !in canvas.listeners
      modifies this`imageEditor, this`width, canvas`selection, canvas`listeners, block
      ensures canvas.listeners == old(canvas.listeners) + [MOUSE_DOWN]
      ensures call == Some(AddImageObject(setting.imageEditor.value, imageUrl))
      ensures block[..] == Pixelated(old(block[..]), setting.width.value)
    {
      SetMosaic(setting);
      ghost var registered := canvas.listeners;
      OnMouseDown();
      assert canvas.listeners == registered + [MOUSE_MOVE] + [MOUSE_UP];
      origin := OnMouseMove(pointer, block);
      call := OnMasikMouseUp(imageUrl);
      RemoveFirstUndoesAdd(registered, MOUSE_MOVE, [MOUSE_UP]);
      RemoveFirstUndoesAdd(registered, MOUSE_UP, []);
      assert registered + [MOUSE_UP] + [] == registered + [MOUSE_UP];
    }
  }
}
