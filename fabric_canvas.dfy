/**
 * The part of the Fabric.js canvas and the DOM document that the cropper and
 * the free-drawing tool drive: the ordered object collection, the active
 * object, the selection and drawing-mode flags, the default cursor, the brush,
 * and the registered event handlers.  Rendering is not modelled.
 */
module FabricCanvas {
  import opened Wrappers
  import opened CropGeometry

  /** Canvas events (`mouse:down`, `mouse:move`, `mouse:up`) and document events (`keydown`, `keyup`). */
  datatype EventName = MouseDown | MouseMove | MouseUp | KeyDown | KeyUp

  /** The bound handlers the two components register. */
  datatype Handler =
    | CropperMouseDown | CropperMouseMove | CropperMouseUp | CropperKeyDown | CropperKeyUp
    | DrawingMouseDown | DrawingMouseMove | DrawingMouseUp

  datatype Listener = Listener(event: EventName, handler: Handler)

  /** `'default'`, or the crosshair SVG cursor the cropper installs. */
  datatype Cursor = DefaultCursor | CropCursor

  type NonNegReal = r: real | r >= 0.0

  /**
   * `s` without its first occurrence of `x` (the `indexOf` + `splice` of a
   * collection's `remove`); `s` itself when `x` does not occur.
   */
  function RemoveFirst<T(==)>(s: seq<T>, x: T): (r: seq<T>)
    ensures x !in s ==> r == s
    ensures x in s ==> |r| == |s| - 1
    ensures forall y :: y in r ==> y in s
  {
    if |s| == 0 then s
    else if s[0] == x then s[1..]
    else [s[0]] + RemoveFirst(s[1..], x)
  }

  /** Removal takes exactly one occurrence of `x` out of the contents, and nothing else. */
  lemma {:induction false} RemoveFirstContents<T>(s: seq<T>, x: T)
    ensures x in s ==> multiset(RemoveFirst(s, x)) == multiset(s) - multiset{x}
  {
    if |s| > 0 {
      assert s == [s[0]] + s[1..];
      if s[0] != x {
        RemoveFirstContents(s[1..], x);
      }
    }
  }

  /** Removing an object and adding it back keeps the collection's contents, at the end of the order. */
  lemma RemoveThenAddKeepsContents<T>(s: seq<T>, x: T)
    requires x in s
    ensures multiset(RemoveFirst(s, x) + [x]) == multiset(s)
    ensures (RemoveFirst(s, x) + [x])[|s| - 1] == x
  {
    RemoveFirstContents(s, x);
  }

  /** An object that occurs once is gone after its removal. */
  lemma {:induction false} RemoveFirstOfSingle<T>(s: seq<T>, x: T)
    requires multiset(s)[x] <= 1
    ensures x !in RemoveFirst(s, x)
  {
    if x in s {
      RemoveFirstContents(s, x);
      assert multiset(RemoveFirst(s, x))[x] == 0;
    }
  }

  lemma AppendAssociative<T>(a: seq<T>, b: seq<T>, c: seq<T>)
    ensures a + (b + c) == (a + b) + c
  {
  }

  /** Removing `x` from `s + [x] + t`, where `s` does not hold `x`, gives `s + t`. */
  lemma {:induction false} RemoveFirstUndoesAdd<T>(s: seq<T>, x: T, t: seq<T>)
    requires x !in s
    ensures RemoveFirst(s + [x] + t, x) == s + t
  {
    var u := s + [x] + t;
    if |s| == 0 {
      assert u[0] == x && u[1..] == t;
    } else {
      assert u[0] == s[0] != x;
      assert u[1..] == s[1..] + [x] + t;
      RemoveFirstUndoesAdd(s[1..], x, t);
      assert RemoveFirst(u, x) == [s[0]] + (s[1..] + t);
      assert [s[0]] + s[1..] == s;
      AppendAssociative([s[0]], s[1..], t);
    }
  }

  /**
   * A Fabric object as this core sees it: its geometry, the `presetRatio`
   * property a cropzone carries (0 when it has none), and the `visible` and
   * `evented` flags.
   */
  class FabricObject {
    var left: real
    var top: real
    var width: real
    var height: real
    var presetRatio: real
    var visible: bool
    var evented: bool

    constructor (r: Rect)
      ensures Geometry() == r && presetRatio == 0.0 && visible && evented
    {
      left, top, width, height := r.left, r.top, r.width, r.height;
      presetRatio := 0.0;
      visible, evented := true, true;
    }

    function Geometry(): Rect
      reads this
    {
      Rect(left, top, width, height)
    }

    /** `set({ left, top, width, height })`. */
    method SetRect(r: Rect)
      modifies this
      ensures Geometry() == r
      ensures presetRatio == old(presetRatio) && visible == old(visible) && evented == old(evented)
    {
      left, top, width, height := r.left, r.top, r.width, r.height;
    }
  }

  /** The handlers registered on the document (a DOM listener is registered at most once). */
  class Document {
    var listeners: set<Listener>

    constructor ()
      ensures listeners == {}
    {
      listeners := {};
    }

    method AddListener(l: Listener)
      modifies this
      ensures listeners == old(listeners) + {l}
    {
      listeners := listeners + {l};
    }

    method RemoveListener(l: Listener)
      modifies this
      ensures listeners == old(listeners) - {l}
    {
      listeners := listeners - {l};
    }
  }

  class Canvas {
    const width: NonNegReal
    const height: NonNegReal
    var objects: seq<FabricObject>
    var active: FabricObject?
    var selection: bool
    var isDrawingMode: bool
    var defaultCursor: Cursor
    /** Handlers registered with `on`, in registration order; `off` drops the first matching registration. */
    var listeners: seq<Listener>
    var brushWidth: Option<int>
    var brushColor: string

    /** An empty canvas with Fabric's defaults. */
    constructor (width: NonNegReal, height: NonNegReal)
      ensures this.width == width && this.height == height
      ensures objects == [] && active == null && selection && !isDrawingMode
      ensures defaultCursor == DefaultCursor && listeners == []
      ensures brushWidth == Some(1) && brushColor == "rgb(0, 0, 0)"
    {
      this.width, this.height := width, height;
      objects, active := [], null;
      selection, isDrawingMode := true, false;
      defaultCursor := DefaultCursor;
      listeners := [];
      brushWidth, brushColor := Some(1), "rgb(0, 0, 0)";
    }

    function Size(): Size
      reads this
    {
      CropGeometry.Size(width, height)
    }

    predicate Contains(o: FabricObject?)
      reads this
    {
      o in objects
    }

    /** Appends `o` to the objects (on top of the rendering order). */
    method Add(o: FabricObject)
      modifies this`objects
      ensures objects == old(objects) + [o]
    {
      objects := objects + [o];
    }

    /** Removes the first occurrence of `o`; removing the active object discards the selection. */
    method Remove(o: FabricObject)
      modifies this`objects, this`active
      ensures objects == RemoveFirst(old(objects), o)
      ensures active == if old(o in objects) && old(active) == o then null else old(active)
    {
      if o in objects && active == o {
        active := null;
      }
      objects := RemoveFirst(objects, o);
    }

    method SetActiveObject(o: FabricObject)
      modifies this`active
      ensures active == o
    {
      active := o;
    }

    method DiscardActiveObject()
      modifies this`active
      ensures active == null
    {
      active := null;
    }

    method On(l: Listener)
      modifies this`listeners
      ensures listeners == old(listeners) + [l]
    {
      listeners := listeners + [l];
    }

    method Off(l: Listener)
      modifies this`listeners
      ensures listeners == RemoveFirst(old(listeners), l)
    {
      listeners := RemoveFirst(listeners, l);
    }

    /** `forEachObject(obj => obj.evented = value)`. */
    method SetAllEvented(value: bool)
      modifies objects`evented
      ensures forall o :: o in objects ==> o.evented == value
    {
      var i := 0;
      while i < |objects|
        invariant 0 <= i <= |objects|
        invariant forall j :: 0 <= j < i ==> objects[j].evented == value
      {
        objects[i].evented := value;
        i := i + 1;
      }
    }
  }
}
