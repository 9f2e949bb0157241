/**
 * `Listeners` of the older engine: the canvas and window handlers for
 * mouse buttons, mouse moves, clicks and touches, keys, resize, focus and
 * the debug keys, and the mouse-out pass of the hovered list.
 *
 * Unlike the current listeners, a click reaches only the first object hit
 * in `getAll` order, and a mouse move marks at most one new object as
 * hovered. Hit tests read the collider's `offset` and the older camera's
 * offset, which is measured from the canvas centre; the callbacks get no
 * point.
 *
 * The user-agent test, the environment and the DOM event fields are
 * parameters; the camera is the `Camera` object, of which only `position`
 * is read; the canvas is the `Canvas` object, of which only the size is
 * read and written.
 */
module LegacyListeners {
  import opened Wrappers
  import opened Vectors
  import opened Objects
  import opened Splicing
  import opened Points
  import opened GameObjects
  import opened Hovering
  import Input
  import Cameras
  import WindowEvents

  /**
   * The point a hit test is anchored on: position plus collider offset,
   * minus the older camera's offset. It is the top-left corner of a
   * rectangle collider and the centre of a circle collider.
   */
  function Anchor(cameraPosition: Vector2, canvasWidth: real, canvasHeight: real, g: GameObject, offset: Vector2): (a: Vector2)
    ensures !g.affectedByCamera ==> a == Add(g.position, Vec(offset))
    ensures g.affectedByCamera && cameraPosition == Vector2(canvasWidth / 2.0, canvasHeight / 2.0) ==> a == Add(g.position, Vec(offset))
  {
    var o := Cameras.LegacyOffsetForRenderer(cameraPosition, canvasWidth, canvasHeight, g);
    Vector2(g.position.x + offset.x - o.x, g.position.y + offset.y - o.y)
  }

  /**
   * The hit test of the older listeners: a circle collider is tested as a
   * disc around the anchor, a rectangle collider as a box whose top-left
   * corner is the anchor; any other collider, or none, is never hit.
   */
  predicate LegacyHit(cameraPosition: Vector2, canvasWidth: real, canvasHeight: real, p: Vector2, g: GameObject)
  {
    match g.collider
    case Some(CircleCollider(radius, offset)) =>
      var a := Anchor(cameraPosition, canvasWidth, canvasHeight, g, offset);
      PointInsideCircle(p.x, p.y, a.x, a.y, radius)
    case Some(RectCollider(size, offset)) =>
      var a := Anchor(cameraPosition, canvasWidth, canvasHeight, g, offset);
      PointInsideRectangle(p.x, p.y, a.x, a.y, size.x, size.y)
    case _ => false
  }

  /** The anchor of a circle, and of a rectangle of non-negative size, is itself a hit. */
  lemma AnchorIsHit(cameraPosition: Vector2, canvasWidth: real, canvasHeight: real, g: GameObject)
    requires g.collider.Some? && g.collider.value != OtherCollider
    requires g.collider.value.RectCollider? ==> 0.0 <= g.collider.value.size.x && 0.0 <= g.collider.value.size.y
    ensures LegacyHit(cameraPosition, canvasWidth, canvasHeight, Anchor(cameraPosition, canvasWidth, canvasHeight, g, g.collider.value.offset), g)
  {
    var a := Anchor(cameraPosition, canvasWidth, canvasHeight, g, g.collider.value.offset);
    match g.collider.value
    case CircleCollider(radius, offset) =>
      CentreInsideCircle(a.x, a.y, radius);
    case RectCollider(size, offset) =>
      CornersInsideRectangle(a.x, a.y, size.x, size.y);
  }

  /**
   * The far corner of a rectangle collider is hit, and a point beyond it
   * is not: the anchor is the top-left corner, not the centre.
   */
  lemma RectangleAnchorIsTopLeft(cameraPosition: Vector2, canvasWidth: real, canvasHeight: real, g: GameObject, e: real)
    requires g.collider.Some? && g.collider.value.RectCollider?
    requires 0.0 <= g.collider.value.size.x && 0.0 <= g.collider.value.size.y && 0.0 < e
    ensures var a := Anchor(cameraPosition, canvasWidth, canvasHeight, g, g.collider.value.offset);
      var size := g.collider.value.size;
      LegacyHit(cameraPosition, canvasWidth, canvasHeight, Vector2(a.x + size.x, a.y + size.y), g) &&
      !LegacyHit(cameraPosition, canvasWidth, canvasHeight, Vector2(a.x + size.x + e, a.y), g) &&
      !LegacyHit(cameraPosition, canvasWidth, canvasHeight, Vector2(a.x - e, a.y), g)
  {
    var a := Anchor(cameraPosition, canvasWidth, canvasHeight, g, g.collider.value.offset);
    CornersInsideRectangle(a.x, a.y, g.collider.value.size.x, g.collider.value.size.y);
  }

  /** The click and hover test: the object is hit by the cursor at `p`. */
  function HitAt(cameraPosition: Vector2, canvasWidth: real, canvasHeight: real, p: Vector2): GameObject -> bool
  {
    (g: GameObject) => HasCollider(g) && LegacyHit(cameraPosition, canvasWidth, canvasHeight, p, g)
  }

  /** The hover test: hit, and not listed yet. */
  function NewlyHoveredAt(cameraPosition: Vector2, canvasWidth: real, canvasHeight: real, p: Vector2, hovered: seq<GameObject>): GameObject -> bool
  {
    (g: GameObject) => HasCollider(g) && !Listed(hovered, g.name) && LegacyHit(cameraPosition, canvasWidth, canvasHeight, p, g)
  }

  /**
   * The mouse-out test: a circle or rectangle collider the cursor is no
   * longer over. Entries with another collider, or none, are never dropped.
   */
  function LeftAt(cameraPosition: Vector2, canvasWidth: real, canvasHeight: real, p: Vector2): GameObject -> bool
  {
    (g: GameObject) =>
      g.collider.Some? && (g.collider.value.CircleCollider? || g.collider.value.RectCollider?) &&
      !LegacyHit(cameraPosition, canvasWidth, canvasHeight, p, g)
  }

  /** A listed object the cursor is still over stays listed after the mouse-out pass. */
  lemma {:induction false} StillHitStaysListed(hovered: seq<GameObject>, cameraPosition: Vector2, canvasWidth: real, canvasHeight: real,
                                               p: Vector2, g: GameObject)
    requires g in hovered && LegacyHit(cameraPosition, canvasWidth, canvasHeight, p, g)
    ensures g in SkipSplice(hovered, LeftAt(cameraPosition, canvasWidth, canvasHeight, p))
  {
    StillHoveredStaysListed(hovered, LeftAt(cameraPosition, canvasWidth, canvasHeight, p), g);
  }

  /** A listed object whose collider is of no known class is never dropped. */
  lemma {:induction false} UnknownColliderStaysListed(hovered: seq<GameObject>, cameraPosition: Vector2, canvasWidth: real, canvasHeight: real,
                                                      p: Vector2, g: GameObject)
    requires g in hovered && (g.collider.None? || g.collider.value == OtherCollider)
    ensures g in SkipSplice(hovered, LeftAt(cameraPosition, canvasWidth, canvasHeight, p))
  {
    StillHoveredStaysListed(hovered, LeftAt(cameraPosition, canvasWidth, canvasHeight, p), g);
  }

  /** The two debug switches of the older renderer. */
  datatype DebugFlags = DebugFlags(fpsRenderingEnabled: bool, colliderRenderingEnabled: bool)

  /** `KeyboardButtonsEnum.Digit1` and `Digit2`. */
  const Digit1: int := 49
  const Digit2: int := 50

  /**
   * The debug keydown handler on the flags: nothing in production;
   * otherwise Digit1 flips FPS rendering and Digit2 flips collider
   * rendering, each leaving the other switch alone.
   */
  function DebugToggle(flags: DebugFlags, keyCode: int, production: bool): (r: DebugFlags)
    ensures production || (keyCode != Digit1 && keyCode != Digit2) ==> r == flags
    ensures !production && keyCode == Digit1 ==>
      r.fpsRenderingEnabled != flags.fpsRenderingEnabled && r.colliderRenderingEnabled == flags.colliderRenderingEnabled
    ensures !production && keyCode == Digit2 ==>
      r.colliderRenderingEnabled != flags.colliderRenderingEnabled && r.fpsRenderingEnabled == flags.fpsRenderingEnabled
  {
    if production then flags
    else
      var afterFps := if keyCode == Digit1 then flags.(fpsRenderingEnabled := !flags.fpsRenderingEnabled) else flags;
      if keyCode == Digit2 then afterFps.(colliderRenderingEnabled := !afterFps.colliderRenderingEnabled) else afterFps
  }

  /** Pressing the same debug key twice restores the flags. */
  lemma DebugToggleTwice(flags: DebugFlags, keyCode: int, production: bool)
    ensures DebugToggle(DebugToggle(flags, keyCode, production), keyCode, production) == flags
  {
  }

  /** The older renderer, as far as the listeners touch it: its debug flags. */
  class LegacyRenderer {
    var debug: DebugFlags

    constructor ()
      ensures debug == DebugFlags(false, false)
    {
      debug := DebugFlags(false, false);
    }
  }

  class Listeners {
    const input: Input.InputState
    const canvas: WindowEvents.Canvas
    const renderer: LegacyRenderer
    const gameObjectsManager: GameObjectsManager
    /** `environment === 'production'`. */
    const production: bool
    const camera: Cameras.Camera
    var mouseOverGameObjects: seq<GameObject>

    /** The hovered list never holds two entries with one name. */
    predicate Valid()
      reads this
    {
      DistinctNames(mouseOverGameObjects)
    }

    constructor (input: Input.InputState, canvas: WindowEvents.Canvas, renderer: LegacyRenderer,
                 gameObjectsManager: GameObjectsManager, production: bool, camera: Cameras.Camera)
      ensures Valid() && mouseOverGameObjects == []
      ensures this.input == input && this.canvas == canvas && this.renderer == renderer
      ensures this.gameObjectsManager == gameObjectsManager && this.production == production && this.camera == camera
    {
      this.input := input;
      this.canvas := canvas;
      this.renderer := renderer;
      this.gameObjectsManager := gameObjectsManager;
      this.production := production;
      this.camera := camera;
      mouseOverGameObjects := [];
    }

    /**
     * `callMouseOutEventOnAllNeededGameObjects`: listed objects with a
     * circle or rectangle collider the cursor has left hear `onMouseOut`
     * and are removed by name; the entry after each removed one is skipped
     * in this pass.
     */
    method CallMouseOutEventOnAllNeededGameObjects() returns (calls: seq<Call>)
      requires Valid()
      modifies this
      ensures Valid()
      ensures mouseOverGameObjects ==
        SkipSplice(old(mouseOverGameObjects), LeftAt(camera.position, canvas.width, canvas.height, input.mousePosition))
      ensures calls == OutCalls(old(mouseOverGameObjects), LeftAt(camera.position, canvas.width, canvas.height, input.mousePosition))
    {
      var mousePosition := input.GetMousePosition();
      mouseOverGameObjects, calls :=
        MouseOutPass(mouseOverGameObjects, LeftAt(camera.position, canvas.width, canvas.height, mousePosition));
    }

    /** The mousedown handler: the button is down. */
    method OnMouseDown(button: int)
      modifies input
      ensures input.mouseButtonsStates == old(input.mouseButtonsStates)[button := true]
      ensures input.keyboardButtonsStates == old(input.keyboardButtonsStates) && input.mousePosition == old(input.mousePosition)
    {
      input.SetMouseButton(button, true);
    }

    /** The mouseup handler: the button is up. */
    method OnMouseUp(button: int)
      modifies input
      ensures input.mouseButtonsStates == old(input.mouseButtonsStates)[button := false]
      ensures input.keyboardButtonsStates == old(input.keyboardButtonsStates) && input.mousePosition == old(input.mousePosition)
    {
      input.SetMouseButton(button, false);
    }

    /** The first mousemove handler: the cursor position relative to the canvas box, unscaled. */
    method OnMouseMove(clientX: real, clientY: real, rectLeft: real, rectTop: real)
      modifies input
      ensures input.mousePosition == Subtract(Vector2(clientX, clientY), Vec(Vector2(rectLeft, rectTop)))
      ensures input.mouseButtonsStates == old(input.mouseButtonsStates)
      ensures input.keyboardButtonsStates == old(input.keyboardButtonsStates)
    {
      var x := clientX - rectLeft;
      var y := clientY - rectTop;
      input.mousePosition := Vector2(x, y);
    }

    /**
     * `callOnMouseClickMethodOnGameObjects`: in `getAll` order, the first
     * object hit at (x, y) hears `onMouseClick`, and no other does.
     */
    method CallOnMouseClickMethodOnGameObjects(x: real, y: real) returns (calls: seq<Call>)
      modifies gameObjectsManager
      ensures SortedByLayer(gameObjectsManager.gameObjects)
      ensures multiset(gameObjectsManager.gameObjects) == multiset(old(gameObjectsManager.gameObjects))
      ensures gameObjectsManager.startQueue == old(gameObjectsManager.startQueue)
      ensures var first := FirstWhere(gameObjectsManager.gameObjects, HitAt(camera.position, canvas.width, canvas.height, Vector2(x, y)));
        (first.None? ==> calls == []) &&
        (first.Some? ==> calls == [OnMouseClick(gameObjectsManager.gameObjects[first.value], None)])
    {
      var all := gameObjectsManager.GetAll();
      calls := FirstClick(camera.position, canvas.width, canvas.height, Vector2(x, y), all);
    }

    /** The click handler: nothing on a mobile device, else a click at the cursor position. */
    method OnClick(mobileUser: bool) returns (calls: seq<Call>)
      modifies gameObjectsManager
      ensures mobileUser ==> calls == [] && gameObjectsManager.gameObjects == old(gameObjectsManager.gameObjects)
      ensures !mobileUser ==> SortedByLayer(gameObjectsManager.gameObjects)
      ensures multiset(gameObjectsManager.gameObjects) == multiset(old(gameObjectsManager.gameObjects))
      ensures gameObjectsManager.startQueue == old(gameObjectsManager.startQueue)
      ensures !mobileUser ==>
        var first := FirstWhere(gameObjectsManager.gameObjects, HitAt(camera.position, canvas.width, canvas.height, input.mousePosition));
        (first.None? ==> calls == []) &&
        (first.Some? ==> calls == [OnMouseClick(gameObjectsManager.gameObjects[first.value], None)])
    {
      if mobileUser {
        return [];
      }
      var mousePosition := input.GetMousePosition();
      calls := CallOnMouseClickMethodOnGameObjects(mousePosition.x, mousePosition.y);
    }

    /** The touchend handler: a click at the touch point relative to the canvas box. */
    method OnTouchEnd(touchClientX: real, touchClientY: real, rectLeft: real, rectTop: real) returns (calls: seq<Call>)
      modifies gameObjectsManager
      ensures SortedByLayer(gameObjectsManager.gameObjects)
      ensures multiset(gameObjectsManager.gameObjects) == multiset(old(gameObjectsManager.gameObjects))
      ensures gameObjectsManager.startQueue == old(gameObjectsManager.startQueue)
      ensures var first := FirstWhere(gameObjectsManager.gameObjects,
          HitAt(camera.position, canvas.width, canvas.height, Vector2(touchClientX - rectLeft, touchClientY - rectTop)));
        (first.None? ==> calls == []) &&
        (first.Some? ==> calls == [OnMouseClick(gameObjectsManager.gameObjects[first.value], None)])
    {
      var x := touchClientX - rectLeft;
      var y := touchClientY - rectTop;
      calls := CallOnMouseClickMethodOnGameObjects(x, y);
    }

    /**
     * The second mousemove handler: nothing on a mobile device; otherwise,
     * in `getAll` order, the first object hit that is not listed yet hears
     * `onMouseOver` and joins the list, and the pass stops there.
     */
    method OnMouseMoveToCheckOver(mobileUser: bool) returns (calls: seq<Call>)
      requires Valid()
      modifies this, gameObjectsManager
      ensures Valid()
      ensures mobileUser ==>
        calls == [] && mouseOverGameObjects == old(mouseOverGameObjects) &&
        gameObjectsManager.gameObjects == old(gameObjectsManager.gameObjects)
      ensures !mobileUser ==> SortedByLayer(gameObjectsManager.gameObjects)
      ensures multiset(gameObjectsManager.gameObjects) == multiset(old(gameObjectsManager.gameObjects))
      ensures gameObjectsManager.startQueue == old(gameObjectsManager.startQueue)
      ensures !mobileUser ==>
        var first := FirstWhere(gameObjectsManager.gameObjects,
          NewlyHoveredAt(camera.position, canvas.width, canvas.height, input.mousePosition, old(mouseOverGameObjects)));
        (first.None? ==> calls == [] && mouseOverGameObjects == old(mouseOverGameObjects)) &&
        (first.Some? ==>
          calls == [OnMouseOver(gameObjectsManager.gameObjects[first.value], None)] &&
          mouseOverGameObjects == old(mouseOverGameObjects) + [gameObjectsManager.gameObjects[first.value]])
    {
      if mobileUser {
        return [];
      }
      var mousePosition := input.GetMousePosition();
      var all := gameObjectsManager.GetAll();
      var newcomer := FirstNewlyHovered(camera.position, canvas.width, canvas.height, mousePosition, mouseOverGameObjects, all);
      calls := [];
      if newcomer.Some? {
        assert !Listed(mouseOverGameObjects, newcomer.value.name);
        calls := [OnMouseOver(newcomer.value, None)];
        mouseOverGameObjects := mouseOverGameObjects + [newcomer.value];
      }
    }

    /** `checkIfGameObjectAlreadyHovered`: an entry with the object's name is listed. */
    method CheckIfGameObjectAlreadyHovered(gameObject: GameObject) returns (b: bool)
      ensures b <==> Listed(mouseOverGameObjects, gameObject.name)
    {
      b := FindListed(mouseOverGameObjects, gameObject.name);
    }

    /** `removeGameObjectFromAlreadyHoveredList`: the name's entries are spliced out while the index advances. */
    method RemoveGameObjectFromAlreadyHoveredList(gameObject: GameObject)
      requires Valid()
      modifies this
      ensures Valid()
      ensures mouseOverGameObjects == SkipSplice(old(mouseOverGameObjects), SameName(gameObject.name))
    {
      SkipSpliceKeepsDistinctNames(mouseOverGameObjects, SameName(gameObject.name));
      mouseOverGameObjects := RemoveByName(mouseOverGameObjects, gameObject);
    }

    /** The keydown handler of the keyboard state: the key is down. */
    method OnKeyDown(keyCode: int)
      modifies input
      ensures input.keyboardButtonsStates == old(input.keyboardButtonsStates)[keyCode := true]
      ensures input.mouseButtonsStates == old(input.mouseButtonsStates) && input.mousePosition == old(input.mousePosition)
    {
      input.SetKeyboardButton(keyCode, true);
    }

    /** The keyup handler: the key is up. */
    method OnKeyUp(keyCode: int)
      modifies input
      ensures input.keyboardButtonsStates == old(input.keyboardButtonsStates)[keyCode := false]
      ensures input.mouseButtonsStates == old(input.mouseButtonsStates) && input.mousePosition == old(input.mousePosition)
    {
      input.SetKeyboardButton(keyCode, false);
    }

    /**
     * The resize handler: the older renderer's `resizeCanvas` gives the
     * canvas the window's size, then every object hears `onWindowResized`,
     * in `getAll` order.
     */
    method OnResize(innerWidth: real, innerHeight: real) returns (calls: seq<Call>)
      modifies canvas, gameObjectsManager
      ensures canvas.width == innerWidth && canvas.height == innerHeight
      ensures canvas.transformScale == old(canvas.transformScale)
      ensures SortedByLayer(gameObjectsManager.gameObjects)
      ensures multiset(gameObjectsManager.gameObjects) == multiset(old(gameObjectsManager.gameObjects))
      ensures gameObjectsManager.startQueue == old(gameObjectsManager.startQueue)
      ensures |calls| == |gameObjectsManager.gameObjects|
      ensures forall i :: 0 <= i < |calls| ==> calls[i] == OnWindowResized(gameObjectsManager.gameObjects[i])
    {
      canvas.width := innerWidth;
      canvas.height := innerHeight;
      var all := gameObjectsManager.GetAll();
      calls := WindowEvents.Broadcast(WindowEvents.Resized, all);
    }

    /** The focus handler: every object hears `onWindowFocusGain`, in `getAll` order. */
    method OnFocus() returns (calls: seq<Call>)
      modifies gameObjectsManager
      ensures SortedByLayer(gameObjectsManager.gameObjects)
      ensures multiset(gameObjectsManager.gameObjects) == multiset(old(gameObjectsManager.gameObjects))
      ensures gameObjectsManager.startQueue == old(gameObjectsManager.startQueue)
      ensures |calls| == |gameObjectsManager.gameObjects|
      ensures forall i :: 0 <= i < |calls| ==> calls[i] == OnWindowFocusGain(gameObjectsManager.gameObjects[i])
    {
      var all := gameObjectsManager.GetAll();
      calls := WindowEvents.Broadcast(WindowEvents.FocusGain, all);
    }

    /** The blur handler: every object hears `onWindowFocusLoose`, in `getAll` order. */
    method OnBlur() returns (calls: seq<Call>)
      modifies gameObjectsManager
      ensures SortedByLayer(gameObjectsManager.gameObjects)
      ensures multiset(gameObjectsManager.gameObjects) == multiset(old(gameObjectsManager.gameObjects))
      ensures gameObjectsManager.startQueue == old(gameObjectsManager.startQueue)
      ensures |calls| == |gameObjectsManager.gameObjects|
      ensures forall i :: 0 <= i < |calls| ==> calls[i] == OnWindowFocusLoose(gameObjectsManager.gameObjects[i])
    {
      var all := gameObjectsManager.GetAll();
      calls := WindowEvents.Broadcast(WindowEvents.FocusLoose, all);
    }

    /** The debug keydown handler: the renderer's flags as `DebugToggle` says. */
    method OnDebugKeyDown(keyCode: int)
      modifies renderer
      ensures renderer.debug == DebugToggle(old(renderer.debug), keyCode, production)
    {
      if production {
        return;
      }
      if keyCode == Digit1 {
        renderer.debug := renderer.debug.(fpsRenderingEnabled := !renderer.debug.fpsRenderingEnabled);
      }
      if keyCode == Digit2 {
        renderer.debug := renderer.debug.(colliderRenderingEnabled := !renderer.debug.colliderRenderingEnabled);
      }
    }
  }

  /**
   * The loop of `callOnMouseClickMethodOnGameObjects`: objects without a
   * collider are skipped, and the loop breaks at the first hit.
   */
  method FirstClick(cameraPosition: Vector2, canvasWidth: real, canvasHeight: real, p: Vector2, objects: seq<GameObject>)
    returns (calls: seq<Call>)
    ensures var first := FirstWhere(objects, HitAt(cameraPosition, canvasWidth, canvasHeight, p));
      (first.None? ==> calls == []) &&
      (first.Some? ==> calls == [OnMouseClick(objects[first.value], None)])
  {
    calls := [];
    var i := 0;
    while i < |objects|
      invariant 0 <= i <= |objects|
      invariant forall k :: 0 <= k < i ==> !HitAt(cameraPosition, canvasWidth, canvasHeight, p)(objects[k])
    {
      var gameObject := objects[i];
      if gameObject.collider.Some? {
        if LegacyHit(cameraPosition, canvasWidth, canvasHeight, p, gameObject) {
          assert FirstWhere(objects, HitAt(cameraPosition, canvasWidth, canvasHeight, p)) == Some(i);
          return [OnMouseClick(gameObject, None)];
        }
      }
      i := i + 1;
    }
  }

  /**
   * The loop of the older hover handler: objects without a collider or
   * already listed are skipped, and the loop breaks at the first hit.
   */
  method FirstNewlyHovered(cameraPosition: Vector2, canvasWidth: real, canvasHeight: real, p: Vector2,
                           hovered: seq<GameObject>, objects: seq<GameObject>) returns (r: Option<GameObject>)
    ensures var first := FirstWhere(objects, NewlyHoveredAt(cameraPosition, canvasWidth, canvasHeight, p, hovered));
      (first.None? ==> r.None?) &&
      (first.Some? ==> r == Some(objects[first.value]))
  {
    var i := 0;
    while i < |objects|
      invariant 0 <= i <= |objects|
      invariant forall k :: 0 <= k < i ==> !NewlyHoveredAt(cameraPosition, canvasWidth, canvasHeight, p, hovered)(objects[k])
    {
      var gameObject := objects[i];
      if gameObject.collider.Some? {
        var alreadyHovered := FindListed(hovered, gameObject.name);
        if !alreadyHovered && LegacyHit(cameraPosition, canvasWidth, canvasHeight, p, gameObject) {
          assert FirstWhere(objects, NewlyHoveredAt(cameraPosition, canvasWidth, canvasHeight, p, hovered)) == Some(i);
          return Some(gameObject);
        }
      }
      i := i + 1;
    }
    return None;
  }
}
