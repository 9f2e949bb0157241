/**
 * `MouseListeners` of the current engine: the handlers registered on the
 * canvas for clicks, button presses, mouse moves (cursor position and
 * hovering), and the mouse-out pass the frame loop runs.
 *
 * Each handler is a method run with the event's data as parameters; the
 * user-agent test, the canvas's bounding rectangle and the game-object
 * callbacks are parameters or `Call` traces. Hit tests are the collision
 * checker's `pointInsideGameObject` with the current camera.
 */
module Mouse {
  import opened Wrappers
  import opened Vectors
  import opened Objects
  import opened Splicing
  import opened Collisions
  import opened GameObjects
  import opened Hovering
  import Input
  import Cameras

  /** The handlers `registerListeners` adds, in order. */
  datatype MouseHandler = Click | MouseDown | MouseUp | MouseMoveToInjectPosition | MouseMoveToCheckOver

  /** `registerListeners`: nothing on a mobile device, all five handlers otherwise. */
  function RegisteredHandlers(mobileUser: bool): (r: seq<MouseHandler>)
    ensures mobileUser <==> r == []
    ensures !mobileUser ==> Click in r && MouseDown in r && MouseUp in r && MouseMoveToInjectPosition in r && MouseMoveToCheckOver in r
  {
    if mobileUser then [] else [Click, MouseDown, MouseUp, MouseMoveToInjectPosition, MouseMoveToCheckOver]
  }

  /**
   * The click handler's calls: every object whose collider contains the
   * cursor, in the order given, hears `onMouseClick` with the hit point.
   */
  function ClickCalls(cameraPosition: Vector2, cursor: Vector2, objects: seq<GameObject>): (r: seq<Call>)
    ensures |r| <= |objects|
    ensures forall c :: c in r ==>
      c.OnMouseClick? && c.target in objects && c.at.Some? && c.at == PointInsideGameObject(cameraPosition, cursor, c.target)
    ensures forall i :: 0 <= i < |objects| && PointInsideGameObject(cameraPosition, cursor, objects[i]).Some? ==>
      OnMouseClick(objects[i], PointInsideGameObject(cameraPosition, cursor, objects[i])) in r
  {
    if |objects| == 0 then []
    else
      var hit := PointInsideGameObject(cameraPosition, cursor, objects[0]);
      var rest := ClickCalls(cameraPosition, cursor, objects[1..]);
      assert forall i :: 1 <= i < |objects| ==> objects[i] == objects[1..][i - 1];
      if hit.Some? then [OnMouseClick(objects[0], hit)] + rest else rest
  }

  /** The result of a hover pass: the new hovered list and the calls made. */
  datatype HoverOutcome = HoverOutcome(hovered: seq<GameObject>, calls: seq<Call>)

  /**
   * The hover pass over `objects`: an object not yet listed (by name) that
   * the cursor is over hears `onMouseOver` with the hit point and is
   * appended to the list, which later objects of the same pass see.
   */
  function HoverPass(cameraPosition: Vector2, cursor: Vector2, hovered: seq<GameObject>, objects: seq<GameObject>): (r: HoverOutcome)
    ensures |r.hovered| == |hovered| + |r.calls| && r.hovered[..|hovered|] == hovered
    ensures forall k :: |hovered| <= k < |r.hovered| ==>
      r.hovered[k] in objects && PointInsideGameObject(cameraPosition, cursor, r.hovered[k]).Some? &&
      r.calls[k - |hovered|] == OnMouseOver(r.hovered[k], PointInsideGameObject(cameraPosition, cursor, r.hovered[k]))
    ensures DistinctNames(hovered) ==> DistinctNames(r.hovered)
    decreases |objects|
  {
    if |objects| == 0 then HoverOutcome(hovered, [])
    else
      var g := objects[0];
      var hit := PointInsideGameObject(cameraPosition, cursor, g);
      assert forall x :: x in objects[1..] ==> x in objects;
      if Listed(hovered, g.name) || hit.None? then
        var rest := HoverPass(cameraPosition, cursor, hovered, objects[1..]);
        assert forall k :: |hovered| <= k < |rest.hovered| ==> rest.hovered[k] in objects[1..];
        rest
      else
        var grown := hovered + [g];
        var rest := HoverPass(cameraPosition, cursor, grown, objects[1..]);
        assert rest.hovered[..|hovered|] == grown[..|hovered|] == hovered;
        assert DistinctNames(hovered) ==> DistinctNames(grown);
        HoverOutcome(rest.hovered, [OnMouseOver(g, hit)] + rest.calls)
  }

  /** Some object of `objects` with `name` is under the cursor. */
  ghost predicate HitNamed(cameraPosition: Vector2, cursor: Vector2, objects: seq<GameObject>, name: string)
  {
    exists j :: 0 <= j < |objects| && objects[j].name == name && PointInsideGameObject(cameraPosition, cursor, objects[j]).Some?
  }

  /**
   * `objects[i]` joins the hovered list in a pass: it is under the cursor,
   * its name is not listed yet, and no earlier object under the cursor has
   * its name.
   */
  ghost predicate Newcomer(cameraPosition: Vector2, cursor: Vector2, hovered: seq<GameObject>, objects: seq<GameObject>, i: nat)
    requires i < |objects|
  {
    PointInsideGameObject(cameraPosition, cursor, objects[i]).Some? && !Listed(hovered, objects[i].name) &&
    !HitNamed(cameraPosition, cursor, objects[..i], objects[i].name)
  }

  /** The newcomers of `objects`, in `objects` order. */
  ghost function Newcomers(cameraPosition: Vector2, cursor: Vector2, hovered: seq<GameObject>, objects: seq<GameObject>): seq<GameObject>
    decreases |objects|
  {
    if |objects| == 0 then []
    else
      var n := |objects| - 1;
      Newcomers(cameraPosition, cursor, hovered, objects[..n]) +
        (if Newcomer(cameraPosition, cursor, hovered, objects, n) then [objects[n]] else [])
  }

  lemma ListedAppend(s: seq<GameObject>, t: seq<GameObject>, name: string)
    ensures Listed(s + t, name) <==> Listed(s, name) || Listed(t, name)
  {
    if Listed(s + t, name) {
      var i :| 0 <= i < |s + t| && (s + t)[i].name == name;
      if i >= |s| { assert t[i - |s|] == (s + t)[i]; }
    }
    if Listed(s, name) {
      var i :| 0 <= i < |s| && s[i].name == name;
      assert (s + t)[i] == s[i];
    }
    if Listed(t, name) {
      var i :| 0 <= i < |t| && t[i].name == name;
      assert (s + t)[|s| + i] == t[i];
    }
  }

  lemma HitNamedSnoc(cameraPosition: Vector2, cursor: Vector2, front: seq<GameObject>, g: GameObject, name: string)
    ensures HitNamed(cameraPosition, cursor, front + [g], name) <==>
      HitNamed(cameraPosition, cursor, front, name) || (g.name == name && PointInsideGameObject(cameraPosition, cursor, g).Some?)
  {
    var all := front + [g];
    if HitNamed(cameraPosition, cursor, front, name) {
      var j :| 0 <= j < |front| && front[j].name == name && PointInsideGameObject(cameraPosition, cursor, front[j]).Some?;
      assert all[j] == front[j];
    }
    if g.name == name && PointInsideGameObject(cameraPosition, cursor, g).Some? {
      assert all[|front|] == g;
    }
    if HitNamed(cameraPosition, cursor, all, name) {
      var j :| 0 <= j < |all| && all[j].name == name && PointInsideGameObject(cameraPosition, cursor, all[j]).Some?;
      if j < |front| { assert front[j] == all[j]; }
    }
  }

  /** One more object at the end of the pass is looked at against the list the pass has built so far. */
  lemma {:induction false} HoverPassSnoc(cameraPosition: Vector2, cursor: Vector2, hovered: seq<GameObject>, objects: seq<GameObject>, g: GameObject)
    ensures var r := HoverPass(cameraPosition, cursor, hovered, objects).hovered;
      HoverPass(cameraPosition, cursor, hovered, objects + [g]).hovered ==
        r + (if PointInsideGameObject(cameraPosition, cursor, g).Some? && !Listed(r, g.name) then [g] else [])
    decreases |objects|
  {
    var all := objects + [g];
    if |objects| == 0 {
      assert all == [g] && all[1..] == [];
    } else {
      var o := objects[0];
      assert all[0] == o && all[1..] == objects[1..] + [g];
      if Listed(hovered, o.name) || PointInsideGameObject(cameraPosition, cursor, o).None? {
        HoverPassSnoc(cameraPosition, cursor, hovered, objects[1..], g);
      } else {
        HoverPassSnoc(cameraPosition, cursor, hovered + [o], objects[1..], g);
      }
    }
  }

  /**
   * The hover pass appends exactly the newcomers, in `objects` order, and
   * afterwards a name is listed exactly when it was listed before or some
   * object of that name is under the cursor.
   */
  lemma {:induction false} HoverPassAppendsNewcomers(cameraPosition: Vector2, cursor: Vector2, hovered: seq<GameObject>, objects: seq<GameObject>)
    ensures HoverPass(cameraPosition, cursor, hovered, objects).hovered == hovered + Newcomers(cameraPosition, cursor, hovered, objects)
    ensures forall name :: Listed(HoverPass(cameraPosition, cursor, hovered, objects).hovered, name) <==>
      Listed(hovered, name) || HitNamed(cameraPosition, cursor, objects, name)
    decreases |objects|
  {
    if |objects| > 0 {
      var n := |objects| - 1;
      var front, g := objects[..n], objects[n];
      assert objects == front + [g];
      HoverPassAppendsNewcomers(cameraPosition, cursor, hovered, front);
      HoverPassSnoc(cameraPosition, cursor, hovered, front, g);
      var r := HoverPass(cameraPosition, cursor, hovered, front).hovered;
      var added := if Newcomer(cameraPosition, cursor, hovered, objects, n) then [g] else [];
      assert Newcomer(cameraPosition, cursor, hovered, objects, n) <==>
        PointInsideGameObject(cameraPosition, cursor, g).Some? && !Listed(r, g.name);
      assert HoverPass(cameraPosition, cursor, hovered, objects).hovered == r + added;
      forall name
        ensures Listed(r + added, name) <==> Listed(hovered, name) || HitNamed(cameraPosition, cursor, objects, name)
      {
        ListedAppend(r, added, name);
        HitNamedSnoc(cameraPosition, cursor, front, g, name);
        assert Listed(added, name) <==> added == [g] && g.name == name;
      }
    }
  }

  /** Every object under the cursor ends the pass with its name listed. */
  lemma HoverPassListsEveryHit(cameraPosition: Vector2, cursor: Vector2, hovered: seq<GameObject>, objects: seq<GameObject>)
    ensures forall g :: g in objects && PointInsideGameObject(cameraPosition, cursor, g).Some? ==>
      Listed(HoverPass(cameraPosition, cursor, hovered, objects).hovered, g.name)
  {
    HoverPassAppendsNewcomers(cameraPosition, cursor, hovered, objects);
    forall g | g in objects && PointInsideGameObject(cameraPosition, cursor, g).Some?
      ensures HitNamed(cameraPosition, cursor, objects, g.name)
    {
      var j :| 0 <= j < |objects| && objects[j] == g;
    }
  }

  /**
   * What the hover loop knows before looking at `objects[i]`: the list
   * built so far has unique names, and finishing the pass from `i` on gives
   * the outcome of the whole pass.
   */
  ghost predicate HoverLoopInvariant(cameraPosition: Vector2, cursor: Vector2, hovered: seq<GameObject>, objects: seq<GameObject>,
                                     grown: seq<GameObject>, calls: seq<Call>, i: nat)
  {
    i <= |objects| && DistinctNames(grown) &&
    var rest := HoverPass(cameraPosition, cursor, grown, objects[i..]);
    var whole := HoverPass(cameraPosition, cursor, hovered, objects);
    rest.hovered == whole.hovered && calls + rest.calls == whole.calls
  }

  /** An object that is listed already or not under the cursor is passed over. */
  lemma HoverSkipStep(cameraPosition: Vector2, cursor: Vector2, hovered: seq<GameObject>, objects: seq<GameObject>,
                      grown: seq<GameObject>, calls: seq<Call>, i: nat)
    requires HoverLoopInvariant(cameraPosition, cursor, hovered, objects, grown, calls, i) && i < |objects|
    requires Listed(grown, objects[i].name) || PointInsideGameObject(cameraPosition, cursor, objects[i]).None?
    ensures HoverLoopInvariant(cameraPosition, cursor, hovered, objects, grown, calls, i + 1)
  {
    assert objects[i..][0] == objects[i] && objects[i..][1..] == objects[i + 1..];
  }

  /** An object not listed yet that is under the cursor hears `onMouseOver` and joins the list. */
  lemma HoverAddStep(cameraPosition: Vector2, cursor: Vector2, hovered: seq<GameObject>, objects: seq<GameObject>,
                     grown: seq<GameObject>, calls: seq<Call>, i: nat)
    requires HoverLoopInvariant(cameraPosition, cursor, hovered, objects, grown, calls, i) && i < |objects|
    requires !Listed(grown, objects[i].name) && PointInsideGameObject(cameraPosition, cursor, objects[i]).Some?
    ensures HoverLoopInvariant(cameraPosition, cursor, hovered, objects, grown + [objects[i]],
                               calls + [OnMouseOver(objects[i], PointInsideGameObject(cameraPosition, cursor, objects[i]))], i + 1)
  {
    assert objects[i..][0] == objects[i] && objects[i..][1..] == objects[i + 1..];
    var grown' := grown + [objects[i]];
    forall j, k | 0 <= j < k < |grown'|
      ensures grown'[j].name != grown'[k].name
    {
      if k == |grown| { assert grown'[j] == grown[j]; }
    }
  }

  /**
   * The loop of the second mousemove handler, over the objects in the
   * order `getAll` left them, growing the hovered list as it goes.
   */
  method HoverLoop(cameraPosition: Vector2, cursor: Vector2, hovered: seq<GameObject>, objects: seq<GameObject>)
    returns (grown: seq<GameObject>, calls: seq<Call>)
    requires DistinctNames(hovered)
    ensures HoverOutcome(grown, calls) == HoverPass(cameraPosition, cursor, hovered, objects)
    ensures DistinctNames(grown)
    ensures grown == hovered + Newcomers(cameraPosition, cursor, hovered, objects)
    ensures forall g :: g in objects && PointInsideGameObject(cameraPosition, cursor, g).Some? ==> Listed(grown, g.name)
  {
    grown := hovered;
    calls := [];
    var i := 0;
    assert objects[0..] == objects;
    while i < |objects|
      invariant HoverLoopInvariant(cameraPosition, cursor, hovered, objects, grown, calls, i)
    {
      var gameObject := objects[i];
      var alreadyHovered := FindListed(grown, gameObject.name);
      var collisionPoint := PointInsideGameObject(cameraPosition, cursor, gameObject);
      if !alreadyHovered && collisionPoint.Some? {
        HoverAddStep(cameraPosition, cursor, hovered, objects, grown, calls, i);
        calls := calls + [OnMouseOver(gameObject, collisionPoint)];
        grown := grown + [gameObject];
      } else {
        HoverSkipStep(cameraPosition, cursor, hovered, objects, grown, calls, i);
      }
      i := i + 1;
    }
    assert objects[i..] == [];
    HoverPassAppendsNewcomers(cameraPosition, cursor, hovered, objects);
    HoverPassListsEveryHit(cameraPosition, cursor, hovered, objects);
  }

  /** The complement of a hit: the cursor is not over the object. */
  function NotUnderCursor(cameraPosition: Vector2, cursor: Vector2): GameObject -> bool
  {
    (g: GameObject) => PointInsideGameObject(cameraPosition, cursor, g).None?
  }

  /** The cursor position in canvas pixels: client coordinates relative to the canvas box, scaled to the canvas size. */
  function CanvasCursor(clientX: real, clientY: real, rectLeft: real, rectTop: real, rectWidth: real, rectHeight: real,
                        canvasWidth: real, canvasHeight: real): (p: Vector2)
    requires rectWidth != 0.0 && rectHeight != 0.0
  {
    Vector2((clientX - rectLeft) * (canvasWidth / rectWidth), (clientY - rectTop) * (canvasHeight / rectHeight))
  }

  /** The corners of the canvas box map to the corners of the canvas. */
  lemma CanvasCursorCorners(rectLeft: real, rectTop: real, rectWidth: real, rectHeight: real, canvasWidth: real, canvasHeight: real)
    requires rectWidth != 0.0 && rectHeight != 0.0
    ensures CanvasCursor(rectLeft, rectTop, rectLeft, rectTop, rectWidth, rectHeight, canvasWidth, canvasHeight) == Zero
    ensures CanvasCursor(rectLeft + rectWidth, rectTop + rectHeight, rectLeft, rectTop, rectWidth, rectHeight, canvasWidth, canvasHeight)
      == Vector2(canvasWidth, canvasHeight)
  {
    assert (rectLeft + rectWidth - rectLeft) * (canvasWidth / rectWidth) == canvasWidth;
    assert (rectTop + rectHeight - rectTop) * (canvasHeight / rectHeight) == canvasHeight;
  }

  class MouseListeners {
    const gameObjectsManager: GameObjectsManager
    const input: Input.InputState
    const camera: Cameras.Camera
    var mouseOverGameObjects: seq<GameObject>

    /** The hovered list never holds two entries with one name. */
    predicate Valid()
      reads this
    {
      DistinctNames(mouseOverGameObjects)
    }

    constructor (gameObjectsManager: GameObjectsManager, input: Input.InputState, camera: Cameras.Camera)
      ensures Valid() && mouseOverGameObjects == []
      ensures this.gameObjectsManager == gameObjectsManager && this.input == input && this.camera == camera
    {
      this.gameObjectsManager := gameObjectsManager;
      this.input := input;
      this.camera := camera;
      mouseOverGameObjects := [];
    }

    /** The click handler: `getAll` order, every hit object gets `onMouseClick`, not only the topmost. */
    method OnClick() returns (calls: seq<Call>)
      modifies gameObjectsManager
      ensures SortedByLayer(gameObjectsManager.gameObjects)
      ensures multiset(gameObjectsManager.gameObjects) == multiset(old(gameObjectsManager.gameObjects))
      ensures gameObjectsManager.startQueue == old(gameObjectsManager.startQueue)
      ensures calls == ClickCalls(camera.position, input.mousePosition, gameObjectsManager.gameObjects)
    {
      var mousePosition := input.GetMousePosition();
      var all := gameObjectsManager.GetAll();
      calls := [];
      var i := 0;
      while i < |all|
        invariant 0 <= i <= |all|
        invariant calls + ClickCalls(camera.position, mousePosition, all[i..]) == ClickCalls(camera.position, mousePosition, all)
      {
        var collisionPoint := PointInsideGameObject(camera.position, mousePosition, all[i]);
        assert all[i..][1..] == all[i + 1..];
        if collisionPoint.Some? {
          calls := calls + [OnMouseClick(all[i], collisionPoint)];
        }
        i := i + 1;
      }
    }

    /** The mousedown handler: the button is down. */
    method OnMouseDown(button: int)
      modifies input
      ensures input.mouseButtonsStates == old(input.mouseButtonsStates)[button := true]
      ensures input.GetMouseButtonDown(button)
      ensures input.keyboardButtonsStates == old(input.keyboardButtonsStates) && input.mousePosition == old(input.mousePosition)
    {
      input.SetMouseButton(button, true);
    }

    /** The mouseup handler: the button is up. */
    method OnMouseUp(button: int)
      modifies input
      ensures input.mouseButtonsStates == old(input.mouseButtonsStates)[button := false]
      ensures !input.GetMouseButtonDown(button)
      ensures input.keyboardButtonsStates == old(input.keyboardButtonsStates) && input.mousePosition == old(input.mousePosition)
    {
      input.SetMouseButton(button, false);
    }

    /** The first mousemove handler: the cursor position, in canvas pixels, goes into the input state. */
    method OnMouseMoveToInjectPosition(clientX: real, clientY: real, rectLeft: real, rectTop: real, rectWidth: real, rectHeight: real,
                                       canvasWidth: real, canvasHeight: real)
      requires rectWidth != 0.0 && rectHeight != 0.0
      modifies input
      ensures input.mousePosition == CanvasCursor(clientX, clientY, rectLeft, rectTop, rectWidth, rectHeight, canvasWidth, canvasHeight)
      ensures input.mouseButtonsStates == old(input.mouseButtonsStates)
      ensures input.keyboardButtonsStates == old(input.keyboardButtonsStates)
    {
      var scaleX := canvasWidth / rectWidth;
      var scaleY := canvasHeight / rectHeight;
      input.mousePosition := Vector2((clientX - rectLeft) * scaleX, (clientY - rectTop) * scaleY);
    }

    /** `checkIfGameObjectAlreadyHovered`: an entry with the object's name is listed. */
    method CheckIfGameObjectAlreadyHovered(gameObject: GameObject) returns (b: bool)
      ensures b <==> Listed(mouseOverGameObjects, gameObject.name)
    {
      b := FindListed(mouseOverGameObjects, gameObject.name);
    }

    /**
     * The second mousemove handler: in `getAll` order, objects not yet
     * hovered that the cursor is over hear `onMouseOver` and join the list.
     */
    method OnMouseMoveToCheckOver() returns (calls: seq<Call>)
      requires Valid()
      modifies this, gameObjectsManager
      ensures Valid()
      ensures SortedByLayer(gameObjectsManager.gameObjects)
      ensures multiset(gameObjectsManager.gameObjects) == multiset(old(gameObjectsManager.gameObjects))
      ensures gameObjectsManager.startQueue == old(gameObjectsManager.startQueue)
      ensures HoverOutcome(mouseOverGameObjects, calls)
        == HoverPass(camera.position, input.mousePosition, old(mouseOverGameObjects), gameObjectsManager.gameObjects)
      ensures mouseOverGameObjects ==
        old(mouseOverGameObjects) + Newcomers(camera.position, input.mousePosition, old(mouseOverGameObjects), gameObjectsManager.gameObjects)
      ensures forall g :: g in gameObjectsManager.gameObjects && PointInsideGameObject(camera.position, input.mousePosition, g).Some? ==>
        Listed(mouseOverGameObjects, g.name)
    {
      var mousePosition := input.GetMousePosition();
      var all := gameObjectsManager.GetAll();
      mouseOverGameObjects, calls := HoverLoop(camera.position, mousePosition, mouseOverGameObjects, all);
    }

    /** `removeGameObjectFromAlreadyHoveredList`: the name's entries are spliced out while the index advances. */
    method RemoveGameObjectFromAlreadyHoveredList(gameObject: GameObject)
      requires Valid()
      modifies this
      ensures Valid()
      ensures mouseOverGameObjects == SkipSplice(old(mouseOverGameObjects), SameName(gameObject.name))
    {
      SkipSpliceKeepsDistinctNames(mouseOverGameObjects, SameName(gameObject.name));
      mouseOverGameObjects := RemoveByName(mouseOverGameObjects, gameObject);
    }

    /**
     * `callMouseOutEventOnAllNotHoveredGameObjects`: listed objects the
     * cursor has left hear `onMouseOut` and leave the list, except that the
     * entry after each removed one is skipped in this pass.
     */
    method CallMouseOutEventOnAllNotHoveredGameObjects() returns (calls: seq<Call>)
      requires Valid()
      modifies this
      ensures Valid()
      ensures mouseOverGameObjects == SkipSplice(old(mouseOverGameObjects), NotUnderCursor(camera.position, input.mousePosition))
      ensures calls == OutCalls(old(mouseOverGameObjects), NotUnderCursor(camera.position, input.mousePosition))
    {
      var mousePosition := input.GetMousePosition();
      mouseOverGameObjects, calls := MouseOutPass(mouseOverGameObjects, NotUnderCursor(camera.position, mousePosition));
    }
  }
}
