/**
 * `Core`: the engine object that owns the managers, starts the two loops
 * once a scene has loaded, and runs one frame of the game loop and one
 * pass of the fixed (collision) loop.
 *
 * The browser is reduced to parameters: whether the canvas yields a 2D
 * context, the frame timestamp `requestAnimationFrame` passes, and
 * `document.hidden`. `Time.deltaTime` and `Time.timestamp` are fields of
 * the core. Game-object callbacks are recorded as a trace of `Call`s, the
 * end-of-frame mouse-out pass of the mouse listeners included.
 * Rescheduling the loops and the renderer's drawing queue are not modelled
 * here.
 */
module Engine {
  import opened Wrappers
  import opened Vectors
  import opened Objects
  import opened Splicing
  import opened Collisions
  import opened GameObjects
  import Events
  import Cameras
  import Input
  import Hovering
  import Mouse

  datatype CanvasContextException = CanvasContextException(message: string)

  /** The filter of the fixed loop: objects whose collider is set. */
  function WithCollider(): GameObject -> bool
  {
    (g: GameObject) => HasCollider(g)
  }

  /**
   * The `onCollision` calls the inner loop of the fixed pass makes for the
   * first object `g1`, over the second objects `targets` in order.
   */
  function HitsOn(sqrt: real -> real, cameraPosition: Vector2, g1: GameObject, targets: seq<GameObject>): seq<Call>
    requires IsSqrt(sqrt)
    requires forall g2 :: g2 in targets ==> PairCheckable(cameraPosition, g1, g2)
  {
    if |targets| == 0 then []
    else
      var last := targets[|targets| - 1];
      var c := CheckCollisionBetweenGameObjects(sqrt, cameraPosition, g1, last);
      HitsOn(sqrt, cameraPosition, g1, targets[..|targets| - 1]) + (if c.Some? then [OnCollision(last, c.value)] else [])
  }

  /** The calls of the whole pass: every first object in `firsts`, each against all of `all`. */
  function PassCalls(sqrt: real -> real, cameraPosition: Vector2, firsts: seq<GameObject>, all: seq<GameObject>): seq<Call>
    requires IsSqrt(sqrt)
    requires forall g1, g2 :: g1 in firsts && g2 in all ==> PairCheckable(cameraPosition, g1, g2)
  {
    if |firsts| == 0 then []
    else
      PassCalls(sqrt, cameraPosition, firsts[..|firsts| - 1], all) + HitsOn(sqrt, cameraPosition, firsts[|firsts| - 1], all)
  }

  /** `g2` hears `onCollision(c)` for the ordered pair (g1, g2): the checker reports `c` for it. */
  predicate Reports(sqrt: real -> real, cameraPosition: Vector2, g1: GameObject, g2: GameObject, c: Call)
    requires IsSqrt(sqrt)
    requires PairCheckable(cameraPosition, g1, g2)
  {
    var r := CheckCollisionBetweenGameObjects(sqrt, cameraPosition, g1, g2);
    r.Some? && c == OnCollision(g2, r.value)
  }

  lemma {:induction false} HitsOnMembership(sqrt: real -> real, cameraPosition: Vector2, g1: GameObject, targets: seq<GameObject>, c: Call)
    requires IsSqrt(sqrt)
    requires forall g2 :: g2 in targets ==> PairCheckable(cameraPosition, g1, g2)
    ensures c in HitsOn(sqrt, cameraPosition, g1, targets) <==>
      exists j :: 0 <= j < |targets| && Reports(sqrt, cameraPosition, g1, targets[j], c)
    decreases |targets|
  {
    if |targets| > 0 {
      var n := |targets| - 1;
      var front := targets[..n];
      HitsOnMembership(sqrt, cameraPosition, g1, front, c);
      if exists j :: 0 <= j < |targets| && Reports(sqrt, cameraPosition, g1, targets[j], c) {
        var j :| 0 <= j < |targets| && Reports(sqrt, cameraPosition, g1, targets[j], c);
        if j < n {
          assert front[j] == targets[j];
        }
      }
      if exists j :: 0 <= j < n && Reports(sqrt, cameraPosition, g1, front[j], c) {
        var j :| 0 <= j < n && Reports(sqrt, cameraPosition, g1, front[j], c);
        assert targets[j] == front[j];
      }
    }
  }

  /** A call of the pass is a call of the inner loop for one of the first objects. */
  lemma {:induction false} PassMembershipByFirst(sqrt: real -> real, cameraPosition: Vector2, firsts: seq<GameObject>, all: seq<GameObject>, c: Call)
    requires IsSqrt(sqrt)
    requires forall g1, g2 :: g1 in firsts && g2 in all ==> PairCheckable(cameraPosition, g1, g2)
    ensures c in PassCalls(sqrt, cameraPosition, firsts, all) <==>
      exists g1 :: g1 in firsts && c in HitsOn(sqrt, cameraPosition, g1, all)
    decreases |firsts|
  {
    if |firsts| > 0 {
      var n := |firsts| - 1;
      var front := firsts[..n];
      assert forall g :: g in firsts <==> g in front || g == firsts[n];
      PassMembershipByFirst(sqrt, cameraPosition, front, all, c);
      assert PassCalls(sqrt, cameraPosition, firsts, all) ==
        PassCalls(sqrt, cameraPosition, front, all) + HitsOn(sqrt, cameraPosition, firsts[n], all);
      if exists g1 :: g1 in firsts && c in HitsOn(sqrt, cameraPosition, g1, all) {
        var g1 :| g1 in firsts && c in HitsOn(sqrt, cameraPosition, g1, all);
        if g1 != firsts[n] {
          assert g1 in front;
        }
      }
    }
  }

  /**
   * A call of the pass is exactly an `onCollision` on the second object of
   * an ordered pair (first from `firsts`, second from `all`) that the
   * checker reports.
   */
  lemma PassMembership(sqrt: real -> real, cameraPosition: Vector2, firsts: seq<GameObject>, all: seq<GameObject>, c: Call)
    requires IsSqrt(sqrt)
    requires forall g1, g2 :: g1 in firsts && g2 in all ==> PairCheckable(cameraPosition, g1, g2)
    ensures c in PassCalls(sqrt, cameraPosition, firsts, all) <==>
      exists i, j :: 0 <= i < |firsts| && 0 <= j < |all| && Reports(sqrt, cameraPosition, firsts[i], all[j], c)
  {
    PassMembershipByFirst(sqrt, cameraPosition, firsts, all, c);
    if c in PassCalls(sqrt, cameraPosition, firsts, all) {
      var g1 :| g1 in firsts && c in HitsOn(sqrt, cameraPosition, g1, all);
      var i :| 0 <= i < |firsts| && firsts[i] == g1;
      HitsOnMembership(sqrt, cameraPosition, firsts[i], all, c);
    }
    if exists i, j :: 0 <= i < |firsts| && 0 <= j < |all| && Reports(sqrt, cameraPosition, firsts[i], all[j], c) {
      var i, j :| 0 <= i < |firsts| && 0 <= j < |all| && Reports(sqrt, cameraPosition, firsts[i], all[j], c);
      HitsOnMembership(sqrt, cameraPosition, firsts[i], all, c);
    }
  }

  /**
   * Every call of the pass is an `onCollision` on one object whose
   * collision names another object of a different name, both with a
   * collider; so the pair (g, g) is checked but never reported.
   */
  lemma PassCallsAreCollisions(sqrt: real -> real, cameraPosition: Vector2, objects: seq<GameObject>, c: Call)
    requires IsSqrt(sqrt)
    requires forall g1, g2 :: g1 in objects && g2 in objects ==> PairCheckable(cameraPosition, g1, g2)
    requires c in PassCalls(sqrt, cameraPosition, objects, objects)
    ensures c.OnCollision? && c.target in objects && c.collision.gameObject in objects
    ensures c.target.name != c.collision.gameObject.name
    ensures HasCollider(c.target) && HasCollider(c.collision.gameObject)
  {
    PassMembership(sqrt, cameraPosition, objects, objects, c);
  }

  /**
   * Each colliding pair is told twice, once on each side: when g2 hears of
   * g1 at a point, g1 hears of g2 at the same point.
   */
  lemma PassIsSymmetric(sqrt: real -> real, cameraPosition: Vector2, objects: seq<GameObject>, g1: GameObject, g2: GameObject, p: Vector2)
    requires IsSqrt(sqrt)
    requires forall a, b :: a in objects && b in objects ==> PairCheckable(cameraPosition, a, b)
    requires OnCollision(g2, Collision(g1, p)) in PassCalls(sqrt, cameraPosition, objects, objects)
    ensures OnCollision(g1, Collision(g2, p)) in PassCalls(sqrt, cameraPosition, objects, objects)
  {
    PassMembership(sqrt, cameraPosition, objects, objects, OnCollision(g2, Collision(g1, p)));
    var i, j :| 0 <= i < |objects| && 0 <= j < |objects| && Reports(sqrt, cameraPosition, objects[i], objects[j], OnCollision(g2, Collision(g1, p)));
    CollisionSymmetric(sqrt, cameraPosition, objects[i], objects[j]);
    assert Reports(sqrt, cameraPosition, objects[j], objects[i], OnCollision(g1, Collision(g2, p)));
    PassMembership(sqrt, cameraPosition, objects, objects, OnCollision(g1, Collision(g2, p)));
  }

  /** The inner loop of the fixed pass: `g1` checked against every object in turn. */
  method CheckAgainstAll(sqrt: real -> real, cameraPosition: Vector2, g1: GameObject, objects: seq<GameObject>)
    returns (calls: seq<Call>)
    requires IsSqrt(sqrt)
    requires forall g2 :: g2 in objects ==> PairCheckable(cameraPosition, g1, g2)
    ensures calls == HitsOn(sqrt, cameraPosition, g1, objects)
  {
    calls := [];
    var j := 0;
    while j < |objects|
      invariant 0 <= j <= |objects|
      invariant calls == HitsOn(sqrt, cameraPosition, g1, objects[..j])
    {
      var g2 := objects[j];
      var collision := CheckCollisionBetweenGameObjects(sqrt, cameraPosition, g1, g2);
      assert objects[..j + 1][..j] == objects[..j];
      if collision.Some? {
        calls := calls + [OnCollision(g2, collision.value)];
      }
      j := j + 1;
    }
    assert objects[..j] == objects;
  }

  /** The nested loops of the fixed pass: every ordered pair, first objects in order. */
  method OrderedPairPass(sqrt: real -> real, cameraPosition: Vector2, objects: seq<GameObject>) returns (calls: seq<Call>)
    requires IsSqrt(sqrt)
    requires forall g1, g2 :: g1 in objects && g2 in objects ==> PairCheckable(cameraPosition, g1, g2)
    ensures calls == PassCalls(sqrt, cameraPosition, objects, objects)
  {
    calls := [];
    var i := 0;
    while i < |objects|
      invariant 0 <= i <= |objects|
      invariant calls == PassCalls(sqrt, cameraPosition, objects[..i], objects)
    {
      var hits := CheckAgainstAll(sqrt, cameraPosition, objects[i], objects);
      assert objects[..i + 1][..i] == objects[..i];
      calls := calls + hits;
      i := i + 1;
    }
    assert objects[..i] == objects;
  }

  /** The `start` calls for the queued objects, in queue order. */
  function StartCalls(queue: seq<GameObject>): (r: seq<Call>)
    ensures |r| == |queue| && forall i :: 0 <= i < |r| ==> r[i] == Start(queue[i])
  {
    seq(|queue|, i requires 0 <= i < |queue| => Start(queue[i]))
  }

  /** The `update` calls for the objects, in list order. */
  function UpdateCalls(objects: seq<GameObject>): (r: seq<Call>)
    ensures |r| == |objects| && forall i :: 0 <= i < |r| ==> r[i] == Update(objects[i])
  {
    seq(|objects|, i requires 0 <= i < |objects| => Update(objects[i]))
  }

  /**
   * The update loop of a frame: every object in order gets `update`, unless
   * the page is hidden, in which case every iteration is skipped.
   */
  method UpdateLoop(all: seq<GameObject>, documentHidden: bool) returns (updates: seq<Call>)
    ensures updates == if documentHidden then [] else UpdateCalls(all)
  {
    updates := [];
    var i := 0;
    while i < |all|
      invariant 0 <= i <= |all|
      invariant |updates| == (if documentHidden then 0 else i)
      invariant forall k :: 0 <= k < |updates| ==> updates[k] == Update(all[k])
    {
      if !documentHidden {
        updates := updates + [Update(all[i])];
      }
      i := i + 1;
    }
  }

  class Core {
    const gameObjectsManager: GameObjectsManager
    const camera: Cameras.Camera
    const input: Input.InputState
    /** The listeners whose mouse-out pass ends every frame. */
    const listeners: Mouse.MouseListeners
    /** `options.collisions.enabled`. */
    const collisionsEnabled: bool
    var currentTimestamp: real
    var gameLoopStarted: bool
    var fixedLoopStarted: bool
    /** `Time.deltaTime`, in seconds. */
    var deltaTime: real
    /** `Time.timestamp`, in milliseconds. */
    var timestamp: real

    constructor (collisionsEnabled: bool)
      ensures this.collisionsEnabled == collisionsEnabled
      ensures fresh(gameObjectsManager) && fresh(camera) && fresh(input) && fresh(listeners)
      ensures gameObjectsManager.gameObjects == [] && gameObjectsManager.startQueue == []
      ensures listeners.Valid() && listeners.mouseOverGameObjects == []
      ensures listeners.gameObjectsManager == gameObjectsManager && listeners.input == input && listeners.camera == camera
      ensures currentTimestamp == 0.0 && deltaTime == 0.0 && timestamp == 0.0
      ensures !gameLoopStarted && !fixedLoopStarted
    {
      var eventManager := new Events.EventManager();
      var objects := new GameObjectsManager(eventManager);
      var view := new Cameras.Camera();
      var state := new Input.InputState();
      gameObjectsManager, camera, input := objects, view, state;
      listeners := new Mouse.MouseListeners(objects, state, view);
      this.collisionsEnabled := collisionsEnabled;
      currentTimestamp, deltaTime, timestamp := 0.0, 0.0, 0.0;
      gameLoopStarted, fixedLoopStarted := false, false;
    }

    /** The constructor's context check: without a 2D context it throws `CanvasContextException`. */
    static method Create(has2DContext: bool, collisionsEnabled: bool) returns (r: Result<Core, CanvasContextException>)
      ensures r.Failure? <==> !has2DContext
      ensures r.Success? ==> (fresh(r.value) && r.value.collisionsEnabled == collisionsEnabled &&
        !r.value.gameLoopStarted && !r.value.fixedLoopStarted && r.value.currentTimestamp == 0.0 &&
        r.value.listeners.Valid() && r.value.listeners.mouseOverGameObjects == [])
    {
      if !has2DContext {
        return Failure(CanvasContextException("Canvas 2D context could not be retrieved!"));
      }
      var core := new Core(collisionsEnabled);
      return Success(core);
    }

    /**
     * The continuation of `loadSceneAndRun` once the scene has loaded: each
     * loop is started only when it has not been started before, so however
     * often scenes load, each loop starts at most once.
     */
    method OnSceneLoaded() returns (startsGameLoop: bool, startsFixedLoop: bool)
      modifies this
      ensures gameLoopStarted && fixedLoopStarted
      ensures startsGameLoop == !old(gameLoopStarted) && startsFixedLoop == !old(fixedLoopStarted)
      ensures currentTimestamp == old(currentTimestamp) && deltaTime == old(deltaTime) && timestamp == old(timestamp)
    {
      startsGameLoop, startsFixedLoop := false, false;
      if !gameLoopStarted {
        gameLoopStarted := true;
        startsGameLoop := true;
      }
      if !fixedLoopStarted {
        fixedLoopStarted := true;
        startsFixedLoop := true;
      }
    }

    /**
     * One frame of `gameLoop`: the time step is set from the previous
     * frame's timestamp, the queued objects are started, and then, unless
     * the document is hidden, every object is updated in `getAll` order;
     * the timestamp is kept for the next frame.
     */
    method GameLoopFrame(frameTimestamp: real, documentHidden: bool) returns (calls: seq<Call>)
      requires listeners.Valid()
      modifies this, gameObjectsManager, listeners
      ensures deltaTime == (frameTimestamp - old(currentTimestamp)) / 1000.0
      ensures timestamp == frameTimestamp && currentTimestamp == frameTimestamp
      ensures gameLoopStarted == old(gameLoopStarted) && fixedLoopStarted == old(fixedLoopStarted)
      ensures gameObjectsManager.startQueue == []
      ensures SortedByLayer(gameObjectsManager.gameObjects)
      ensures multiset(gameObjectsManager.gameObjects) == multiset(old(gameObjectsManager.gameObjects))
      ensures listeners.Valid()
      ensures var out := Mouse.NotUnderCursor(listeners.camera.position, listeners.input.mousePosition);
        calls == StartCalls(old(gameObjectsManager.startQueue)) +
                 (if documentHidden then [] else UpdateCalls(gameObjectsManager.gameObjects)) +
                 Hovering.OutCalls(old(listeners.mouseOverGameObjects), out) &&
        listeners.mouseOverGameObjects == SkipSplice(old(listeners.mouseOverGameObjects), out)
    {
      deltaTime := (frameTimestamp - currentTimestamp) / 1000.0;
      timestamp := frameTimestamp;
      var starts := gameObjectsManager.CallStartMethodOfInstantiatedGameObjects();
      // The first `getAll` feeds the renderer's drawing queue.
      var drawn := gameObjectsManager.GetAll();
      var all := gameObjectsManager.GetAll();
      var updates := UpdateLoop(all, documentHidden);
      assert starts == StartCalls(old(gameObjectsManager.startQueue));
      var outs := listeners.CallMouseOutEventOnAllNotHoveredGameObjects();
      calls := starts + updates + outs;
      currentTimestamp := frameTimestamp;
    }

    /**
     * One pass of `fixedLoop`. With collisions disabled it does nothing.
     * Otherwise the registry is sorted by `getAll`, the objects with a
     * collider are kept, and every ordered pair of them, an object with
     * itself included, is checked; on a hit the second object's
     * `onCollision` receives the collision, which names the first.
     */
    method FixedLoopPass(sqrt: real -> real) returns (calls: seq<Call>)
      requires IsSqrt(sqrt)
      requires forall g1, g2 :: g1 in gameObjectsManager.gameObjects && g2 in gameObjectsManager.gameObjects ==>
        PairCheckable(camera.position, g1, g2)
      modifies gameObjectsManager
      ensures !collisionsEnabled ==> calls == [] && gameObjectsManager.gameObjects == old(gameObjectsManager.gameObjects)
      ensures gameObjectsManager.startQueue == old(gameObjectsManager.startQueue)
      ensures SortedByLayer(gameObjectsManager.gameObjects) || !collisionsEnabled
      ensures multiset(gameObjectsManager.gameObjects) == multiset(old(gameObjectsManager.gameObjects))
      ensures forall g1, g2 :: g1 in gameObjectsManager.gameObjects && g2 in gameObjectsManager.gameObjects ==>
        PairCheckable(camera.position, g1, g2)
      ensures collisionsEnabled ==>
        var colliding := Filter(gameObjectsManager.gameObjects, WithCollider());
        calls == PassCalls(sqrt, camera.position, colliding, colliding)
    {
      if !collisionsEnabled {
        return [];
      }
      ghost var before := gameObjectsManager.gameObjects;
      var all := gameObjectsManager.GetAll();
      assert forall g :: g in all ==> g in multiset(before);
      var colliding := Filter(all, WithCollider());
      calls := OrderedPairPass(sqrt, camera.position, colliding);
    }
  }
}
