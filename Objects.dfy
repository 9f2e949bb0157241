/**
 * Game objects as the engine's managers, listeners and collision code see
 * them: a name (the identity every lookup compares), a rendering layer, a
 * position, an optional collider and the camera flag.
 *
 * The older engine generation stores the inverse flag `unaffectedByCamera`;
 * here it is always `!affectedByCamera`. Collider offsets exist only on the
 * older collider classes and are read only by the older listeners.
 *
 * The callbacks a game object exposes (`start`, `update`, `onCollision`,
 * the mouse and window hooks) are overridden by games; the model records
 * each invocation as a `Call` in a trace instead of running it.
 */
module Objects {
  import opened Wrappers
  import opened Vectors

  datatype Collider =
    | RectCollider(size: Vector2, offset: Vector2)
    | CircleCollider(radius: real, offset: Vector2)
      /** A collider object of a class the `instanceof` tests do not recognise. */
    | OtherCollider

  datatype GameObject = GameObject(
    name: string,
    renderingLayer: real,
    position: Vector2,
    collider: Option<Collider>,
    affectedByCamera: bool)

  /** What `onCollision` receives: the other object and the contact point. */
  datatype Collision = Collision(gameObject: GameObject, point: Vector2)

  /** One invocation of a game-object callback, in the order the engine makes them. */
  datatype Call =
    | Start(target: GameObject)
    | Update(target: GameObject)
    | OnCollision(target: GameObject, collision: Collision)
      /** The older listeners call `onMouseClick()` and `onMouseOver()` without a point. */
    | OnMouseClick(target: GameObject, at: Option<Vector2>)
    | OnMouseOver(target: GameObject, at: Option<Vector2>)
    | OnMouseOut(target: GameObject)
    | OnWindowResized(target: GameObject)
    | OnWindowFocusGain(target: GameObject)
    | OnWindowFocusLoose(target: GameObject)

  predicate HasCollider(g: GameObject)
  {
    g.collider.Some?
  }

  /** No two entries of `s` share a name. */
  predicate DistinctNames(s: seq<GameObject>)
  {
    forall i, j :: 0 <= i < j < |s| ==> s[i].name != s[j].name
  }
}
