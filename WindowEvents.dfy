/**
 * `WindowListeners`: the canvas scale chosen on a resize (letterbox or
 * pillarbox), the initial sizing of the canvas, and the broadcast of the
 * resize, focus and blur events to every game object.
 *
 * The window's inner size is a parameter, the canvas is reduced to the
 * fields the listeners write (its width, height and the scale put into its
 * CSS transform), and the objects are those `getAll()` returns.
 */
module WindowEvents {
  import opened Vectors
  import opened Objects
  import Collisions

  /** For positive denominators, comparing two quotients is comparing the cross products. */
  lemma QuotientOrder(a: real, b: real, c: real, d: real)
    requires 0.0 < b && 0.0 < d
    ensures a / b < c / d <==> a * d < c * b
  {
    var p := a / b;
    var q := c / d;
    assert p * b == a && q * d == c;
    assert a * d == p * (b * d) && c * b == q * (b * d);
    assert 0.0 < b * d;
    if p < q {
      assert (q - p) * (b * d) > 0.0;
    } else {
      assert (p - q) * (b * d) >= 0.0;
    }
  }

  /**
   * `resizeCanvas`: a window narrower than the reference aspect ratio is
   * scaled by its width, any other by its height. For positive sizes that
   * is the smaller of the two factors, so the whole reference area fits.
   */
  function ResizeScale(innerWidth: real, innerHeight: real, resolution: Vector2): (scale: real)
    requires innerHeight != 0.0 && resolution.x != 0.0 && resolution.y != 0.0
    ensures scale == innerWidth / resolution.x || scale == innerHeight / resolution.y
    ensures 0.0 < innerWidth && 0.0 < innerHeight && 0.0 < resolution.x && 0.0 < resolution.y ==>
      scale == Collisions.Min(innerWidth / resolution.x, innerHeight / resolution.y)
  {
    var windowRatio := innerWidth / innerHeight;
    var baseRatio := resolution.x / resolution.y;
    if 0.0 < innerWidth && 0.0 < innerHeight && 0.0 < resolution.x && 0.0 < resolution.y then
      QuotientOrder(innerWidth, innerHeight, resolution.x, resolution.y);
      QuotientOrder(innerWidth, resolution.x, innerHeight, resolution.y);
      if windowRatio < baseRatio then innerWidth / resolution.x else innerHeight / resolution.y
    else
      if windowRatio < baseRatio then innerWidth / resolution.x else innerHeight / resolution.y
  }

  /** The window events that are passed on to every game object. */
  datatype WindowEvent = Resized | FocusGain | FocusLoose

  /** The callback a window event invokes on one object. */
  function WindowCall(e: WindowEvent, g: GameObject): (c: Call)
    ensures c.target == g
  {
    match e
    case Resized => OnWindowResized(g)
    case FocusGain => OnWindowFocusGain(g)
    case FocusLoose => OnWindowFocusLoose(g)
  }

  /** The fields of the canvas element the listeners write. */
  class Canvas {
    var width: real
    var height: real
    /** The factor in the canvas's `scale(…)` CSS transform. */
    var transformScale: real

    constructor (width0: real, height0: real)
      ensures width == width0 && height == height0 && transformScale == 1.0
    {
      width, height, transformScale := width0, height0, 1.0;
    }
  }

  /** `resizeCanvas`: only the transform scale of the canvas changes. */
  method ResizeCanvas(canvas: Canvas, resolution: Vector2, innerWidth: real, innerHeight: real)
    requires innerHeight != 0.0 && resolution.x != 0.0 && resolution.y != 0.0
    modifies canvas
    ensures canvas.transformScale == ResizeScale(innerWidth, innerHeight, resolution)
    ensures canvas.width == old(canvas.width) && canvas.height == old(canvas.height)
  {
    canvas.transformScale := ResizeScale(innerWidth, innerHeight, resolution);
  }

  /** `initializeCanvasResizing`: the canvas gets the reference resolution, then the scale for the window. */
  method InitializeCanvasResizing(canvas: Canvas, resolution: Vector2, innerWidth: real, innerHeight: real)
    requires innerHeight != 0.0 && resolution.x != 0.0 && resolution.y != 0.0
    modifies canvas
    ensures canvas.width == resolution.x && canvas.height == resolution.y
    ensures canvas.transformScale == ResizeScale(innerWidth, innerHeight, resolution)
  {
    canvas.width := resolution.x;
    canvas.height := resolution.y;
    ResizeCanvas(canvas, resolution, innerWidth, innerHeight);
  }

  /** The loop shared by the three handlers: one callback per object, in the order given. */
  method Broadcast(e: WindowEvent, objects: seq<GameObject>) returns (calls: seq<Call>)
    ensures |calls| == |objects|
    ensures forall i :: 0 <= i < |objects| ==> calls[i] == WindowCall(e, objects[i])
  {
    calls := [];
    var i := 0;
    while i < |objects|
      invariant 0 <= i <= |objects|
      invariant |calls| == i
      invariant forall k :: 0 <= k < i ==> calls[k] == WindowCall(e, objects[k])
    {
      calls := calls + [WindowCall(e, objects[i])];
      i := i + 1;
    }
  }

  /** The resize handler: the canvas is rescaled first, then every object hears `onWindowResized`. */
  method OnResize(canvas: Canvas, resolution: Vector2, innerWidth: real, innerHeight: real, objects: seq<GameObject>)
    returns (calls: seq<Call>)
    requires innerHeight != 0.0 && resolution.x != 0.0 && resolution.y != 0.0
    modifies canvas
    ensures canvas.transformScale == ResizeScale(innerWidth, innerHeight, resolution)
    ensures canvas.width == old(canvas.width) && canvas.height == old(canvas.height)
    ensures |calls| == |objects|
    ensures forall i :: 0 <= i < |objects| ==> calls[i] == OnWindowResized(objects[i])
  {
    ResizeCanvas(canvas, resolution, innerWidth, innerHeight);
    calls := Broadcast(Resized, objects);
  }
}
