/**
 * The `ScalingManager` of the current engine: the factor between the
 * reference (virtual) resolution a game is designed for and the window it
 * runs in, and the conversions between virtual and screen coordinates.
 *
 * The window size `updateScale` reads is a parameter. A zero component of
 * the reference resolution, or of the scale when dividing by it, would give
 * an IEEE infinity; the model requires them to be nonzero.
 */
module Scaling {
  import opened Vectors
  import Collisions

  /** `a * k` divided by the ratio `a / b` is `b * k`, and `b * k` times the ratio is `a * k`. */
  lemma RatioCancel(a: real, b: real, k: real)
    requires a != 0.0 && b != 0.0
    ensures (a * k) / (a / b) == b * k
    ensures (b * k) * (a / b) == a * k
  {
    assert (b * k) * (a / b) == (a * k) * (b / b);
    assert (b * k) * (a / b) == a * k;
    assert (a * k) == (b * k) * (a / b);
  }

  /** The box is scaled by `k`, so its aspect ratio is kept. */
  lemma ScaledKeepsAspect(size: Vector2, k: real)
    ensures Multiply(size, Scalar(k)).x * size.y == Multiply(size, Scalar(k)).y * size.x
  {
    assert (size.x * k) * size.y == (size.y * k) * size.x;
  }

  /**
   * The candidates of `boxSizeVirtualToScreen` for `size` and `scale`: the
   * aspect ratio, the width-scaled box (`widthW` by `heightW`) and the
   * height-scaled box (`widthH` by `heightH`).
   */
  predicate Candidates(size: Vector2, scale: Vector2, ratio: real, widthW: real, heightW: real, widthH: real, heightH: real)
    requires size.y != 0.0
  {
    ratio == size.x / size.y && widthW == size.x * scale.x && ratio != 0.0 && heightW == widthW / ratio &&
    heightH == size.y * scale.y && widthH == heightH * ratio
  }

  /**
   * When `boxSizeVirtualToScreen` takes the width-scaled candidate, that
   * candidate is the box scaled by `scale.x`, and for a positive box
   * `scale.x` is the smaller component.
   */
  lemma WidthBasedBox(size: Vector2, scale: Vector2, ratio: real, widthW: real, heightW: real, widthH: real, heightH: real)
    requires size.x != 0.0 && size.y != 0.0
    requires Candidates(size, scale, ratio, widthW, heightW, widthH, heightH)
    requires widthW <= widthH && heightW <= heightH
    ensures Vector2(widthW, heightW) == Multiply(size, Scalar(scale.x))
    ensures 0.0 < size.x && 0.0 < size.y ==> Collisions.Min(scale.x, scale.y) == scale.x
  {
    RatioCancel(size.x, size.y, scale.x);
    RatioCancel(size.x, size.y, scale.y);
    ScaleOrder(size.x, scale.x, scale.y);
  }

  /**
   * When `boxSizeVirtualToScreen` takes the height-scaled candidate, that
   * candidate is the box scaled by `scale.y`, and for a positive box
   * `scale.y` is the smaller component.
   */
  lemma HeightBasedBox(size: Vector2, scale: Vector2, ratio: real, widthW: real, heightW: real, widthH: real, heightH: real)
    requires size.x != 0.0 && size.y != 0.0
    requires Candidates(size, scale, ratio, widthW, heightW, widthH, heightH)
    requires !(widthW <= widthH && heightW <= heightH)
    ensures Vector2(widthH, heightH) == Multiply(size, Scalar(scale.y))
    ensures 0.0 < size.x && 0.0 < size.y ==> Collisions.Min(scale.x, scale.y) == scale.y
  {
    RatioCancel(size.x, size.y, scale.x);
    RatioCancel(size.x, size.y, scale.y);
    ScaleOrder(size.x, scale.x, scale.y);
    ScaleOrder(size.y, scale.x, scale.y);
  }

  /** A box of zero width scaled by `k` is the column of height `size.y * k`. */
  lemma ZeroWidthBox(size: Vector2, k: real)
    requires size.x == 0.0
    ensures Vector2(0.0, size.y * k) == Multiply(size, Scalar(k))
    ensures 0.0 * size.y == (size.y * k) * size.x
  {
  }

  lemma RatioNonzero(a: real, b: real)
    requires a != 0.0 && b != 0.0
    ensures a / b != 0.0
  {
  }

  /** Multiplying by a positive number keeps the order. */
  lemma ScaleOrder(a: real, s: real, t: real)
    ensures 0.0 < a ==> (a * s <= a * t <==> s <= t)
  {
    if a <= 0.0 {
    } else if s <= t {
      assert a * (t - s) >= 0.0;
    } else {
      assert a * (s - t) > 0.0;
    }
  }

  class ScalingManager {
    var referenceResolution: Vector2
    var currentResolution: Vector2
    var scale: Vector2

    /** The reference resolution has no zero component, so `updateScale` divides safely. */
    predicate Valid()
      reads this
    {
      referenceResolution.x != 0.0 && referenceResolution.y != 0.0
    }

    /** The constructor stores the reference resolution and computes the scale for the current window. */
    constructor (reference: Vector2, innerWidth: real, innerHeight: real)
      requires reference.x != 0.0 && reference.y != 0.0
      ensures Valid() && referenceResolution == reference
      ensures currentResolution == Vector2(innerWidth, innerHeight)
      ensures Multiply(scale, Vec(referenceResolution)) == currentResolution
    {
      referenceResolution := reference;
      currentResolution := Vector2(innerWidth, innerHeight);
      scale := Vector2(innerWidth / reference.x, innerHeight / reference.y);
    }

    /**
     * `updateScale`: records the window size and sets the scale to the
     * window size over the reference resolution, component by component,
     * so that scale times reference gives the window back.
     */
    method UpdateScale(innerWidth: real, innerHeight: real)
      requires Valid()
      modifies this
      ensures Valid() && referenceResolution == old(referenceResolution)
      ensures currentResolution == Vector2(innerWidth, innerHeight)
      ensures scale == Vector2(innerWidth / referenceResolution.x, innerHeight / referenceResolution.y)
      ensures Multiply(scale, Vec(referenceResolution)) == currentResolution
    {
      currentResolution := Vector2(innerWidth, innerHeight);
      scale := Vector2(currentResolution.x / referenceResolution.x, currentResolution.y / referenceResolution.y);
    }

    function GetScale(): (s: Vector2)
      reads this
      ensures s == scale
    {
      scale
    }

    /** A virtual position is stretched component-wise by the scale. */
    function VirtualToScreen(position: Vector2): (r: Vector2)
      reads this
      ensures r == Multiply(position, Vec(scale))
    {
      Vector2(position.x * scale.x, position.y * scale.y)
    }

    /** A screen position is the scaled image of the virtual position returned. */
    function ScreenToVirtual(position: Vector2): (r: Vector2)
      reads this
      requires scale.x != 0.0 && scale.y != 0.0
      ensures Multiply(r, Vec(scale)) == position
    {
      var r := Vector2(position.x / scale.x, position.y / scale.y);
      assert r.x * scale.x == position.x;
      assert r.y * scale.y == position.y;
      r
    }

    /**
     * `boxSizeVirtualToScreen`: scales a box by one of the two scale
     * components, so that its aspect ratio is kept. For a positive box the
     * width-based candidate is taken exactly when `scale.x <= scale.y`, so
     * the box is scaled by the smaller component and fits both axes.
     */
    function BoxSizeVirtualToScreen(size: Vector2): (r: Vector2)
      reads this
      requires size.y != 0.0
      ensures r == Multiply(size, Scalar(scale.x)) || r == Multiply(size, Scalar(scale.y))
      ensures size.x == 0.0 ==> r == Multiply(size, Scalar(scale.y))
      ensures r.x * size.y == r.y * size.x
      ensures 0.0 < size.x && 0.0 < size.y ==> r == Multiply(size, Scalar(Collisions.Min(scale.x, scale.y)))
    {
      // A zero width makes the width-based height 0 / 0, which is NaN; the
      // width-based test then fails and the height-based box is taken.
      if size.x == 0.0 then ZeroWidthBox(size, scale.y); Vector2(0.0, size.y * scale.y) else
      var aspectRatio := size.x / size.y;
      RatioNonzero(size.x, size.y);
      var scaledWidthBasedOnWidth := size.x * scale.x;
      var scaledHeightBasedOnWidth := scaledWidthBasedOnWidth / aspectRatio;
      var scaledHeightBasedOnHeight := size.y * scale.y;
      var scaledWidthBasedOnHeight := scaledHeightBasedOnHeight * aspectRatio;
      assert Candidates(size, scale, aspectRatio, scaledWidthBasedOnWidth, scaledHeightBasedOnWidth,
                        scaledWidthBasedOnHeight, scaledHeightBasedOnHeight);
      if scaledWidthBasedOnWidth <= scaledWidthBasedOnHeight && scaledHeightBasedOnWidth <= size.y * scale.y then
        WidthBasedBox(size, scale, aspectRatio, scaledWidthBasedOnWidth, scaledHeightBasedOnWidth,
                      scaledWidthBasedOnHeight, scaledHeightBasedOnHeight);
        ScaledKeepsAspect(size, scale.x);
        Vector2(scaledWidthBasedOnWidth, scaledHeightBasedOnWidth)
      else
        HeightBasedBox(size, scale, aspectRatio, scaledWidthBasedOnWidth, scaledHeightBasedOnWidth,
                       scaledWidthBasedOnHeight, scaledHeightBasedOnHeight);
        ScaledKeepsAspect(size, scale.y);
        Vector2(scaledWidthBasedOnHeight, scaledHeightBasedOnHeight)
    }

    /** `circleRadiusVirtualToScreen`: a radius is scaled by the smaller scale component. */
    function CircleRadiusVirtualToScreen(radius: real): (r: real)
      reads this
      ensures r == radius * Collisions.Min(scale.x, scale.y)
    {
      var s := Collisions.Min(scale.x, scale.y);
      radius * s
    }
  }

  /** Converting to the screen and back, or back and then to the screen, is the identity for a nonzero scale. */
  lemma ScreenVirtualRoundTrip(m: ScalingManager, p: Vector2)
    requires m.scale.x != 0.0 && m.scale.y != 0.0
    ensures m.ScreenToVirtual(m.VirtualToScreen(p)) == p
    ensures m.VirtualToScreen(m.ScreenToVirtual(p)) == p
  {
    var q := m.ScreenToVirtual(m.VirtualToScreen(p));
    ProductZero(q.x - p.x, m.scale.x);
    ProductZero(q.y - p.y, m.scale.y);
  }

  /** A positive box and a circle whose radius is the box width are scaled by the same factor. */
  lemma BoxAndCircleAgree(m: ScalingManager, size: Vector2)
    requires 0.0 < size.x && 0.0 < size.y
    ensures m.BoxSizeVirtualToScreen(size).x == m.CircleRadiusVirtualToScreen(size.x)
    ensures m.BoxSizeVirtualToScreen(size).y == m.CircleRadiusVirtualToScreen(size.y)
  {
  }
}
