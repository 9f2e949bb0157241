/**
 * The engine's `CollisionChecker`: point-in-shape tests and pairwise shape
 * tests that return the contact point or nothing, and the dispatcher that
 * turns two game objects into screen-space shapes and reports a collision.
 *
 * Rectangles are given by their top-left corner and size, circles by their
 * centre and radius. A rect collider is centred on its object's position;
 * all shapes are shifted by the camera's render offset, and every contact
 * point reported for game objects is shifted back by the camera position.
 */
module Collisions {
  import opened Wrappers
  import opened Vectors
  import opened Objects
  import Points
  import Cameras

  function Max(a: real, b: real): real { if a >= b then a else b }

  function Min(a: real, b: real): real { if a <= b then a else b }

  /** `Math.max(lo, Math.min(c, hi))`: `c` moved into [lo, hi] when lo <= hi. */
  function Clamp(c: real, lo: real, hi: real): real
  {
    Max(lo, Min(c, hi))
  }

  function PointInsideRectangleCollision(px: real, py: real, rx: real, ry: real, w: real, h: real): (r: Option<Vector2>)
    ensures r.Some? <==> Points.PointInsideRectangle(px, py, rx, ry, w, h)
    ensures r.Some? ==> r.value == Vector2(px, py)
  {
    if rx <= px && px <= rx + w && ry <= py && py <= ry + h then Some(Vector2(px, py)) else None
  }

  function PointInsideCircleCollision(px: real, py: real, cx: real, cy: real, radius: real): (r: Option<Vector2>)
    ensures r.Some? <==> Points.PointInsideCircle(px, py, cx, cy, radius)
    ensures r.Some? ==> r.value == Vector2(px, py)
  {
    var distanceSquared := Square(px - cx) + Square(py - cy);
    if distanceSquared <= Square(radius) then Some(Vector2(px, py)) else None
  }

  /** The closed intervals [a, a + wa] and [b, b + wb] meet (for non-negative lengths). */
  predicate IntervalsOverlap(a: real, wa: real, b: real, wb: real)
  {
    b <= a + wa && a <= b + wb
  }

  /**
   * Two rectangles collide when their closed extents overlap on both axes;
   * the contact point is the centre of the intersection box, which lies in
   * both rectangles.
   */
  function RectangleRectangleCollision(x1: real, y1: real, w1: real, h1: real, x2: real, y2: real, w2: real, h2: real): (r: Option<Vector2>)
    ensures r.Some? <==> IntervalsOverlap(x1, w1, x2, w2) && IntervalsOverlap(y1, h1, y2, h2)
    ensures r.Some? && 0.0 <= w1 && 0.0 <= h1 ==> Points.PointInsideRectangle(r.value.x, r.value.y, x1, y1, w1, h1)
    ensures r.Some? && 0.0 <= w2 && 0.0 <= h2 ==> Points.PointInsideRectangle(r.value.x, r.value.y, x2, y2, w2, h2)
  {
    if x1 + w1 >= x2 && x1 <= x2 + w2 && y1 + h1 >= y2 && y1 <= y2 + h2 then
      var intersectionX1 := Max(x1, x2);
      var intersectionY1 := Max(y1, y2);
      var intersectionX2 := Min(x1 + w1, x2 + w2);
      var intersectionY2 := Min(y1 + h1, y2 + h2);
      Some(Vector2((intersectionX1 + intersectionX2) / 2.0, (intersectionY1 + intersectionY2) / 2.0))
    else
      None
  }

  /** Any point common to both closed rectangles witnesses a collision. */
  lemma RectangleRectangleCommonPoint(px: real, py: real, x1: real, y1: real, w1: real, h1: real, x2: real, y2: real, w2: real, h2: real)
    requires Points.PointInsideRectangle(px, py, x1, y1, w1, h1)
    requires Points.PointInsideRectangle(px, py, x2, y2, w2, h2)
    ensures RectangleRectangleCollision(x1, y1, w1, h1, x2, y2, w2, h2).Some?
  {
  }

  /** Swapping the rectangles gives the same answer and the same point. */
  lemma RectangleRectangleSymmetric(x1: real, y1: real, w1: real, h1: real, x2: real, y2: real, w2: real, h2: real)
    ensures RectangleRectangleCollision(x1, y1, w1, h1, x2, y2, w2, h2) == RectangleRectangleCollision(x2, y2, w2, h2, x1, y1, w1, h1)
  {
  }

  /**
   * The circle test divides by the centre distance whenever it does not
   * report a miss; concentric circles whose radii sum to a non-negative
   * number would divide by zero.
   */
  predicate CircleCircleDefined(x1: real, y1: real, r1: real, x2: real, y2: real, r2: real)
  {
    !(x1 == x2 && y1 == y2 && 0.0 <= r1 + r2)
  }

  /** `Math.sqrt(dx * dx + dy * dy)` with `dx = x2 - x1`, `dy = y2 - y1`. */
  function CentreDistance(sqrt: real -> real, x1: real, y1: real, x2: real, y2: real): (d: real)
    requires IsSqrt(sqrt)
    ensures 0.0 <= d && Square(d) == Points.SquaredDistance(x2, y2, x1, y1)
    ensures (x1 != x2 || y1 != y2) ==> 0.0 < d
  {
    if x1 != x2 || y1 != y2 then DistancePositive(sqrt, Vector2(x2, y2), Vector2(x1, y1)); Distance(sqrt, Vector2(x2, y2), Vector2(x1, y1))
    else Distance(sqrt, Vector2(x2, y2), Vector2(x1, y1))
  }

  /** The unit vector from the first centre towards the second: `(dx / distance, dy / distance)`. */
  function CentreDirection(sqrt: real -> real, x1: real, y1: real, x2: real, y2: real): (n: Vector2)
    requires IsSqrt(sqrt)
    requires x1 != x2 || y1 != y2
    ensures n.x * CentreDistance(sqrt, x1, y1, x2, y2) == x2 - x1
    ensures n.y * CentreDistance(sqrt, x1, y1, x2, y2) == y2 - y1
  {
    var distance := CentreDistance(sqrt, x1, y1, x2, y2);
    QuotientTimes(x2 - x1, distance);
    QuotientTimes(y2 - y1, distance);
    Vector2((x2 - x1) / distance, (y2 - y1) / distance)
  }

  lemma QuotientTimes(a: real, d: real)
    requires d != 0.0
    ensures (a / d) * d == a
  {
  }

  /** The miss test `distance > r1 + r2` compared on squares. */
  lemma CircleMissOnSquares(d: real, s: real, q: real)
    requires 0.0 <= d && Square(d) == q
    ensures d > s <==> s < 0.0 || Square(s) < q
  {
    if 0.0 <= s { SquareMonotonic(s, d); }
  }

  /** The midpoint of the centres moved by half the radius difference along `n`. */
  function ContactPoint(x1: real, y1: real, r1: real, x2: real, y2: real, r2: real, n: Vector2): Vector2
  {
    Vector2((x1 + x2) / 2.0 + n.x * (r1 - r2) / 2.0, (y1 + y2) / 2.0 + n.y * (r1 - r2) / 2.0)
  }

  /** The midpoint of the two surface points `c1 + n * r1` and `c2 - n * r2` is the contact point. */
  lemma MidpointIsContact(x1: real, y1: real, r1: real, x2: real, y2: real, r2: real, n: Vector2)
    ensures Vector2(((x1 + n.x * r1) + (x2 - n.x * r2)) / 2.0, ((y1 + n.y * r1) + (y2 - n.y * r2)) / 2.0)
         == ContactPoint(x1, y1, r1, x2, y2, r2, n)
  {
    var c := ContactPoint(x1, y1, r1, x2, y2, r2, n);
    HalfwayShift(x1, x2, n.x, r1, r2);
    HalfwayShift(y1, y2, n.y, r1, r2);
    assert c.x == ((x1 + n.x * r1) + (x2 - n.x * r2)) / 2.0;
    assert c.y == ((y1 + n.y * r1) + (y2 - n.y * r2)) / 2.0;
  }

  /** One coordinate of `MidpointIsContact`. */
  lemma HalfwayShift(c1: real, c2: real, d: real, r1: real, r2: real)
    ensures ((c1 + d * r1) + (c2 - d * r2)) / 2.0 == (c1 + c2) / 2.0 + d * (r1 - r2) / 2.0
  {
    var a, b := d * r1, d * r2;
    assert d * (r1 - r2) == a - b;
    assert ((c1 + a) + (c2 - b)) / 2.0 == (c1 + c2) / 2.0 + (a - b) / 2.0;
  }

  /**
   * Two circles miss exactly when the centre distance exceeds the sum of
   * the radii. Otherwise the contact point lies on the line through the
   * centres: the midpoint of the centres, moved by half the radius
   * difference along the direction from the first centre to the second.
   */
  function CircleCircleCollision(sqrt: real -> real, x1: real, y1: real, r1: real, x2: real, y2: real, r2: real): (r: Option<Vector2>)
    requires IsSqrt(sqrt)
    requires CircleCircleDefined(x1, y1, r1, x2, y2, r2)
    ensures r.None? <==> r1 + r2 < 0.0 || Square(r1 + r2) < Points.SquaredDistance(x1, y1, x2, y2)
    ensures r.Some? ==> x1 != x2 || y1 != y2
    ensures r.Some? ==> r.value == ContactPoint(x1, y1, r1, x2, y2, r2, CentreDirection(sqrt, x1, y1, x2, y2))
  {
    var distance := CentreDistance(sqrt, x1, y1, x2, y2);
    Points.SquaredDistanceSymmetric(x1, y1, x2, y2);
    CircleMissOnSquares(distance, r1 + r2, Points.SquaredDistance(x1, y1, x2, y2));
    if distance > r1 + r2 then
      None
    else
      var n := CentreDirection(sqrt, x1, y1, x2, y2);
      var p1 := Vector2(x1 + n.x * r1, y1 + n.y * r1);
      var p2 := Vector2(x2 - n.x * r2, y2 - n.y * r2);
      MidpointIsContact(x1, y1, r1, x2, y2, r2, n);
      Some(Vector2((p1.x + p2.x) / 2.0, (p1.y + p2.y) / 2.0))
  }

  /** Circles of equal radius touch at the midpoint of their centres. */
  lemma CircleCircleEqualRadii(sqrt: real -> real, x1: real, y1: real, x2: real, y2: real, radius: real)
    requires IsSqrt(sqrt)
    requires CircleCircleDefined(x1, y1, radius, x2, y2, radius)
    requires CircleCircleCollision(sqrt, x1, y1, radius, x2, y2, radius).Some?
    ensures CircleCircleCollision(sqrt, x1, y1, radius, x2, y2, radius).value == Vector2((x1 + x2) / 2.0, (y1 + y2) / 2.0)
  {
  }

  /** The contact formula gives the same point for a pair of circles seen from either side. */
  lemma MirroredContact(x1: real, y1: real, r1: real, x2: real, y2: real, r2: real, n: Vector2)
    ensures ContactPoint(x1, y1, r1, x2, y2, r2, n) == ContactPoint(x2, y2, r2, x1, y1, r1, Negative(n))
  {
    OppositeShift(n.x, r1, r2);
    OppositeShift(n.y, r1, r2);
    var m := ContactPoint(x2, y2, r2, x1, y1, r1, Negative(n));
    assert m.x == (x2 + x1) / 2.0 + (-n.x) * (r2 - r1) / 2.0;
    assert m.y == (y2 + y1) / 2.0 + (-n.y) * (r2 - r1) / 2.0;
  }

  lemma OppositeShift(a: real, r1: real, r2: real)
    ensures (-a) * (r2 - r1) / 2.0 == a * (r1 - r2) / 2.0
  {
    assert (-a) * (r2 - r1) == a * (r1 - r2);
  }

  /** Seen from the second centre, the direction towards the first is the opposite one. */
  lemma CentreDirectionMirrored(sqrt: real -> real, x1: real, y1: real, x2: real, y2: real)
    requires IsSqrt(sqrt)
    requires x1 != x2 || y1 != y2
    ensures CentreDirection(sqrt, x2, y2, x1, y1) == Negative(CentreDirection(sqrt, x1, y1, x2, y2))
  {
    DistanceSymmetric(sqrt, Vector2(x1, y1), Vector2(x2, y2));
    var d := CentreDistance(sqrt, x1, y1, x2, y2);
    assert d == CentreDistance(sqrt, x2, y2, x1, y1);
    var n := CentreDirection(sqrt, x1, y1, x2, y2);
    var m := CentreDirection(sqrt, x2, y2, x1, y1);
    OppositeFactors(m.x, n.x, d, x2 - x1);
    OppositeFactors(m.y, n.y, d, y2 - y1);
  }

  lemma CircleCircleSymmetricHit(sqrt: real -> real, x1: real, y1: real, r1: real, x2: real, y2: real, r2: real)
    requires IsSqrt(sqrt)
    requires CircleCircleDefined(x1, y1, r1, x2, y2, r2)
    ensures CircleCircleDefined(x2, y2, r2, x1, y1, r1)
    ensures CircleCircleCollision(sqrt, x1, y1, r1, x2, y2, r2).Some? == CircleCircleCollision(sqrt, x2, y2, r2, x1, y1, r1).Some?
  {
    Points.SquaredDistanceSymmetric(x1, y1, x2, y2);
  }

  /** Swapping the circles gives the same answer and the same point. */
  lemma CircleCircleSymmetric(sqrt: real -> real, x1: real, y1: real, r1: real, x2: real, y2: real, r2: real)
    requires IsSqrt(sqrt)
    requires CircleCircleDefined(x1, y1, r1, x2, y2, r2)
    ensures CircleCircleDefined(x2, y2, r2, x1, y1, r1)
    ensures CircleCircleCollision(sqrt, x1, y1, r1, x2, y2, r2) == CircleCircleCollision(sqrt, x2, y2, r2, x1, y1, r1)
  {
    CircleCircleSymmetricHit(sqrt, x1, y1, r1, x2, y2, r2);
    if CircleCircleCollision(sqrt, x1, y1, r1, x2, y2, r2).Some? {
      CentreDirectionMirrored(sqrt, x1, y1, x2, y2);
      MirroredContact(x1, y1, r1, x2, y2, r2, CentreDirection(sqrt, x1, y1, x2, y2));
    }
  }

  /**
   * A rectangle and a circle collide when the point of the rectangle
   * nearest the centre (the centre clamped into the rectangle) lies
   * strictly inside the circle; that point is the contact point. A circle
   * that only touches the rectangle is no collision.
   */
  function RectangleCircleCollision(cx: real, cy: real, radius: real, rx: real, ry: real, w: real, h: real): (r: Option<Vector2>)
    ensures r.Some? <==> Points.SquaredDistance(Clamp(cx, rx, rx + w), Clamp(cy, ry, ry + h), cx, cy) < Square(radius)
    ensures r.Some? ==> r.value == Vector2(Clamp(cx, rx, rx + w), Clamp(cy, ry, ry + h))
    ensures r.Some? ==> Points.SquaredDistance(r.value.x, r.value.y, cx, cy) < Square(radius)
    ensures r.Some? && 0.0 <= w && 0.0 <= h ==> Points.PointInsideRectangle(r.value.x, r.value.y, rx, ry, w, h)
  {
    var deltaX := cx - Max(rx, Min(cx, rx + w));
    var deltaY := cy - Max(ry, Min(cy, ry + h));
    if Square(deltaX) + Square(deltaY) < Square(radius) then Some(Vector2(cx - deltaX, cy - deltaY)) else None
  }

  /** Clamping `c` into [lo, hi] gives the point of the interval nearest to `c`. */
  lemma ClampIsNearest(c: real, lo: real, hi: real, q: real)
    requires lo <= q <= hi
    ensures Square(Clamp(c, lo, hi) - c) <= Square(q - c)
  {
    if c < lo {
      SquareMonotonic(lo - c, q - c);
    } else if c > hi {
      SquareMonotonic(c - hi, c - q);
      SquareOfNegative(hi - c);
      SquareOfNegative(q - c);
      assert c - hi == -(hi - c) && c - q == -(q - c);
    } else {
      assert Clamp(c, lo, hi) == c;
      SquareNonNegative(q - c);
    }
  }

  /**
   * For a rectangle of non-negative size, any of its points strictly inside
   * the circle witnesses a collision: the test misses only when the open
   * disc and the closed rectangle are disjoint.
   */
  lemma RectangleCircleCommonPoint(px: real, py: real, cx: real, cy: real, radius: real, rx: real, ry: real, w: real, h: real)
    requires Points.PointInsideRectangle(px, py, rx, ry, w, h)
    requires Points.SquaredDistance(px, py, cx, cy) < Square(radius)
    ensures RectangleCircleCollision(cx, cy, radius, rx, ry, w, h).Some?
  {
    ClampIsNearest(cx, rx, rx + w, px);
    ClampIsNearest(cy, ry, ry + h, py);
  }

  /** A circle resting against the right edge of a rectangle is not a collision. */
  lemma RectangleCircleTangentMisses(radius: real, rx: real, ry: real, w: real, h: real)
    requires 0.0 <= radius && 0.0 <= w && 0.0 <= h
    ensures RectangleCircleCollision(rx + w + radius, ry, radius, rx, ry, w, h).None?
  {
    assert Clamp(rx + w + radius, rx, rx + w) == rx + w;
  }

  /** A collider placed on the screen: a box by its top-left corner, or a disc by its centre. */
  datatype Shape = Box(topLeft: Vector2, size: Vector2) | Disc(centre: Vector2, radius: real)

  /**
   * The screen shape the checker builds from an object: a rect collider is
   * centred on the object's position, and both kinds are shifted by the
   * camera's render offset. Objects without a recognised collider have none.
   */
  function ScreenShape(cameraPosition: Vector2, g: GameObject): Option<Shape>
  {
    var offset := Cameras.OffsetForRenderer(cameraPosition, g);
    match g.collider
    case None => None
    case Some(RectCollider(size, _)) =>
      Some(Box(Vector2(g.position.x - size.x / 2.0 - offset.x, g.position.y - size.y / 2.0 - offset.y), size))
    case Some(CircleCollider(radius, _)) =>
      Some(Disc(Vector2(g.position.x - offset.x, g.position.y - offset.y), radius))
    case Some(OtherCollider) => None
  }

  predicate ShapeContains(s: Shape, p: Vector2)
  {
    match s
    case Box(c, size) => Points.PointInsideRectangle(p.x, p.y, c.x, c.y, size.x, size.y)
    case Disc(c, radius) => Points.PointInsideCircle(p.x, p.y, c.x, c.y, radius)
  }

  /** The only pairing the geometry cannot handle: two concentric discs. */
  predicate ShapePairDefined(s1: Shape, s2: Shape)
  {
    s1.Disc? && s2.Disc? ==> CircleCircleDefined(s1.centre.x, s1.centre.y, s1.radius, s2.centre.x, s2.centre.y, s2.radius)
  }

  /** The pairwise geometric test the dispatcher selects for two shapes; the disc is always the circle argument. */
  function ShapeContact(sqrt: real -> real, s1: Shape, s2: Shape): Option<Vector2>
    requires IsSqrt(sqrt)
    requires ShapePairDefined(s1, s2)
  {
    match (s1, s2)
    case (Box(a, sa), Box(b, sb)) => RectangleRectangleCollision(a.x, a.y, sa.x, sa.y, b.x, b.y, sb.x, sb.y)
    case (Disc(a, ra), Disc(b, rb)) => CircleCircleCollision(sqrt, a.x, a.y, ra, b.x, b.y, rb)
    case (Box(a, sa), Disc(b, rb)) => RectangleCircleCollision(b.x, b.y, rb, a.x, a.y, sa.x, sa.y)
    case (Disc(a, ra), Box(b, sb)) => RectangleCircleCollision(a.x, a.y, ra, b.x, b.y, sb.x, sb.y)
  }

  /** The geometric tests do not depend on the order of the two shapes. */
  lemma ShapeContactSymmetric(sqrt: real -> real, s1: Shape, s2: Shape)
    requires IsSqrt(sqrt)
    requires ShapePairDefined(s1, s2)
    ensures ShapePairDefined(s2, s1)
    ensures ShapeContact(sqrt, s1, s2) == ShapeContact(sqrt, s2, s1)
  {
    match (s1, s2)
    case (Box(a, sa), Box(b, sb)) =>
      RectangleRectangleSymmetric(a.x, a.y, sa.x, sa.y, b.x, b.y, sb.x, sb.y);
    case (Disc(a, ra), Disc(b, rb)) =>
      CircleCircleSymmetric(sqrt, a.x, a.y, ra, b.x, b.y, rb);
    case (Box(_, _), Disc(_, _)) =>
    case (Disc(_, _), Box(_, _)) =>
  }

  /** The dispatcher is defined for the pair: it returns early, or its shapes are a defined pairing. */
  predicate PairCheckable(cameraPosition: Vector2, g1: GameObject, g2: GameObject)
  {
    var s1 := ScreenShape(cameraPosition, g1);
    var s2 := ScreenShape(cameraPosition, g2);
    g1.name != g2.name && s1.Some? && s2.Some? ==> ShapePairDefined(s1.value, s2.value)
  }

  /**
   * `checkCollisionBetweenGameObjects`: an object never collides with one of
   * the same name, objects without a collider or with an unrecognised
   * collider never collide, and a collision names the FIRST object and
   * carries the geometric contact point shifted by the camera position.
   */
  function CheckCollisionBetweenGameObjects(sqrt: real -> real, cameraPosition: Vector2, g1: GameObject, g2: GameObject): (r: Option<Collision>)
    requires IsSqrt(sqrt)
    requires PairCheckable(cameraPosition, g1, g2)
    ensures g1.name == g2.name ==> r.None?
    ensures !HasCollider(g1) || !HasCollider(g2) ==> r.None?
    ensures g1.collider == Some(OtherCollider) || g2.collider == Some(OtherCollider) ==> r.None?
    ensures r.Some? ==> r.value.gameObject == g1
    ensures r.Some? <==> (g1.name != g2.name && ScreenShape(cameraPosition, g1).Some? && ScreenShape(cameraPosition, g2).Some?
      && ShapeContact(sqrt, ScreenShape(cameraPosition, g1).value, ScreenShape(cameraPosition, g2).value).Some?)
    ensures r.Some? ==> (r.value.point
      == Add(ShapeContact(sqrt, ScreenShape(cameraPosition, g1).value, ScreenShape(cameraPosition, g2).value).value, Vec(cameraPosition)))
  {
    if g1.name == g2.name then None
    else if g1.collider.None? || g2.collider.None? then None
    else
      var s1 := ScreenShape(cameraPosition, g1);
      var s2 := ScreenShape(cameraPosition, g2);
      if s1.Some? && s2.Some? then
        var point := ShapeContact(sqrt, s1.value, s2.value);
        if point.Some? then Some(Collision(g1, Add(point.value, Vec(cameraPosition)))) else None
      else
        // Unsupported collider types: a warning is logged and nothing is reported.
        None
  }

  /**
   * Collisions are symmetric: the checker reports (g1, g2) exactly when it
   * reports (g2, g1), at the same point, each time naming its first argument.
   */
  lemma CollisionSymmetric(sqrt: real -> real, cameraPosition: Vector2, g1: GameObject, g2: GameObject)
    requires IsSqrt(sqrt)
    requires PairCheckable(cameraPosition, g1, g2)
    ensures PairCheckable(cameraPosition, g2, g1)
    ensures CheckCollisionBetweenGameObjects(sqrt, cameraPosition, g1, g2).Some?
        <==> CheckCollisionBetweenGameObjects(sqrt, cameraPosition, g2, g1).Some?
    ensures CheckCollisionBetweenGameObjects(sqrt, cameraPosition, g1, g2).Some? ==>
      CheckCollisionBetweenGameObjects(sqrt, cameraPosition, g1, g2).value.point
        == CheckCollisionBetweenGameObjects(sqrt, cameraPosition, g2, g1).value.point
  {
    var s1 := ScreenShape(cameraPosition, g1);
    var s2 := ScreenShape(cameraPosition, g2);
    if g1.name != g2.name && s1.Some? && s2.Some? {
      ShapeContactSymmetric(sqrt, s1.value, s2.value);
    }
  }

  /**
   * `pointInsideGameObject`: a point hits an object when the object's screen
   * shape contains it (edges included); a hit returns the point shifted by
   * the camera position.
   */
  function PointInsideGameObject(cameraPosition: Vector2, p: Vector2, g: GameObject): (r: Option<Vector2>)
    ensures !HasCollider(g) ==> r.None?
    ensures r.Some? <==> ScreenShape(cameraPosition, g).Some? && ShapeContains(ScreenShape(cameraPosition, g).value, p)
    ensures r.Some? ==> r.value == Add(p, Vec(cameraPosition))
  {
    if g.collider.None? then None
    else
      var offset := Cameras.OffsetForRenderer(cameraPosition, g);
      var rectHit :=
        if g.collider.value.RectCollider? then
          var size := g.collider.value.size;
          PointInsideRectangleCollision(p.x, p.y, g.position.x - size.x / 2.0 - offset.x, g.position.y - size.y / 2.0 - offset.y, size.x, size.y)
        else None;
      if rectHit.Some? then Some(Add(rectHit.value, Vec(cameraPosition)))
      else
        var circleHit :=
          if g.collider.value.CircleCollider? then
            PointInsideCircleCollision(p.x, p.y, g.position.x - offset.x, g.position.y - offset.y, g.collider.value.radius)
          else None;
        if circleHit.Some? then Some(Add(circleHit.value, Vec(cameraPosition))) else None
  }
}
