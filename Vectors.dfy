/**
 * The engine's `Vector2` value: two-component arithmetic, the vector/scalar
 * overloads of `add`, `subtract`, `multiply` and `divide`, dot product,
 * linear interpolation, distance and rotation.
 *
 * Numbers are modelled as `real`; `Math.sqrt` is a parameter that must be a
 * square root (`IsSqrt`), and rotation receives the cosine and sine of the
 * angle instead of the angle in degrees.
 */
module Vectors {
  datatype Vector2 = Vector2(x: real, y: real)

  /** The right-hand argument of the overloaded arithmetic: a vector or a number. */
  datatype Operand = Vec(v: Vector2) | Scalar(k: real)

  /** `a * a`, named so that proofs about squares stay small. */
  function Square(a: real): real
  {
    a * a
  }

  /** `sqrt` returns the non-negative square root of every non-negative number (positive for a positive one). */
  ghost predicate IsSqrt(sqrt: real -> real)
  {
    forall s :: 0.0 <= s ==> 0.0 <= sqrt(s) && Square(sqrt(s)) == s && (0.0 < s ==> 0.0 < sqrt(s))
  }

  const Zero := Vector2(0.0, 0.0)

  /** A number broadcast to both components. */
  function Broadcast(k: real): Vector2
  {
    Vector2(k, k)
  }

  /** The vector an operand stands for: a vector as is, a number broadcast. */
  function AsVector(o: Operand): Vector2
  {
    match o
    case Vec(v) => v
    case Scalar(k) => Broadcast(k)
  }

  function Negative(v: Vector2): Vector2
  {
    Vector2(-v.x, -v.y)
  }

  function Add(v1: Vector2, v2: Operand): Vector2
  {
    match v2
    case Vec(w) => Vector2(v1.x + w.x, v1.y + w.y)
    case Scalar(k) => Vector2(v1.x + k, v1.y + k)
  }

  function Subtract(v1: Vector2, v2: Operand): Vector2
  {
    match v2
    case Vec(w) => Vector2(v1.x - w.x, v1.y - w.y)
    case Scalar(k) => Vector2(v1.x - k, v1.y - k)
  }

  function Multiply(v1: Vector2, v2: Operand): Vector2
  {
    match v2
    case Vec(w) => Vector2(v1.x * w.x, v1.y * w.y)
    case Scalar(k) => Vector2(v1.x * k, v1.y * k)
  }

  /** No divisor component may be zero: IEEE infinities are not modelled. */
  predicate NonZeroDivisor(v2: Operand)
  {
    match v2
    case Vec(w) => w.x != 0.0 && w.y != 0.0
    case Scalar(k) => k != 0.0
  }

  function Divide(v1: Vector2, v2: Operand): Vector2
    requires NonZeroDivisor(v2)
  {
    match v2
    case Vec(w) => Vector2(v1.x / w.x, v1.y / w.y)
    case Scalar(k) => Vector2(v1.x / k, v1.y / k)
  }

  function Dot(v1: Vector2, v2: Vector2): real
  {
    v1.x * v2.x + v1.y * v2.y
  }

  /** `lerp(v1, v2, t) = (v2 - v1) * t + v1`. */
  function Lerp(v1: Vector2, v2: Vector2, fraction: real): Vector2
  {
    Add(Multiply(Subtract(v2, Vec(v1)), Scalar(fraction)), Vec(v1))
  }

  /** Euclidean distance: the non-negative number whose square is the squared difference. */
  function Distance(sqrt: real -> real, v1: Vector2, v2: Vector2): (d: real)
    requires IsSqrt(sqrt)
    ensures 0.0 <= d
    ensures Square(d) == Square(v1.x - v2.x) + Square(v1.y - v2.y)
  {
    var xDiff := v1.x - v2.x;
    var yDiff := v1.y - v2.y;
    SquareNonNegative(xDiff);
    SquareNonNegative(yDiff);
    sqrt(Square(xDiff) + Square(yDiff))
  }

  /** The static `rotate`, given `cs = cos(theta)` and `sn = sin(theta)`. */
  function RotateBy(v: Vector2, cs: real, sn: real): Vector2
  {
    Vector2(v.x * cs - v.y * sn, v.x * sn + v.y * cs)
  }

  /** Every overload taking a number acts as the vector overload on the broadcast number. */
  lemma ScalarIsBroadcast(v: Vector2, k: real)
    ensures Add(v, Scalar(k)) == Add(v, Vec(Broadcast(k)))
    ensures Subtract(v, Scalar(k)) == Subtract(v, Vec(Broadcast(k)))
    ensures Multiply(v, Scalar(k)) == Multiply(v, Vec(Broadcast(k)))
    ensures k != 0.0 ==> Divide(v, Scalar(k)) == Divide(v, Vec(Broadcast(k)))
  {
  }

  /** Subtraction undoes addition, and adding the negative is subtracting. */
  lemma AddSubtractInverse(v: Vector2, w: Operand)
    ensures Subtract(Add(v, w), w) == v
    ensures Add(Subtract(v, w), w) == v
    ensures Add(v, Vec(Negative(AsVector(w)))) == Subtract(v, w)
  {
  }

  /** Division undoes multiplication by a divisor with no zero component. */
  lemma MultiplyDivideInverse(v: Vector2, w: Operand)
    requires NonZeroDivisor(w)
    ensures Divide(Multiply(v, w), w) == v
  {
    match w
    case Vec(u) =>
      assert v.x * u.x / u.x == v.x;
      assert v.y * u.y / u.y == v.y;
    case Scalar(k) =>
      assert v.x * k / k == v.x;
      assert v.y * k / k == v.y;
  }

  lemma DotSymmetric(v1: Vector2, v2: Vector2)
    ensures Dot(v1, v2) == Dot(v2, v1)
  {
  }

  /** The dot product of a vector with itself is its squared length, hence never negative. */
  lemma DotSelf(v: Vector2)
    ensures Dot(v, v) == v.x * v.x + v.y * v.y
    ensures 0.0 <= Dot(v, v)
  {
  }

  /** Interpolation starts at the first vector and ends at the second. */
  lemma LerpEndpoints(v1: Vector2, v2: Vector2)
    ensures Lerp(v1, v2, 0.0) == v1
    ensures Lerp(v1, v2, 1.0) == v2
  {
  }

  /** Squares of non-negative reals are ordered like the reals. */
  lemma SquareMonotonic(a: real, b: real)
    requires 0.0 <= a && 0.0 <= b
    ensures a < b <==> Square(a) < Square(b)
    ensures a == b <==> Square(a) == Square(b)
  {
    if a < b {
      MultiplyStrict(a, b);
    } else if b < a {
      MultiplyStrict(b, a);
    }
  }

  lemma MultiplyStrict(a: real, b: real)
    requires 0.0 <= a < b
    ensures Square(a) < Square(b)
  {
    ProductStrict(a, b);
  }

  lemma ProductStrict(a: real, b: real)
    requires 0.0 <= a < b
    ensures a * a < b * b
  {
    assert a * (b - a) >= 0.0;
    assert b * (b - a) > 0.0;
  }

  lemma SquareOfNegative(a: real)
    ensures Square(-a) == Square(a)
  {
  }

  lemma SquarePositive(a: real)
    requires a != 0.0
    ensures 0.0 < Square(a)
  {
    if 0.0 < a {
      MultiplyStrict(0.0, a);
    } else {
      MultiplyStrict(0.0, -a);
      SquareOfNegative(a);
    }
  }

  lemma SquareNonNegative(a: real)
    ensures 0.0 <= Square(a)
  {
    if a != 0.0 { SquarePositive(a); }
  }

  lemma ProductZero(a: real, b: real)
    requires a * b == 0.0 && b != 0.0
    ensures a == 0.0
  {
    assert a == (a * b) / b;
  }

  /** Two numbers that scale `d` to opposite values are opposite. */
  lemma OppositeFactors(m: real, n: real, d: real, delta: real)
    requires d != 0.0 && n * d == delta && m * d == -delta
    ensures m == -n
  {
    assert (m + n) * d == 0.0;
    ProductZero(m + n, d);
  }

  /** Distinct vectors are a positive distance apart. */
  lemma DistancePositive(sqrt: real -> real, v1: Vector2, v2: Vector2)
    requires IsSqrt(sqrt)
    requires v1 != v2
    ensures 0.0 < Distance(sqrt, v1, v2)
  {
    SquareNonNegative(v1.x - v2.x);
    SquareNonNegative(v1.y - v2.y);
    if v1.x != v2.x { SquarePositive(v1.x - v2.x); } else { SquarePositive(v1.y - v2.y); }
  }

  /** Distance does not depend on the order of its arguments, and a vector is at distance 0 from itself. */
  lemma DistanceSymmetric(sqrt: real -> real, v1: Vector2, v2: Vector2)
    requires IsSqrt(sqrt)
    ensures Distance(sqrt, v1, v2) == Distance(sqrt, v2, v1)
    ensures Distance(sqrt, v1, v1) == 0.0
  {
    SquareOfNegative(v1.x - v2.x);
    SquareOfNegative(v1.y - v2.y);
    assert v2.x - v1.x == -(v1.x - v2.x) && v2.y - v1.y == -(v1.y - v2.y);
    SquareMonotonic(Distance(sqrt, v1, v2), Distance(sqrt, v2, v1));
    SquareMonotonic(Distance(sqrt, v1, v1), 0.0);
  }

  /** A rotation by an angle whose cosine and sine satisfy cs² + sn² = 1 keeps the squared length. */
  lemma RotatePreservesLength(v: Vector2, cs: real, sn: real)
    requires cs * cs + sn * sn == 1.0
    ensures Dot(RotateBy(v, cs, sn), RotateBy(v, cs, sn)) == Dot(v, v)
  {
    var r := RotateBy(v, cs, sn);
    calc {
      Dot(r, r);
      (v.x * cs - v.y * sn) * (v.x * cs - v.y * sn) + (v.x * sn + v.y * cs) * (v.x * sn + v.y * cs);
      v.x * v.x * (cs * cs + sn * sn) + v.y * v.y * (cs * cs + sn * sn);
      v.x * v.x + v.y * v.y;
    }
  }

  /** Rotating by angle 0 (cos 1, sin 0) changes nothing. */
  lemma RotateByZero(v: Vector2)
    ensures RotateBy(v, 1.0, 0.0) == v
  {
  }

  /**
   * A `Vector2` object, for the one instance method that updates the
   * receiver in place: `rotate` overwrites `x` and `y` and returns the
   * receiver itself.
   */
  class Vector2Object {
    var x: real
    var y: real

    function Value(): Vector2
      reads this
    {
      Vector2(x, y)
    }

    constructor (x0: real, y0: real)
      ensures Value() == Vector2(x0, y0)
    {
      x, y := x0, y0;
    }

    method Rotate(cs: real, sn: real) returns (self: Vector2Object)
      modifies this
      ensures self == this
      ensures Value() == RotateBy(old(Value()), cs, sn)
    {
      var resulting := RotateBy(Value(), cs, sn);
      x := resulting.x;
      y := resulting.y;
      self := this;
    }
  }
}
