/** `Mathf.lerp`, the scalar linear interpolation of the helpers. */
module Mathf {
  import Vectors

  function Lerp(a: real, b: real, fraction: real): real
  {
    (1.0 - fraction) * a + b * fraction
  }

  /** Interpolation starts at `a`, ends at `b`, stays put when both ends agree, and halfway is the mean. */
  lemma LerpProperties(a: real, b: real, t: real)
    ensures Lerp(a, b, 0.0) == a
    ensures Lerp(a, b, 1.0) == b
    ensures Lerp(a, a, t) == a
    ensures Lerp(a, b, 0.5) == (a + b) / 2.0
  {
  }

  /** The vector `lerp` computes the scalar `lerp` in each component. */
  lemma VectorLerpIsComponentwise(v1: Vectors.Vector2, v2: Vectors.Vector2, t: real)
    ensures Vectors.Lerp(v1, v2, t) == Vectors.Vector2(Lerp(v1.x, v2.x, t), Lerp(v1.y, v2.y, t))
  {
  }
}
