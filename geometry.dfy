/** Unity's Vector3 and Mathf helpers used by the locomotion code, with float
    components read as reals (rounding is not modelled). */
module Geometry {

  /** A Vector3. */
  datatype Vec3 = Vec3(x: real, y: real, z: real)

  const Zero: Vec3 := Vec3(0.0, 0.0, 0.0)

  /** Vector3.up */
  const Up: Vec3 := Vec3(0.0, 1.0, 0.0)

  function Add(a: Vec3, b: Vec3): Vec3 {
    Vec3(a.x + b.x, a.y + b.y, a.z + b.z)
  }

  function Sub(a: Vec3, b: Vec3): Vec3 {
    Vec3(a.x - b.x, a.y - b.y, a.z - b.z)
  }

  function Scale(v: Vec3, k: real): Vec3 {
    Vec3(v.x * k, v.y * k, v.z * k)
  }

  /** Vector3.SqrMagnitude */
  function SqrMagnitude(v: Vec3): (r: real)
    ensures r >= 0.0
  {
    Sq(v.x) + Sq(v.y) + Sq(v.z)
  }

  function Sq(r: real): (s: real)
    ensures s >= 0.0
  {
    r * r
  }

  /** Mathf.Abs */
  function Abs(r: real): (a: real)
    ensures a >= 0.0 && (a == r || a == -r)
  {
    if r < 0.0 then -r else r
  }

  /** Mathf.Clamp01 */
  function Clamp01(t: real): (c: real)
    ensures 0.0 <= c <= 1.0
    ensures 0.0 <= t <= 1.0 ==> c == t
  {
    if t < 0.0 then 0.0 else if t > 1.0 then 1.0 else t
  }

  /** Mathf.Lerp: interpolation from a to b whose factor is clamped to [0, 1]. */
  function LerpScalar(a: real, b: real, t: real): real {
    a + (b - a) * Clamp01(t)
  }

  /** Mathf.Lerp never leaves the segment between its end points, starts at a
      for a factor of 0 or less and reaches b for a factor of 1 or more. */
  lemma LerpScalarWithin(a: real, b: real, t: real)
    ensures a <= b ==> a <= LerpScalar(a, b, t) <= b
    ensures b <= a ==> b <= LerpScalar(a, b, t) <= a
    ensures t <= 0.0 ==> LerpScalar(a, b, t) == a
    ensures t >= 1.0 ==> LerpScalar(a, b, t) == b
  {
    StepWithinSegment(a, b, Clamp01(t));
  }

  /** A step of a fraction c in [0, 1] of the way from a to b stays between a and b. */
  lemma StepWithinSegment(a: real, b: real, c: real)
    requires 0.0 <= c <= 1.0
    ensures a <= b ==> a <= a + (b - a) * c <= b
    ensures b <= a ==> b <= a + (b - a) * c <= a
  {
    if a <= b {
      StepUpWithinSegment(a, b, c);
    } else {
      StepUpWithinSegment(b, a, 1.0 - c);
      assert a + (b - a) * c == b + (a - b) * (1.0 - c);
    }
  }

  lemma StepUpWithinSegment(a: real, b: real, c: real)
    requires 0.0 <= c <= 1.0 && a <= b
    ensures a <= a + (b - a) * c <= b
  {
    var p := (b - a) * c;
    FractionBounded(b - a, c);
    assert 0.0 <= p <= b - a;
  }

  /** A fraction c in [0, 1] of a non-negative amount e lies between 0 and e. */
  lemma FractionBounded(e: real, c: real)
    requires e >= 0.0 && 0.0 <= c <= 1.0
    ensures 0.0 <= e * c <= e
  {
    assert e * (1.0 - c) >= 0.0;
    assert e * (1.0 - c) == e - e * c;
  }

  /** Vector3.Lerp: Mathf.Lerp on each component with the same factor. */
  function Lerp(a: Vec3, b: Vec3, t: real): Vec3 {
    Vec3(LerpScalar(a.x, b.x, t), LerpScalar(a.y, b.y, t), LerpScalar(a.z, b.z, t))
  }

  /** Vector3.Lerp with a factor of 1 or more returns its end point. */
  lemma LerpFullFactor(a: Vec3, b: Vec3, t: real)
    requires t >= 1.0
    ensures Lerp(a, b, t) == b
  {
    LerpScalarWithin(a.x, b.x, t);
    LerpScalarWithin(a.y, b.y, t);
    LerpScalarWithin(a.z, b.z, t);
  }

  /** One component of a clamped lerp ends no farther from its target than it started. */
  lemma LerpComponentCloser(a: real, b: real, t: real)
    ensures Sq(LerpScalar(a, b, t) - b) <= Sq(a - b)
  {
    var k := 1.0 - Clamp01(t);
    var e := LerpScalar(a, b, t) - b;
    var d := a - b;
    assert e == d * k;
    ShrunkSquare(d, k);
  }

  /** Shrinking a value by a factor in [0, 1] does not increase its square. */
  lemma ShrunkSquare(d: real, k: real)
    requires 0.0 <= k <= 1.0
    ensures Sq(d * k) <= Sq(d)
  {
    var s := d * d;
    var q := k * k;
    FractionBounded(k, k);
    assert (d * k) * (d * k) == s * q;
    FractionBounded(s, q);
  }

  /** One component of a clamped lerp keeps exactly the fraction 1 - Clamp01(t)
      of its distance to the target. */
  lemma LerpComponentFactor(a: real, b: real, t: real)
    ensures Sq(LerpScalar(a, b, t) - b) == Sq(1.0 - Clamp01(t)) * Sq(a - b)
  {
    var k := 1.0 - Clamp01(t);
    assert LerpScalar(a, b, t) - b == (a - b) * k;
    assert ((a - b) * k) * ((a - b) * k) == (k * k) * ((a - b) * (a - b));
  }

  /** Vector3.Lerp toward a target scales the squared distance to it by exactly
      (1 - Clamp01(t))^2. */
  lemma LerpDistanceFactor(a: Vec3, b: Vec3, t: real)
    ensures SqrMagnitude(Sub(Lerp(a, b, t), b)) == Sq(1.0 - Clamp01(t)) * SqrMagnitude(Sub(a, b))
  {
    LerpComponentFactor(a.x, b.x, t);
    LerpComponentFactor(a.y, b.y, t);
    LerpComponentFactor(a.z, b.z, t);
  }

  /** Scaling a non-negative amount by the square of a factor in [0, 1] does not
      increase it, and strictly decreases a positive amount when the factor is
      below 1. */
  lemma SquaredFactorShrinks(d: real, k: real)
    requires d >= 0.0 && 0.0 <= k <= 1.0
    ensures Sq(k) * d <= d
    ensures d > 0.0 && k < 1.0 ==> Sq(k) * d < d
  {
    FractionBounded(k, k);
    FractionBounded(d, k * k);
    if d > 0.0 && k < 1.0 {
      assert k * k <= k;
      assert d - (k * k) * d == d * (1.0 - k * k);
    }
  }

  /** A positive factor clamps to a positive fraction. */
  lemma Clamp01Positive(t: real)
    requires t > 0.0
    ensures 0.0 < Clamp01(t)
  {
  }

  /** A positive amount scaled by the lerp factor (1 - Clamp01(t))^2 of a
      positive t gets strictly smaller. */
  lemma LerpFactorShrinks(e: real, d: real, t: real)
    requires t > 0.0 && d > 0.0 && e == Sq(1.0 - Clamp01(t)) * d
    ensures e < d
  {
    Clamp01Positive(t);
    FactorBelowOne(e, d, 1.0 - Clamp01(t));
  }

  /** An amount scaled by the square of a factor in [0, 1) is below a positive original. */
  lemma FactorBelowOne(e: real, d: real, k: real)
    requires d > 0.0 && 0.0 <= k < 1.0 && e == Sq(k) * d
    ensures e < d
  {
    SquaredFactorShrinks(d, k);
  }

  /** Vector3.Lerp toward a target never increases the squared distance to it:
      repeated steps toward a fixed target converge monotonically. */
  lemma LerpNeverMovesAway(a: Vec3, b: Vec3, t: real)
    ensures SqrMagnitude(Sub(Lerp(a, b, t), b)) <= SqrMagnitude(Sub(a, b))
  {
    LerpComponentCloser(a.x, b.x, t);
    LerpComponentCloser(a.y, b.y, t);
    LerpComponentCloser(a.z, b.z, t);
  }
}
