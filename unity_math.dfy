/** The few pieces of Unity's vector and `Mathf` arithmetic that the modelled
    scripts rely on, with floats modelled as exact reals. */
module UnityMath {

  /** `Vector2`: a 2-D input axis or grid-independent pair of floats. */
  datatype Vec2 = Vec2(x: real, y: real)

  /** `Vector3`: a world-space position or velocity. */
  datatype Vec3 = Vec3(x: real, y: real, z: real)

  const Zero3: Vec3 := Vec3(0.0, 0.0, 0.0)

  function Add(a: Vec3, b: Vec3): (r: Vec3)
    ensures r.x - a.x == b.x && r.y - a.y == b.y && r.z - a.z == b.z
  {
    Vec3(a.x + b.x, a.y + b.y, a.z + b.z)
  }

  function Abs(r: real): (a: real)
    ensures a >= 0.0 && (a == r || a == -r)
  {
    if r < 0.0 then -r else r
  }

  function Min(a: real, b: real): (m: real)
    ensures m <= a && m <= b && (m == a || m == b)
  {
    if a <= b then a else b
  }

  function Max(a: real, b: real): (m: real)
    ensures m >= a && m >= b && (m == a || m == b)
  {
    if a >= b then a else b
  }

  /** `Mathf.Sign`: 1 for zero and positive values, -1 for negative ones. */
  function Sign(f: real): (s: real)
    ensures s == 1.0 || s == -1.0
    ensures f > 0.0 ==> s == 1.0
    ensures f < 0.0 ==> s == -1.0
  {
    if f >= 0.0 then 1.0 else -1.0
  }

  /** `float.Epsilon`, the smallest positive single-precision value, 2^-149
      (printed by C# as 1.401298E-45). */
  const FloatEpsilon: real :=
    0.00000000000000000000000000000000000000000000140129846432481707092372958328991613128026194187651577175706828388979108268586060148663818836212158203125

  /** The absolute tolerance of `Mathf.Approximately`, 8 * `float.Epsilon`. */
  const ApproximatelyTolerance: real := 8.0 * FloatEpsilon

  /** `Mathf.Approximately(x, 0f)`, as Unity computes it:
      |0 - x| < max(1e-6 * max(|x|, |0|), 8 * Epsilon). For x != 0 the
      relative term is below |x|, so only the absolute tolerance decides. */
  predicate ApproximatelyZero(x: real)
    ensures ApproximatelyZero(x) <==> Abs(x) < ApproximatelyTolerance
    ensures ApproximatelyZero(x) <==> -ApproximatelyTolerance < x < ApproximatelyTolerance
    ensures x == 0.0 ==> ApproximatelyZero(x)
  {
    Abs(0.0 - x) < Max(0.000001 * Max(Abs(x), Abs(0.0)), ApproximatelyTolerance)
  }

  /** A product of two non-negative factors is non-negative; `cond` lets a
      caller state the sign of `a` only under a side condition. */
  lemma NonNegativeProduct(a: real, b: real, cond: bool)
    requires cond ==> a >= 0.0
    ensures cond && b >= 0.0 ==> a * b >= 0.0
  {
  }

  /** A factor in [-1, 1] scales `m` to at most `m` in magnitude. */
  lemma ScaledInputBounded(x: real, m: real)
    requires -1.0 <= x <= 1.0 && m >= 0.0
    ensures Abs(x * m) <= m
  {
    NonNegativeProduct(1.0 - x, m, true);
    NonNegativeProduct(x + 1.0, m, true);
    NonNegativeProduct(x, m, x >= 0.0);
    NonNegativeProduct(-x, m, x < 0.0);
  }

  /** Is `v` on the closed segment between `a` and `b` (in either order)? */
  predicate Between(v: real, a: real, b: real) {
    Min(a, b) <= v <= Max(a, b)
  }

  /** `Mathf.MoveTowards(current, target, maxDelta)`: reach the target when it
      is within `maxDelta`, otherwise step `maxDelta` towards it. Unity writes
      the step as `current + Sign(target - current) * maxDelta`; since `Sign`
      is 1 or -1 the two cases are written out. */
  function MoveTowards(current: real, target: real, maxDelta: real): (r: real)
    ensures Abs(target - current) <= maxDelta ==> r == target
  {
    if Abs(target - current) <= maxDelta then target
    else if Sign(target - current) == 1.0 then current + maxDelta
    else current - maxDelta
  }

  /** What `MoveTowards` promises: with a non-negative step it lands between
      the start and the target, moves by at most `maxDelta`, reaches the
      target exactly when it is within reach, and otherwise moves by exactly
      `maxDelta`. */
  lemma MoveTowardsSpec(current: real, target: real, maxDelta: real)
    ensures var r := MoveTowards(current, target, maxDelta);
      && (maxDelta >= 0.0 ==> Between(r, current, target))
      && (maxDelta >= 0.0 ==> -maxDelta <= r - current <= maxDelta)
      && (Abs(target - current) <= maxDelta <==> r == target)
      && (r != target ==> (r - current == maxDelta || current - r == maxDelta))
  {
  }
}
