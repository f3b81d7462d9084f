/**
  The slice of three.js and of JavaScript's Math that the race core relies on.

  Vectors are values over `real`; floating-point rounding is not modelled.
  The trigonometric functions, the square root and the track curve are
  library code whose definitions are not part of this model: they are given
  as function-valued fields of the datatypes `Trig` and `Curve`, and what the
  core needs of them is stated as predicates (`SinBounded`, `Pythagorean`).
 */
module Geometry {

  datatype Vec3 = Vec3(x: real, y: real, z: real)

  const Origin: Vec3 := Vec3(0.0, 0.0, 0.0)

  function Add(a: Vec3, b: Vec3): Vec3 {
    Vec3(a.x + b.x, a.y + b.y, a.z + b.z)
  }

  function Sub(a: Vec3, b: Vec3): Vec3 {
    Vec3(a.x - b.x, a.y - b.y, a.z - b.z)
  }

  function Scale(v: Vec3, s: real): Vec3 {
    Vec3(v.x * s, v.y * s, v.z * s)
  }

  /** Squared Euclidean length. */
  function Norm2(v: Vec3): (r: real)
    ensures r >= 0.0
  {
    v.x * v.x + v.y * v.y + v.z * v.z
  }

  /**
    `p.lerp(t, alpha)` of three.js: every coordinate moves the fraction
    `alpha` of the way from `p` towards `t`. `lerpVectors(a, b, alpha)` is the
    same formula with `a` in place of `p`. `LerpGap` states what is left of
    the way.
   */
  function Lerp(p: Vec3, t: Vec3, alpha: real): (r: Vec3)
    ensures alpha == 0.0 ==> r == p
    ensures alpha == 1.0 ==> r == t
    ensures p == t ==> r == p
  {
    Vec3(p.x + (t.x - p.x) * alpha, p.y + (t.y - p.y) * alpha, p.z + (t.z - p.z) * alpha)
  }

  /** One step leaves the old gap scaled by `1 - alpha`: none of it for 1, all of it for 0. */
  lemma LerpGap(p: Vec3, t: Vec3, alpha: real)
    ensures Sub(t, Lerp(p, t, alpha)) == Scale(Sub(t, p), 1.0 - alpha)
    ensures alpha == 0.0 ==> Lerp(p, t, alpha) == p
    ensures alpha == 1.0 ==> Lerp(p, t, alpha) == t
  {
    assert t.x - (p.x + (t.x - p.x) * alpha) == (t.x - p.x) * (1.0 - alpha);
    assert t.y - (p.y + (t.y - p.y) * alpha) == (t.y - p.y) * (1.0 - alpha);
    assert t.z - (p.z + (t.z - p.z) * alpha) == (t.z - p.z) * (1.0 - alpha);
  }

  /** JavaScript's `Math.sin`, `Math.cos`, `Math.atan2` and `Math.sqrt`. */
  datatype Trig = Trig(sin: real -> real, cos: real -> real, atan2: (real, real) -> real, sqrt: real -> real)

  ghost predicate SinBounded(trig: Trig) {
    forall t :: -1.0 <= trig.sin(t) <= 1.0
  }

  ghost predicate Pythagorean(trig: Trig) {
    forall t :: trig.sin(t) * trig.sin(t) + trig.cos(t) * trig.cos(t) == 1.0
  }

  /** `v.length()`. */
  function Length(v: Vec3, trig: Trig): real {
    trig.sqrt(Norm2(v))
  }

  /** `v.normalize()`: divides by the length, or by 1 when the length is 0. */
  function Normalize(v: Vec3, trig: Trig): (r: Vec3)
    ensures Length(v, trig) == 0.0 ==> r == v
    ensures Length(v, trig) != 0.0 ==> Scale(r, Length(v, trig)) == v
  {
    var len := Length(v, trig);
    var divisor := if len == 0.0 then 1.0 else len;
    Scale(v, 1.0 / divisor)
  }

  /**
    A closed `CatmullRomCurve3`: `pointAt` is `getPointAt` (a point at a
    fraction of the arc length) and `length` is `getLength()`.
   */
  datatype Curve = Curve(pointAt: real -> Vec3, length: real)

  predicate ValidCurve(curve: Curve) {
    curve.length > 0.0
  }

  function Pow(b: real, n: nat): real {
    if n == 0 then 1.0 else b * Pow(b, n - 1)
  }

  /** The point reached after `n` successive `Lerp` steps towards a fixed target. */
  function LerpIter(p: Vec3, t: Vec3, alpha: real, n: nat): Vec3 {
    if n == 0 then p else Lerp(LerpIter(p, t, alpha, n - 1), t, alpha)
  }

  lemma ScaleByPow(v: Vec3, b: real, m: nat)
    ensures Scale(Scale(v, Pow(b, m)), b) == Scale(v, Pow(b, m + 1))
  {
    var k := Pow(b, m);
    assert Pow(b, m + 1) == b * k;
    assert v.x * k * b == v.x * (b * k);
    assert v.y * k * b == v.y * (b * k);
    assert v.z * k * b == v.z * (b * k);
  }

  /** After `n` steps the gap to a fixed target is the first gap scaled by `(1 - alpha)^n`. */
  lemma {:induction false} LerpIterGap(p: Vec3, t: Vec3, alpha: real, n: nat)
    ensures Sub(t, LerpIter(p, t, alpha, n)) == Scale(Sub(t, p), Pow(1.0 - alpha, n))
  {
    if n > 0 {
      LerpIterGap(p, t, alpha, n - 1);
      LerpGap(LerpIter(p, t, alpha, n - 1), t, alpha);
      ScaleByPow(Sub(t, p), 1.0 - alpha, n - 1);
      calc {
        Sub(t, LerpIter(p, t, alpha, n));
        Sub(t, Lerp(LerpIter(p, t, alpha, n - 1), t, alpha));
        Scale(Sub(t, LerpIter(p, t, alpha, n - 1)), 1.0 - alpha);
        Scale(Scale(Sub(t, p), Pow(1.0 - alpha, n - 1)), 1.0 - alpha);
        Scale(Sub(t, p), Pow(1.0 - alpha, n));
      }
    }
  }

  /** Each further step leaves a smaller (never negative) share of the gap. */
  lemma {:induction false} PowShrinks(b: real, n: nat)
    requires 0.0 <= b <= 1.0
    ensures 0.0 <= Pow(b, n + 1) <= Pow(b, n) <= 1.0
  {
    if n > 0 {
      PowShrinks(b, n - 1);
    }
    var k := Pow(b, n);
    assert Pow(b, n + 1) == b * k;
    assert 0.0 <= b * k <= k by {
      assert k >= 0.0;
      assert (1.0 - b) * k >= 0.0;
    }
  }

  /** Bernoulli's inequality in the form `(1 - a)^n * (1 + n*a) <= 1`. */
  lemma {:induction false} Bernoulli(a: real, n: nat)
    requires 0.0 <= a <= 1.0
    ensures Pow(1.0 - a, n) * (1.0 + n as real * a) <= 1.0
  {
    if n > 0 {
      Bernoulli(a, n - 1);
      PowShrinks(1.0 - a, n - 1);
      var k := Pow(1.0 - a, n - 1);
      var m := (n - 1) as real;
      assert k >= 0.0;
      assert k * (1.0 + m * a) <= 1.0;
      calc {
        Pow(1.0 - a, n) * (1.0 + n as real * a);
        (1.0 - a) * k * (1.0 + m * a + a);
        k * ((1.0 - a) * (1.0 + m * a + a));
        { assert (1.0 - a) * (1.0 + m * a + a) == 1.0 + m * a - m * a * a - a * a; }
        k * (1.0 + m * a - m * a * a - a * a);
      <=  { assert m * a * a + a * a >= 0.0;
            assert k * (m * a * a + a * a) >= 0.0; }
        k * (1.0 + m * a);
      <=
        1.0;
      }
    }
  }

  /**
    The share of the gap left after `n` steps falls below any `eps > 0` once
    `n * alpha * eps > 1`: repeated smoothing towards a fixed target converges.
   */
  lemma GapVanishes(alpha: real, eps: real, n: nat)
    requires 0.0 < alpha <= 1.0 && eps > 0.0
    requires n as real * alpha * eps > 1.0
    ensures 0.0 <= Pow(1.0 - alpha, n) < eps
  {
    Bernoulli(alpha, n);
    PowShrinks(1.0 - alpha, n);
    BelowReciprocal(Pow(1.0 - alpha, n), n, alpha, eps);
  }

  /** From `k * (1 + n*alpha) <= 1` and `n*alpha*eps > 1` it follows that `k < eps`. */
  lemma BelowReciprocal(k: real, n: nat, alpha: real, eps: real)
    requires k >= 0.0 && alpha >= 0.0 && eps > 0.0
    requires k * (1.0 + n as real * alpha) <= 1.0 && n as real * alpha * eps > 1.0
    ensures k < eps
  {
    assert eps * (1.0 + n as real * alpha) > 1.0;
    assert (k - eps) * (1.0 + n as real * alpha) < 0.0;
  }
}
