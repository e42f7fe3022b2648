/** The two three.js interpolation helpers the frame callbacks use, on ideal reals. */
module ThreeMath {
  import opened SceneTypes

  /** MathUtils.lerp(a, b, f) = (1 - f) * a + f * b. */
  function Lerp(a: real, b: real, f: real): real
  {
    (1.0 - f) * a + f * b
  }

  /** Vector3.lerp / lerpVectors, component by component. */
  function LerpVec(a: Vec3, b: Vec3, f: real): Vec3
  {
    Vec3(Lerp(a.x, b.x, f), Lerp(a.y, b.y, f), Lerp(a.z, b.z, f))
  }

  /** `v` lies in the closed interval spanned by `a` and `b`, whichever is larger. */
  predicate Between(v: real, a: real, b: real)
  {
    if a <= b then a <= v <= b else b <= v <= a
  }

  /** With a factor in [0, 1] a lerp lands between its start and its target: it never overshoots,
      and the remaining distance to the target shrinks by the factor (1 - f). */
  lemma LerpNoOvershoot(a: real, b: real, f: real)
    requires 0.0 <= f <= 1.0
    ensures Between(Lerp(a, b, f), a, b)
    ensures b - Lerp(a, b, f) == (1.0 - f) * (b - a)
  {
    assert b - Lerp(a, b, f) == (1.0 - f) * (b - a);
    assert Lerp(a, b, f) - a == f * (b - a);
    if a <= b {
      MulNonneg(1.0 - f, b - a);
      MulNonneg(f, b - a);
    } else {
      MulNonneg(1.0 - f, a - b);
      MulNonneg(f, a - b);
    }
  }

  lemma MulNonneg(x: real, y: real)
    requires 0.0 <= x && 0.0 <= y
    ensures 0.0 <= x * y
  {
  }

  lemma MulPos(x: real, y: real)
    requires 0.0 < x && 0.0 < y
    ensures 0.0 < x * y
  {
  }

  lemma DivStrict(a: real, b: real, h: real)
    requires a < b && 0.0 < h
    ensures a / h < b / h
  {
    var d := b / h - a / h;
    assert d * h == b - a;
    if d <= 0.0 {
      MulNonneg(-d, h);
    }
  }

  lemma SquareNonneg(x: real)
    ensures 0.0 <= x * x
  {
    if x < 0.0 {
      MulNonneg(-x, -x);
    }
  }

  lemma DivMonotone(a: real, b: real, h: real)
    requires 0.0 <= a <= b && 0.0 < h
    ensures 0.0 <= a / h <= b / h
  {
    assert b / h - a / h == (b - a) / h;
  }

  /** Component-wise version of LerpNoOvershoot. */
  lemma LerpVecNoOvershoot(a: Vec3, b: Vec3, f: real)
    requires 0.0 <= f <= 1.0
    ensures var r := LerpVec(a, b, f);
      Between(r.x, a.x, b.x) && Between(r.y, a.y, b.y) && Between(r.z, a.z, b.z)
  {
    LerpNoOvershoot(a.x, b.x, f);
    LerpNoOvershoot(a.y, b.y, f);
    LerpNoOvershoot(a.z, b.z, f);
  }

  /** A lerp toward a target of 1 (or 0) from a value in [0, 1] with factor in [0, 1]
      stays in [0, 1] and moves monotonically toward the target. */
  lemma LerpUnitProgress(p: real, target: real, f: real)
    requires 0.0 <= p <= 1.0 && (target == 0.0 || target == 1.0)
    requires 0.0 <= f <= 1.0
    ensures 0.0 <= Lerp(p, target, f) <= 1.0
    ensures target == 1.0 ==> p <= Lerp(p, target, f)
    ensures target == 0.0 ==> Lerp(p, target, f) <= p
  {
    LerpNoOvershoot(p, target, f);
  }

  /** The lag rule: of two groups heading for target 1, the one that is at least as far along
      and uses at least as large a factor stays at least as far along after the step. */
  lemma LerpLag(pSlow: real, pFast: real, fSlow: real, fFast: real)
    requires 0.0 <= pSlow <= pFast <= 1.0
    requires 0.0 <= fSlow <= fFast <= 1.0
    ensures Lerp(pSlow, 1.0, fSlow) <= Lerp(pFast, 1.0, fFast)
  {
    // Lerp(p, 1, f) == 1 - (1 - p) * (1 - f), and both factors shrink for the fast group.
    assert Lerp(pSlow, 1.0, fSlow) == 1.0 - (1.0 - pSlow) * (1.0 - fSlow);
    assert Lerp(pFast, 1.0, fFast) == 1.0 - (1.0 - pFast) * (1.0 - fFast);
    MulNonneg(pFast - pSlow, 1.0 - fFast);
    assert (1.0 - pFast) * (1.0 - fFast) <= (1.0 - pSlow) * (1.0 - fFast);
    MulNonneg(1.0 - pSlow, fFast - fSlow);
    assert (1.0 - pSlow) * (1.0 - fFast) <= (1.0 - pSlow) * (1.0 - fSlow);
  }

  /** With a factor above 1 a lerp overshoots: it lands beyond its target. */
  lemma LerpOvershoot(a: real, b: real, f: real)
    requires 1.0 < f && a != b
    ensures !Between(Lerp(a, b, f), a, b)
    ensures a < b ==> b < Lerp(a, b, f)
    ensures b < a ==> Lerp(a, b, f) < b
  {
    assert Lerp(a, b, f) - b == (f - 1.0) * (b - a);
    if a < b {
      MulPos(f - 1.0, b - a);
    } else {
      MulPos(f - 1.0, a - b);
    }
  }

  /** x to the n-th power. */
  function Pow(x: real, n: nat): real
  {
    if n == 0 then 1.0 else x * Pow(x, n - 1)
  }

  /** The value after n frames that each lerp toward the same target with the same factor. */
  function Repeated(p: real, target: real, f: real, n: nat): real
  {
    if n == 0 then p else Lerp(Repeated(p, target, f, n - 1), target, f)
  }

  /** Repeated lerps approach the target geometrically: after n frames the distance left is
      (1 - f)^n times the initial one. */
  lemma {:induction false} RepeatedDistance(p: real, target: real, f: real, n: nat)
    ensures target - Repeated(p, target, f, n) == Pow(1.0 - f, n) * (target - p)
  {
    if n > 0 {
      var q := Repeated(p, target, f, n - 1);
      RepeatedDistance(p, target, f, n - 1);
      assert target - Lerp(q, target, f) == (1.0 - f) * (target - q);
      assert (1.0 - f) * (Pow(1.0 - f, n - 1) * (target - p)) == ((1.0 - f) * Pow(1.0 - f, n - 1)) * (target - p);
    }
  }

  /** A lerp with factor 0 stays at its start; with factor 1 it lands on its target. */
  lemma LerpVecEnds(a: Vec3, b: Vec3)
    ensures LerpVec(a, b, 0.0) == a && LerpVec(a, b, 1.0) == b
  {
  }
}
