/** The sampling and easing helpers of utils/math.ts on ideal reals. `Math.random` draws are
    passed in as records, and pi, sin, cos, acos, sqrt and cbrt as an uninterpreted record of
    functions; each lemma states the ranges it assumes of them. */
module MathUtils {
  import opened SceneTypes
  import ThreeMath

  /** The transcendental operations the samplers call. */
  datatype Transcendentals = Transcendentals(
    pi: real,
    sin: real -> real,
    cos: real -> real,
    acos: real -> real,
    sqrt: real -> real,
    cbrt: real -> real)

  /** The three `Math.random()` draws of getRandomSpherePosition, in call order. */
  datatype SphereDraws = SphereDraws(u: real, v: real, w: real)

  /** The three `Math.random()` draws of getConePosition, in call order. */
  datatype ConeDraws = ConeDraws(height: real, angle: real, radial: real)

  /** `Math.pow(x, 3)`. */
  function Cube(x: real): real
  {
    x * x * x
  }

  /** getRandomSpherePosition(radius): azimuth 2*pi*u, polar angle acos(2v - 1), radial
      distance cbrt(w) * radius. */
  function SpherePosition(radius: real, d: SphereDraws, f: Transcendentals): Vec3
  {
    var theta := 2.0 * f.pi * d.u;
    var phi := f.acos(2.0 * d.v - 1.0);
    var r := f.cbrt(d.w) * radius;
    var sinPhi := f.sin(phi);
    Vec3(r * sinPhi * f.cos(theta), r * sinPhi * f.sin(theta), r * f.cos(phi))
  }

  /** The radial factor of getRandomSpherePosition. */
  function SphereRadius(radius: real, d: SphereDraws, f: Transcendentals): real
  {
    f.cbrt(d.w) * radius
  }

  /** The two angles getRandomSpherePosition feeds to sin and cos. */
  function SphereTheta(d: SphereDraws, f: Transcendentals): real { 2.0 * f.pi * d.u }
  function SpherePhi(d: SphereDraws, f: Transcendentals): real { f.acos(2.0 * d.v - 1.0) }

  /** sin^2 + cos^2 == 1 at one angle: the only fact about sin and cos the bounds rely on. */
  predicate Pythagorean(f: Transcendentals, a: real)
  {
    f.sin(a) * f.sin(a) + f.cos(a) * f.cos(a) == 1.0
  }

  /** With cbrt(w) in [0, 1], the radial factor lies in [0, radius]. */
  lemma SphereRadiusBounds(radius: real, d: SphereDraws, f: Transcendentals)
    requires 0.0 <= radius
    requires 0.0 <= f.cbrt(d.w) <= 1.0
    ensures 0.0 <= SphereRadius(radius, d, f) <= radius
  {
    ThreeMath.MulNonneg(f.cbrt(d.w), radius);
    ThreeMath.MulNonneg(1.0 - f.cbrt(d.w), radius);
  }

  /** The sampled point is at distance exactly r from the origin, so it lies in the solid sphere. */
  lemma SphereInside(radius: real, d: SphereDraws, f: Transcendentals)
    requires 0.0 <= radius
    requires 0.0 <= f.cbrt(d.w) <= 1.0
    requires Pythagorean(f, SphereTheta(d, f)) && Pythagorean(f, SpherePhi(d, f))
    ensures var p := SpherePosition(radius, d, f);
      var r := SphereRadius(radius, d, f);
      p.x * p.x + p.y * p.y + p.z * p.z == r * r <= radius * radius
  {
    var p := SpherePosition(radius, d, f);
    var r := SphereRadius(radius, d, f);
    var st, ct := f.sin(SphereTheta(d, f)), f.cos(SphereTheta(d, f));
    var sp, cp := f.sin(SpherePhi(d, f)), f.cos(SpherePhi(d, f));
    var a := r * sp;
    assert p == Vec3(a * ct, a * st, r * cp);
    assert p.x * p.x + p.y * p.y == (a * a) * (ct * ct + st * st);
    assert p.x * p.x + p.y * p.y == a * a;
    assert a * a == (r * r) * (sp * sp);
    assert p.z * p.z == (r * r) * (cp * cp);
    assert (r * r) * (sp * sp) + (r * r) * (cp * cp) == (r * r) * (sp * sp + cp * cp);
    SphereRadiusBounds(radius, d, f);
    ThreeMath.MulNonneg(radius - r, radius + r);
  }

  /** getConePosition(height, baseRadius, yOffset): a height uniform in [0, height), a radius
      shrinking linearly to the apex, sqrt-biased radial distance, and a vertical recentring. */
  function ConePosition(height: real, baseRadius: real, yOffset: real, d: ConeDraws, f: Transcendentals): Vec3
    requires height != 0.0
  {
    var y := ConeHeight(height, d);
    var r := ConeRadial(height, baseRadius, d, f);
    var theta := ConeTheta(d, f);
    Vec3(r * f.cos(theta), y - height / 2.0 + yOffset, r * f.sin(theta))
  }

  /** The sampled height above the base: `Math.random() * height`. */
  function ConeHeight(height: real, d: ConeDraws): real { d.height * height }

  /** The sampled azimuth: `Math.random() * Math.PI * 2`. */
  function ConeTheta(d: ConeDraws, f: Transcendentals): real { d.angle * f.pi * 2.0 }

  /** `radiusAtY`: the cross-section radius at height y above the base. */
  function RadiusAt(height: real, baseRadius: real, y: real): real
    requires height != 0.0
  {
    baseRadius * (1.0 - y / height)
  }

  /** The sampled distance from the axis: `radiusAtY * Math.sqrt(Math.random())`. */
  function ConeRadial(height: real, baseRadius: real, d: ConeDraws, f: Transcendentals): real
    requires height != 0.0
  {
    RadiusAt(height, baseRadius, ConeHeight(height, d)) * f.sqrt(d.radial)
  }

  /** For a draw in [0, 1) the returned y lies in [yOffset - height/2, yOffset + height/2). */
  lemma ConeHeightBounds(height: real, baseRadius: real, yOffset: real, d: ConeDraws, f: Transcendentals)
    requires 0.0 < height
    requires 0.0 <= d.height < 1.0
    ensures var p := ConePosition(height, baseRadius, yOffset, d, f);
      yOffset - height / 2.0 <= p.y < yOffset + height / 2.0
  {
    var y := ConeHeight(height, d);
    assert ConePosition(height, baseRadius, yOffset, d, f).y == y - height / 2.0 + yOffset;
    ThreeMath.MulNonneg(d.height, height);
    ThreeMath.MulNonneg(1.0 - d.height, height);
    assert (1.0 - d.height) * height != 0.0;
  }

  /** The radius is baseRadius at the base, in (0, baseRadius] on [0, height), 0 at the apex,
      and shrinks as y rises. */
  lemma RadiusAtBounds(height: real, baseRadius: real, y: real, y': real)
    requires 0.0 < height && 0.0 < baseRadius
    requires 0.0 <= y <= y' <= height
    ensures RadiusAt(height, baseRadius, 0.0) == baseRadius
    ensures RadiusAt(height, baseRadius, height) == 0.0
    ensures 0.0 <= RadiusAt(height, baseRadius, y') <= RadiusAt(height, baseRadius, y) <= baseRadius
    ensures y < height ==> 0.0 < RadiusAt(height, baseRadius, y)
  {
    var q, q' := y / height, y' / height;
    ThreeMath.DivMonotone(y, y', height);
    ThreeMath.DivMonotone(y', height, height);
    ThreeMath.MulNonneg(baseRadius, 1.0 - q');
    ThreeMath.MulNonneg(baseRadius, q' - q);
    ThreeMath.MulNonneg(baseRadius, q);
    assert height / height == 1.0 && 0.0 / height == 0.0;
    if y < height {
      ThreeMath.DivStrict(y, height, height);
      ThreeMath.MulPos(baseRadius, 1.0 - q);
      assert RadiusAt(height, baseRadius, y) == baseRadius * (1.0 - q);
    }
  }

  /** With sqrt of the draw in [0, 1], the distance from the axis lies in [0, radiusAtY]. */
  lemma ConeRadialBounds(height: real, baseRadius: real, d: ConeDraws, f: Transcendentals)
    requires 0.0 < height && 0.0 < baseRadius
    requires 0.0 <= d.height < 1.0
    requires 0.0 <= f.sqrt(d.radial) <= 1.0
    ensures var rad := RadiusAt(height, baseRadius, ConeHeight(height, d));
      0.0 < rad && 0.0 <= ConeRadial(height, baseRadius, d, f) <= rad
  {
    var y := ConeHeight(height, d);
    ThreeMath.MulNonneg(d.height, height);
    ThreeMath.MulNonneg(1.0 - d.height, height);
    assert (1.0 - d.height) * height != 0.0;
    RadiusAtBounds(height, baseRadius, y, y);
    var rad := RadiusAt(height, baseRadius, y);
    ThreeMath.MulNonneg(rad, f.sqrt(d.radial));
    ThreeMath.MulNonneg(rad, 1.0 - f.sqrt(d.radial));
  }

  /** A point at distance r along a unit direction (cos, sin) is at distance r from the origin. */
  lemma PolarNorm(r: real, c: real, s: real)
    requires c * c + s * s == 1.0
    ensures (r * c) * (r * c) + (r * s) * (r * s) == r * r
  {
    assert (r * c) * (r * c) + (r * s) * (r * s) == (r * r) * (c * c + s * s);
  }

  /** The sampled point lies in the solid cone: its horizontal distance from the axis is at most
      the cross-section radius at its own height (given sqrt of the draw in [0, 1]). */
  lemma ConeInside(height: real, baseRadius: real, yOffset: real, d: ConeDraws, f: Transcendentals)
    requires 0.0 < height && 0.0 < baseRadius
    requires 0.0 <= d.height < 1.0
    requires 0.0 <= f.sqrt(d.radial) <= 1.0
    requires Pythagorean(f, ConeTheta(d, f))
    ensures var p := ConePosition(height, baseRadius, yOffset, d, f);
      var rad := RadiusAt(height, baseRadius, p.y - yOffset + height / 2.0);
      0.0 < rad && p.x * p.x + p.z * p.z <= rad * rad
  {
    var p := ConePosition(height, baseRadius, yOffset, d, f);
    var y := ConeHeight(height, d);
    assert p.y - yOffset + height / 2.0 == y;
    var rad := RadiusAt(height, baseRadius, y);
    var r := ConeRadial(height, baseRadius, d, f);
    ConeRadialBounds(height, baseRadius, d, f);
    var theta := ConeTheta(d, f);
    PolarNorm(r, f.cos(theta), f.sin(theta));
    assert p.x * p.x + p.z * p.z == r * r;
    ThreeMath.MulNonneg(rad - r, rad + r);
  }

  /** easeInOutCubic(t): 4t^3 below 0.5, 1 - (2 - 2t)^3 / 2 from 0.5 on. */
  function EaseInOutCubic(t: real): real
  {
    if t < 0.5 then 4.0 * t * t * t else 1.0 - Cube(-2.0 * t + 2.0) / 2.0
  }

  lemma CubeMonotone(a: real, b: real)
    requires a <= b
    ensures Cube(a) <= Cube(b)
  {
    // b^3 - a^3 == (b - a) * ((a + b/2)^2 + 3 b^2 / 4)
    var q := (a + b / 2.0) * (a + b / 2.0) + 3.0 * b * b / 4.0;
    assert Cube(b) - Cube(a) == (b - a) * q;
    ThreeMath.SquareNonneg(a + b / 2.0);
    ThreeMath.SquareNonneg(b);
    ThreeMath.MulNonneg(b - a, q);
  }

  /** The fixed points of the easing curve. */
  lemma EaseEndpoints()
    ensures EaseInOutCubic(0.0) == 0.0
    ensures EaseInOutCubic(0.5) == 0.5
    ensures EaseInOutCubic(1.0) == 1.0
  {
    assert Cube(1.0) == 1.0;
    assert Cube(0.0) == 0.0;
  }

  /** The easing curve never decreases (on all of the reals, so in particular on [0, 1]). */
  lemma EaseMonotone(t1: real, t2: real)
    requires t1 <= t2
    ensures EaseInOutCubic(t1) <= EaseInOutCubic(t2)
  {
    if t1 < 0.5 {
      if t2 < 0.5 {
        CubeMonotone(t1, t2);
      } else {
        CubeMonotone(t1, 0.5);
        CubeMonotone(-2.0 * t2 + 2.0, 1.0);
      }
    } else {
      CubeMonotone(-2.0 * t2 + 2.0, -2.0 * t1 + 2.0);
    }
  }

  /** The easing curve maps [0, 1] into [0, 1]. */
  lemma EaseUnitRange(t: real)
    requires 0.0 <= t <= 1.0
    ensures 0.0 <= EaseInOutCubic(t) <= 1.0
  {
    EaseMonotone(0.0, t);
    EaseMonotone(t, 1.0);
  }

  /** The easing curve is point-symmetric about (0.5, 0.5). */
  lemma EaseSymmetric(t: real)
    ensures EaseInOutCubic(1.0 - t) == 1.0 - EaseInOutCubic(t)
  {
    if t < 0.5 {
      assert -2.0 * (1.0 - t) + 2.0 == 2.0 * t;
      CubeDouble(t);
    } else if t > 0.5 {
      assert -2.0 * t + 2.0 == 2.0 * (1.0 - t);
      CubeDouble(1.0 - t);
    }
  }

  /** (2x)^3 == 8 x^3, and the easing's lower branch 4 t t t is 4 t^3. */
  lemma CubeDouble(x: real)
    ensures Cube(2.0 * x) == 8.0 * Cube(x)
    ensures 4.0 * x * x * x == 4.0 * Cube(x)
  {
    assert (2.0 * x) * (2.0 * x) == 4.0 * (x * x);
    assert 4.0 * (x * x) * (2.0 * x) == 8.0 * (x * x * x);
  }

}
