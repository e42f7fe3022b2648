/** Ornaments.tsx: one instanced mesh of gifts or baubles. The ornament records are generated
    once; each frame moves the mesh's progress toward the target state at a speed set by the
    kind, and writes every instance's transform. */
module Ornaments {
  import opened SceneTypes
  import opened ThreeMath
  import opened MathUtils

  const ScatterRadius := 18.0
  const TreeHeight := 9.0
  const TreeBaseRadius := 3.2
  const TreeYOffset := 2.2
  /** At or above this raw progress the scatter noise is switched off. */
  const NoiseCutoff := 0.9

  /** OrnamentData (types.ts). */
  datatype OrnamentData = OrnamentData(
    id: nat,
    position: DualPosition,
    scale: real,
    rotation: Vec3,
    color: string,
    kind: OrnamentKind,
    weight: real)

  /** The `Math.random()` draws of one ornament, in call order. */
  datatype OrnamentDraws = OrnamentDraws(
    sphere: SphereDraws, cone: ConeDraws, scale: real, rotX: real, rotY: real, color: real, weight: real)

  /** A `Math.random()` result. */
  predicate UnitDraw(x: real)
  {
    0.0 <= x < 1.0
  }

  /** The colour palette of each kind. */
  function Palette(kind: OrnamentKind): (r: seq<string>)
    ensures |r| == 3
  {
    match kind
    case Gift => ["#ff007f", "#ff69b4", "#e0e0e0"]
    case Bauble => ["#ffc0cb", "#ffffff", "#silver"]
  }

  /** The width of the scale range above its 0.1 floor. */
  function ScaleSpan(kind: OrnamentKind): real
  {
    if kind == Gift then 0.4 else 0.25
  }

  /** The progress lerp's factor per second: gifts are heavier and move slower. */
  function Speed(kind: OrnamentKind): real
  {
    if kind == Gift then 0.8 else 1.2
  }

  /** `Math.floor(draw * 3)`: a draw in [0, 1) picks one of the three palette slots. */
  function ColorIndex(draw: real): (k: int)
    ensures UnitDraw(draw) ==> 0 <= k < 3
  {
    (draw * 3.0).Floor
  }

  /** Ornament i built from its draws. */
  function MakeOrnament(i: nat, kind: OrnamentKind, d: OrnamentDraws, f: Transcendentals): (o: OrnamentData)
    requires UnitDraw(d.color)
    ensures o.id == i && o.kind == kind && o.weight == d.weight
    ensures o.color in Palette(kind)
    ensures o.rotation.z == 0.0
  {
    OrnamentData(
      i,
      DualPosition(ConePosition(TreeHeight, TreeBaseRadius, TreeYOffset, d.cone, f),
                   SpherePosition(ScatterRadius, d.sphere, f)),
      ScaleOf(kind, d.scale),
      RotationOf(d, f),
      Palette(kind)[ColorIndex(d.color)],
      kind,
      d.weight)
  }

  /** `Math.random() * span + 0.1`. */
  function ScaleOf(kind: OrnamentKind, draw: real): real
  {
    draw * ScaleSpan(kind) + 0.1
  }

  /** `[Math.random() * PI, Math.random() * PI, 0]`. */
  function RotationOf(d: OrnamentDraws, f: Transcendentals): Vec3
  {
    Vec3(d.rotX * f.pi, d.rotY * f.pi, 0.0)
  }

  /** Scales lie in [0.1, 0.5) for gifts and [0.1, 0.35) for baubles, and the two random
      rotation angles in [0, pi). */
  lemma OrnamentRanges(i: nat, kind: OrnamentKind, d: OrnamentDraws, f: Transcendentals)
    requires UnitDraw(d.color) && UnitDraw(d.scale) && UnitDraw(d.rotX) && UnitDraw(d.rotY)
    requires 0.0 < f.pi
    ensures var o := MakeOrnament(i, kind, d, f);
      && 0.1 <= o.scale < (if kind == Gift then 0.5 else 0.35)
      && 0.0 <= o.rotation.x < f.pi && 0.0 <= o.rotation.y < f.pi
  {
    var o := MakeOrnament(i, kind, d, f);
    assert o.scale == ScaleOf(kind, d.scale) && o.rotation == RotationOf(d, f);
    ScaleRange(kind, d.scale);
    RotationRange(d, f);
  }

  lemma ScaleRange(kind: OrnamentKind, draw: real)
    requires UnitDraw(draw)
    ensures 0.1 <= ScaleOf(kind, draw) < (if kind == Gift then 0.5 else 0.35)
  {
    assert ScaleOf(kind, draw) == draw * ScaleSpan(kind) + 0.1;
    UnitTimes(draw, ScaleSpan(kind));
  }

  lemma RotationRange(d: OrnamentDraws, f: Transcendentals)
    requires UnitDraw(d.rotX) && UnitDraw(d.rotY) && 0.0 < f.pi
    ensures 0.0 <= RotationOf(d, f).x < f.pi && 0.0 <= RotationOf(d, f).y < f.pi
  {
    AngleRange(RotationOf(d, f).x, d.rotX, f.pi);
    AngleRange(RotationOf(d, f).y, d.rotY, f.pi);
  }

  /** An angle drawn as u * pi with u in [0, 1) lies in [0, pi). */
  lemma AngleRange(a: real, u: real, pi: real)
    requires UnitDraw(u) && 0.0 < pi && a == u * pi
    ensures 0.0 <= a < pi
  {
    UnitTimes(u, pi);
  }

  /** A draw in [0, 1) times a positive c lies in [0, c). */
  lemma UnitTimes(u: real, c: real)
    requires UnitDraw(u) && 0.0 < c
    ensures 0.0 <= u * c < c
  {
    MulNonneg(u, c);
    MulPos(1.0 - u, c);
    assert c - u * c == (1.0 - u) * c;
  }

  /** The generation loop: ornament i is built from the i-th draws. */
  method Generate(count: nat, kind: OrnamentKind, draws: seq<OrnamentDraws>, f: Transcendentals)
    returns (items: seq<OrnamentData>)
    requires |draws| == count
    requires forall i :: 0 <= i < count ==> UnitDraw(draws[i].color)
    ensures |items| == count
    ensures forall i :: 0 <= i < count ==> items[i] == MakeOrnament(i, kind, draws[i], f)
    ensures forall i :: 0 <= i < count ==> items[i].id == i && items[i].kind == kind
  {
    items := [];
    var colors := Palette(kind);
    for i := 0 to count
      invariant |items| == i
      invariant forall k :: 0 <= k < i ==> items[k] == MakeOrnament(k, kind, draws[k], f)
    {
      var d := draws[i];
      var s := SpherePosition(ScatterRadius, d.sphere, f);
      var t := ConePosition(TreeHeight, TreeBaseRadius, TreeYOffset, d.cone, f);
      items := items + [OrnamentData(
        i,
        DualPosition(t, s),
        d.scale * ScaleSpan(kind) + 0.1,
        Vec3(d.rotX * f.pi, d.rotY * f.pi, 0.0),
        colors[ColorIndex(d.color)],
        kind,
        d.weight)];
    }
  }

  // ---------------------------------------------------------------------------------------
  // Instance transforms
  // ---------------------------------------------------------------------------------------

  /** The scatter position with the floating noise added, damped by (1 - t) where t is the
      eased progress; the noise is switched on by the raw progress, not the eased one. */
  function NoisyScatter(o: OrnamentData, progress: real, t: real, time: real, f: Transcendentals): Vec3
  {
    var s := o.position.scatter;
    if progress < NoiseCutoff then
      Vec3(s.x + f.sin(time + o.id as real) * 0.5 * (1.0 - t),
           s.y + f.cos(time * 0.5 + o.id as real) * 0.5 * (1.0 - t),
           s.z)
    else s
  }

  /** Ornament o's transform for a raw progress, its eased value t and the clock: the position
      mixes the (noisy) scatter and tree positions by t, the first two rotation axes spin with
      the clock while scattered, and the scale grows from 80% to 100% as the tree assembles. */
  function InstanceTransform(o: OrnamentData, progress: real, t: real, time: real, f: Transcendentals): Transform
  {
    Transform(
      LerpVec(NoisyScatter(o, progress, t, time, f), o.position.tree, t),
      SpunRotation(o, t, time),
      GrownScale(o, t))
  }

  /** The slow spin that fades out as the tree assembles: x turns at 0.1 and y at 0.2 per
      second, both scaled by 1 - t. */
  function SpunRotation(o: OrnamentData, t: real, time: real): Vec3
  {
    Vec3(o.rotation.x + time * 0.1 * (1.0 - t), o.rotation.y + time * 0.2 * (1.0 - t), o.rotation.z)
  }

  /** Instances grow from 80% of their scale (scattered) to full scale (assembled). */
  function GrownScale(o: OrnamentData, t: real): real
  {
    o.scale * (0.8 + 0.2 * t)
  }

  /** Fully assembled (t == 1, the eased value of progress 1): each ornament sits exactly on
      its tree position, with its generated rotation and full scale. */
  lemma AssembledTransform(o: OrnamentData, time: real, f: Transcendentals)
    ensures InstanceTransform(o, 1.0, 1.0, time, f) == Transform(o.position.tree, o.rotation, o.scale)
  {
    assert NoisyScatter(o, 1.0, 1.0, time, f) == o.position.scatter;
    LerpVecEnds(o.position.scatter, o.position.tree);
  }

  /** Fully scattered (t == 0, the eased value of progress 0): each ornament sits on its noisy
      scatter position, spins with the clock, and shows at 80% scale. */
  lemma ScatteredTransform(o: OrnamentData, time: real, f: Transcendentals)
    ensures var s := o.position.scatter;
      InstanceTransform(o, 0.0, 0.0, time, f) == Transform(
        Vec3(s.x + f.sin(time + o.id as real) * 0.5, s.y + f.cos(time * 0.5 + o.id as real) * 0.5, s.z),
        Vec3(o.rotation.x + time * 0.1, o.rotation.y + time * 0.2, o.rotation.z),
        o.scale * 0.8)
  {
    var s := o.position.scatter;
    var n := Vec3(s.x + f.sin(time + o.id as real) * 0.5, s.y + f.cos(time * 0.5 + o.id as real) * 0.5, s.z);
    assert NoisyScatter(o, 0.0, 0.0, time, f) == n;
    LerpVecEnds(n, o.position.tree);
  }

  /** Near the tree (raw progress at least 0.9) the noise is off: the position is exactly the
      mix of the two stored positions. */
  lemma NoNoiseNearTree(o: OrnamentData, progress: real, t: real, time: real, f: Transcendentals)
    requires NoiseCutoff <= progress
    ensures InstanceTransform(o, progress, t, time, f).position == LerpVec(o.position.scatter, o.position.tree, t)
  {
  }

  /** With t in [0, 1] the noise moves an ornament at most 0.5 (1 - t)^2 from the mix of its
      stored positions on x and y, and not at all on z. */
  lemma NoiseBounds(o: OrnamentData, progress: real, t: real, time: real, f: Transcendentals)
    requires 0.0 <= t <= 1.0
    requires -1.0 <= f.sin(time + o.id as real) <= 1.0 && -1.0 <= f.cos(time * 0.5 + o.id as real) <= 1.0
    ensures var a := 0.5 * ((1.0 - t) * (1.0 - t));
      var base := LerpVec(o.position.scatter, o.position.tree, t);
      var p := InstanceTransform(o, progress, t, time, f).position;
      && -a <= p.x - base.x <= a && -a <= p.y - base.y <= a && p.z == base.z
  {
    var a := 0.5 * ((1.0 - t) * (1.0 - t));
    var s := o.position.scatter;
    var tree := o.position.tree;
    var base := LerpVec(s, tree, t);
    var n := NoisyScatter(o, progress, t, time, f);
    var p := InstanceTransform(o, progress, t, time, f).position;
    assert p == LerpVec(n, tree, t);
    if progress < NoiseCutoff {
      var sx := f.sin(time + o.id as real);
      var cy := f.cos(time * 0.5 + o.id as real);
      assert n == Vec3(s.x + sx * 0.5 * (1.0 - t), s.y + cy * 0.5 * (1.0 - t), s.z);
      NoiseOffset(p.x, base.x, s.x, tree.x, sx, t, a);
      NoiseOffset(p.y, base.y, s.y, tree.y, cy, t, a);
    } else {
      assert n == s;
      assert p == base;
      HalfSquareNonneg(1.0 - t, a);
    }
  }

  lemma HalfSquareNonneg(x: real, a: real)
    requires a == 0.5 * (x * x)
    ensures 0.0 <= a
  {
    SquareNonneg(x);
  }

  /** One noisy axis: lerping from s + n * 0.5 * (1 - t) instead of s moves the result by
      n * 0.5 * (1 - t)^2, which |n| <= 1 bounds. */
  lemma NoiseOffset(moved: real, base: real, s: real, tree: real, n: real, t: real, a: real)
    requires -1.0 <= n <= 1.0 && a == 0.5 * ((1.0 - t) * (1.0 - t))
    requires moved == Lerp(s + n * 0.5 * (1.0 - t), tree, t) && base == Lerp(s, tree, t)
    ensures -a <= moved - base <= a
  {
    assert moved - base == (1.0 - t) * (n * 0.5 * (1.0 - t));
    assert moved - base == n * a;
    SquareNonneg(1.0 - t);
    MulNonneg(1.0 - n, a);
    MulNonneg(1.0 + n, a);
  }

  /** With t in [0, 1] an ornament's scale stays between 80% and 100% of its own. */
  lemma ScaleBounds(o: OrnamentData, progress: real, t: real, time: real, f: Transcendentals)
    requires 0.0 <= t <= 1.0 && 0.0 <= o.scale
    ensures 0.8 * o.scale <= InstanceTransform(o, progress, t, time, f).scale <= o.scale
  {
    MulNonneg(o.scale, t);
    MulNonneg(o.scale, 1.0 - t);
    assert InstanceTransform(o, progress, t, time, f).scale == o.scale * 0.8 + 0.2 * (o.scale * t);
  }

  /** The weight rule: heading for the tree from the same progress, a gift mesh is never ahead
      of a bauble mesh after a frame short enough for the bauble's factor to stay at most 1. */
  lemma GiftsLagBaubles(pGift: real, pBauble: real, delta: real)
    requires 0.0 <= pGift <= pBauble <= 1.0
    requires 0.0 <= delta && delta * Speed(Bauble) <= 1.0
    ensures Lerp(pGift, 1.0, delta * Speed(Gift)) <= Lerp(pBauble, 1.0, delta * Speed(Bauble))
  {
    LerpLag(pGift, pBauble, delta * Speed(Gift), delta * Speed(Bauble));
  }

  // ---------------------------------------------------------------------------------------
  // The mesh
  // ---------------------------------------------------------------------------------------

  /** A transform that leaves an instance where the geometry puts it. */
  const Identity := Transform(Vec3(0.0, 0.0, 0.0), Vec3(0.0, 0.0, 0.0), 1.0)

  /** The component's memoised data, its progress ref, and the instance matrices. */
  class OrnamentMesh {
    const kind: OrnamentKind
    const data: seq<OrnamentData>
    const matrices: array<Transform>
    var progress: real

    ghost predicate Valid()
      reads this
    {
      matrices.Length == |data| && forall i :: 0 <= i < |data| ==> data[i].id == i
    }

    /** Mounting: generate the data, start at progress 0, all instance matrices the identity. */
    constructor (count: nat, kind: OrnamentKind, draws: seq<OrnamentDraws>, f: Transcendentals)
      requires |draws| == count
      requires forall i :: 0 <= i < count ==> UnitDraw(draws[i].color)
      ensures Valid() && fresh(matrices)
      ensures this.kind == kind && progress == 0.0
      ensures |data| == count && forall i :: 0 <= i < count ==> data[i] == MakeOrnament(i, kind, draws[i], f)
      ensures forall i :: 0 <= i < count ==> matrices[i] == Identity
    {
      this.kind := kind;
      var items := Generate(count, kind, draws, f);
      data := items;
      matrices := new Transform[count](_ => Identity);
      progress := 0.0;
    }

    /** The frame callback: lerp the progress toward the target by `delta * speed`, then write
        every instance's transform from the eased progress and the clock. */
    method Frame(treeState: MorphState, elapsed: real, delta: real, f: Transcendentals)
      requires Valid()
      modifies this`progress, matrices
      ensures Valid()
      ensures progress == Lerp(old(progress), TargetProgress(treeState), delta * Speed(kind))
      ensures forall i :: 0 <= i < |data| ==>
        matrices[i] == InstanceTransform(data[i], progress, EaseInOutCubic(progress), elapsed, f)
    {
      var target := if treeState == TreeShape then 1.0 else 0.0;
      var speed := if kind == Gift then 0.8 else 1.2;
      var p := Lerp(progress, target, delta * speed);
      progress := p;
      var t := EaseInOutCubic(p);
      for i := 0 to |data|
        invariant progress == p
        invariant forall k :: 0 <= k < i ==> matrices[k] == InstanceTransform(data[k], p, t, elapsed, f)
      {
        var d := data[i];
        var scatter := NoisyScatter(d, p, t, elapsed, f);
        var current := LerpVec(scatter, d.position.tree, t);
        matrices[i] := Transform(current, SpunRotation(d, t, elapsed), GrownScale(d, t));
      }
    }
  }
}
