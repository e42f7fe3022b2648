/** Foliage.tsx: the particle cloud. Its geometry buffers are filled once from sampled
    positions; each frame moves the shader's progress uniform toward the target state, and the
    vertex shader places every particle between its scatter and tree positions. */
module Foliage {
  import opened SceneTypes
  import opened ThreeMath
  import opened MathUtils

  const ScatterRadius := 15.0
  const TreeHeight := 10.0
  const TreeBaseRadius := 3.5
  const TreeYOffset := 2.0
  /** The factor per second of the progress uniform's lerp. */
  const TransitionSpeed := 1.5

  /** The `Math.random()` draws of one particle, in call order. */
  datatype ParticleDraws = ParticleDraws(sphere: SphereDraws, cone: ConeDraws, random: real)

  function ScatterOf(d: ParticleDraws, f: Transcendentals): Vec3
  {
    SpherePosition(ScatterRadius, d.sphere, f)
  }

  function TreeOf(d: ParticleDraws, f: Transcendentals): Vec3
  {
    ConePosition(TreeHeight, TreeBaseRadius, TreeYOffset, d.cone, f)
  }

  /** Applying a sampler to every particle's draws. */
  function Sampled(ds: seq<ParticleDraws>, g: ParticleDraws -> Vec3): (r: seq<Vec3>)
    ensures |r| == |ds|
  {
    seq(|ds|, i requires 0 <= i < |ds| => g(ds[i]))
  }

  function Scatters(ds: seq<ParticleDraws>, f: Transcendentals): (r: seq<Vec3>)
    ensures |r| == |ds|
  {
    Sampled(ds, d => ScatterOf(d, f))
  }

  function Trees(ds: seq<ParticleDraws>, f: Transcendentals): (r: seq<Vec3>)
    ensures |r| == |ds|
  {
    Sampled(ds, d => TreeOf(d, f))
  }

  function Randoms(ds: seq<ParticleDraws>): (r: seq<real>)
    ensures |r| == |ds|
  {
    seq(|ds|, i requires 0 <= i < |ds| => ds[i].random)
  }

  // ---------------------------------------------------------------------------------------
  // Attribute layout
  // ---------------------------------------------------------------------------------------

  /** The layout of an `itemSize` 3 buffer attribute: item i occupies slots 3i, 3i+1, 3i+2. */
  function Flatten(ps: seq<Vec3>): (r: seq<real>)
    ensures |r| == 3 * |ps|
  {
    if ps == [] then []
    else
      var last := ps[|ps| - 1];
      Flatten(ps[..|ps| - 1]) + [last.x, last.y, last.z]
  }

  /** Item i of a flattened attribute sits in slots 3i, 3i+1, 3i+2. */
  lemma {:induction false} FlattenAt(ps: seq<Vec3>, i: nat)
    requires i < |ps|
    ensures Flatten(ps)[3 * i] == ps[i].x && Flatten(ps)[3 * i + 1] == ps[i].y && Flatten(ps)[3 * i + 2] == ps[i].z
  {
    var init := ps[..|ps| - 1];
    if i < |ps| - 1 {
      FlattenAt(init, i);
      assert init[i] == ps[i];
    }
  }

  /** Reading a buffer attribute back: item i from slots 3i, 3i+1, 3i+2. */
  function Unflatten(r: seq<real>): (ps: seq<Vec3>)
    requires |r| % 3 == 0
    ensures 3 * |ps| == |r|
  {
    seq(|r| / 3, i requires 0 <= i < |r| / 3 => Vec3(r[3 * i], r[3 * i + 1], r[3 * i + 2]))
  }

  /** Reading back a filled attribute gives exactly the positions written. */
  lemma UnflattenFlatten(ps: seq<Vec3>)
    ensures |Flatten(ps)| % 3 == 0 && Unflatten(Flatten(ps)) == ps
  {
    var r := Flatten(ps);
    assert |r| / 3 == |ps|;
    var back := Unflatten(r);
    forall i | 0 <= i < |ps|
      ensures back[i] == ps[i]
    {
      FlattenAt(ps, i);
    }
  }

  // ---------------------------------------------------------------------------------------
  // Geometry buffers
  // ---------------------------------------------------------------------------------------

  /** Appending one item appends its three slots. */
  lemma FlattenSnoc(ps: seq<Vec3>, v: Vec3)
    ensures Flatten(ps + [v]) == Flatten(ps) + [v.x, v.y, v.z]
  {
    assert (ps + [v])[..|ps|] == ps;
  }

  /** The flattened samples of the first i + 1 particles extend those of the first i. */
  lemma SampledSnoc(ds: seq<ParticleDraws>, i: nat, g: ParticleDraws -> Vec3)
    requires i < |ds|
    ensures Flatten(Sampled(ds[..i + 1], g)) == Flatten(Sampled(ds[..i], g)) + [g(ds[i]).x, g(ds[i]).y, g(ds[i]).z]
  {
    assert Sampled(ds[..i + 1], g) == Sampled(ds[..i], g) + [g(ds[i])];
    FlattenSnoc(Sampled(ds[..i], g), g(ds[i]));
  }

  lemma RandomsSnoc(ds: seq<ParticleDraws>, i: nat)
    requires i < |ds|
    ensures Randoms(ds[..i + 1]) == Randoms(ds[..i]) + [ds[i].random]
  {
  }

  /** Writing item i's three slots into a buffer whose first 3i slots are `prefix`. */
  method PutVec(a: array<real>, i: nat, v: Vec3, ghost prefix: seq<real>)
    requires 3 * i + 3 <= a.Length && a[..3 * i] == prefix
    modifies a
    ensures a[..3 * i + 3] == prefix + [v.x, v.y, v.z]
    ensures a[3 * i + 3..] == old(a[3 * i + 3..])
  {
    a[3 * i] := v.x;
    a[3 * i + 1] := v.y;
    a[3 * i + 2] := v.z;
    assert a[..3 * i + 3] == a[..3 * i] + [v.x, v.y, v.z];
  }

  /** One loop step's writes to the three position buffers. */
  method PutParticle(pos: array<real>, scatter: array<real>, tree: array<real>, i: nat, s: Vec3, t: Vec3,
                     ghost sPrefix: seq<real>, ghost tPrefix: seq<real>)
    requires pos != scatter && pos != tree && scatter != tree
    requires 3 * i + 3 <= pos.Length && 3 * i + 3 <= scatter.Length && 3 * i + 3 <= tree.Length
    requires pos[..3 * i] == sPrefix && scatter[..3 * i] == sPrefix && tree[..3 * i] == tPrefix
    modifies pos, scatter, tree
    ensures scatter[..3 * i + 3] == sPrefix + [s.x, s.y, s.z]
    ensures tree[..3 * i + 3] == tPrefix + [t.x, t.y, t.z]
    ensures pos[..3 * i + 3] == sPrefix + [s.x, s.y, s.z]
    ensures scatter[3 * i + 3..] == old(scatter[3 * i + 3..])
    ensures tree[3 * i + 3..] == old(tree[3 * i + 3..])
    ensures pos[3 * i + 3..] == old(pos[3 * i + 3..])
  {
    PutVec(scatter, i, s, sPrefix);
    PutVec(tree, i, t, tPrefix);
    PutVec(pos, i, s, sPrefix);
  }

  /** One iteration of the fill loop: sample particle i and write its slots in all four
      buffers. */
  method FillParticle(pos: array<real>, scatter: array<real>, tree: array<real>, rands: array<real>,
                      draws: seq<ParticleDraws>, i: nat, f: Transcendentals)
    requires pos != scatter && pos != tree && scatter != tree
    requires rands != pos && rands != scatter && rands != tree
    requires i < |draws| && rands.Length == |draws|
    requires pos.Length == 3 * |draws| && scatter.Length == 3 * |draws| && tree.Length == 3 * |draws|
    requires scatter[..3 * i] == Flatten(Scatters(draws[..i], f))
    requires tree[..3 * i] == Flatten(Trees(draws[..i], f))
    requires pos[..3 * i] == Flatten(Scatters(draws[..i], f))
    requires rands[..i] == Randoms(draws[..i])
    modifies pos, scatter, tree, rands
    ensures scatter[..3 * (i + 1)] == Flatten(Scatters(draws[..i + 1], f))
    ensures tree[..3 * (i + 1)] == Flatten(Trees(draws[..i + 1], f))
    ensures pos[..3 * (i + 1)] == Flatten(Scatters(draws[..i + 1], f))
    ensures rands[..i + 1] == Randoms(draws[..i + 1])
    ensures scatter[3 * (i + 1)..] == old(scatter[3 * (i + 1)..])
    ensures tree[3 * (i + 1)..] == old(tree[3 * (i + 1)..])
    ensures pos[3 * (i + 1)..] == old(pos[3 * (i + 1)..])
    ensures rands[i + 1..] == old(rands[i + 1..])
  {
    var s := ScatterOf(draws[i], f);
    var t := TreeOf(draws[i], f);
    ghost var rs := rands[..i];
    SampledSnoc(draws, i, d => ScatterOf(d, f));
    SampledSnoc(draws, i, d => TreeOf(d, f));
    RandomsSnoc(draws, i);
    PutParticle(pos, scatter, tree, i, s, t, Flatten(Scatters(draws[..i], f)), Flatten(Trees(draws[..i], f)));
    rands[i] := draws[i].random;
    assert rands[..i + 1] == rs + [draws[i].random];
  }

  /** The memoised buffers: `scatter` and `tree` hold every particle's sampled positions in
      attribute layout, the initial `position` buffer is a copy of `scatter`, and `randoms`
      holds each particle's own draw. */
  method BuildGeometry(count: nat, draws: seq<ParticleDraws>, f: Transcendentals)
    returns (positions: array<real>, scatterPositions: array<real>, treePositions: array<real>, randoms: array<real>)
    requires |draws| == count
    ensures fresh(positions) && fresh(scatterPositions) && fresh(treePositions) && fresh(randoms)
    ensures scatterPositions[..] == Flatten(Scatters(draws, f))
    ensures treePositions[..] == Flatten(Trees(draws, f))
    ensures positions[..] == scatterPositions[..]
    ensures randoms[..] == Randoms(draws)
  {
    var pos := new real[count * 3](_ => 0.0);
    var scatter := new real[count * 3](_ => 0.0);
    var tree := new real[count * 3](_ => 0.0);
    var rands := new real[count](_ => 0.0);
    var i := 0;
    while i < count
      invariant 0 <= i <= count
      invariant scatter[..3 * i] == Flatten(Scatters(draws[..i], f))
      invariant tree[..3 * i] == Flatten(Trees(draws[..i], f))
      invariant pos[..3 * i] == Flatten(Scatters(draws[..i], f))
      invariant rands[..i] == Randoms(draws[..i])
    {
      FillParticle(pos, scatter, tree, rands, draws, i, f);
      i := i + 1;
    }
    assert draws[..count] == draws;
    assert pos[..] == pos[..3 * count];
    assert scatter[..] == scatter[..3 * count];
    assert tree[..] == tree[..3 * count];
    assert rands[..] == rands[..count];
    return pos, scatter, tree, rands;
  }

  // ---------------------------------------------------------------------------------------
  // Vertex shader
  // ---------------------------------------------------------------------------------------

  /** The vertex shader's position before projection: the eased progress mixes scatter and
      tree positions, then a shared breathing noise moves all three axes and a float term,
      damped as the tree assembles, moves y. The shader's `ease` is easeInOutCubic. */
  function VertexPosition(scatter: Vec3, tree: Vec3, random: real, time: real, progress: real, f: Transcendentals): Vec3
  {
    var t := EaseInOutCubic(progress);
    var p := LerpVec(scatter, tree, t);
    var noise := f.sin(time * 2.0 + random * 10.0) * 0.1;
    var floatY := f.sin(time * 0.5 + random * 5.0) * (0.2 * (1.0 - t));
    Vec3(p.x + noise * 0.5, p.y + floatY + noise * 0.5, p.z + noise * 0.5)
  }

  /** sin stays in [-1, 1] at one angle. */
  predicate SinBounded(f: Transcendentals, a: real)
  {
    -1.0 <= f.sin(a) <= 1.0
  }

  /** |s * a| <= a for |s| <= 1 and a >= 0. */
  lemma ScaledSin(s: real, a: real)
    requires -1.0 <= s <= 1.0 && 0.0 <= a
    ensures -a <= s * a <= a
  {
    MulNonneg(1.0 - s, a);
    MulNonneg(1.0 + s, a);
  }

  /** The shader's offsets from the eased mix, as values: breathing s1 * 0.1 * 0.5 on every
      axis, plus the float term s2 * damp on y. */
  lemma Breathing(p: Vec3, base: Vec3, s1: real, s2: real, damp: real)
    requires -1.0 <= s1 <= 1.0 && -1.0 <= s2 <= 1.0 && 0.0 <= damp
    requires p == Vec3(base.x + s1 * 0.1 * 0.5, base.y + s2 * damp + s1 * 0.1 * 0.5, base.z + s1 * 0.1 * 0.5)
    ensures -0.05 <= p.x - base.x <= 0.05 && -0.05 <= p.z - base.z <= 0.05
    ensures -0.05 - damp <= p.y - base.y <= 0.05 + damp
  {
    ScaledSin(s1, 0.05);
    assert s1 * 0.1 * 0.5 == s1 * 0.05;
    ScaledSin(s2, damp);
  }

  /** With progress in [0, 1], every particle stays within 0.05 of the eased mix on x and z,
      and within 0.05 + 0.2 (1 - t) on y; once fully assembled (progress 1) only the 0.05
      breathing is left around the tree position. */
  lemma VertexDisplacement(scatter: Vec3, tree: Vec3, random: real, time: real, progress: real, f: Transcendentals)
    requires 0.0 <= progress <= 1.0
    requires SinBounded(f, time * 2.0 + random * 10.0) && SinBounded(f, time * 0.5 + random * 5.0)
    ensures var t := EaseInOutCubic(progress);
      var base := LerpVec(scatter, tree, t);
      var p := VertexPosition(scatter, tree, random, time, progress, f);
      && -0.05 <= p.x - base.x <= 0.05
      && -0.05 <= p.z - base.z <= 0.05
      && -0.05 - 0.2 * (1.0 - t) <= p.y - base.y <= 0.05 + 0.2 * (1.0 - t)
    ensures progress == 1.0 ==>
      var p := VertexPosition(scatter, tree, random, time, progress, f);
      && -0.05 <= p.x - tree.x <= 0.05 && -0.05 <= p.y - tree.y <= 0.05 && -0.05 <= p.z - tree.z <= 0.05
  {
    var t := EaseInOutCubic(progress);
    EaseUnitRange(progress);
    var s1 := f.sin(time * 2.0 + random * 10.0);
    var s2 := f.sin(time * 0.5 + random * 5.0);
    var base := LerpVec(scatter, tree, t);
    var p := VertexPosition(scatter, tree, random, time, progress, f);
    Breathing(p, base, s1, s2, 0.2 * (1.0 - t));
    if progress == 1.0 {
      EaseEndpoints();
      assert t == 1.0;
      assert LerpVec(scatter, tree, t) == tree;
    }
  }

  // ---------------------------------------------------------------------------------------
  // Frame update
  // ---------------------------------------------------------------------------------------

  /** The shader material's two animated uniforms. */
  class FoliageMaterial {
    var time: real
    var progress: real

    constructor ()
      ensures time == 0.0 && progress == 0.0
    {
      time := 0.0;
      progress := 0.0;
    }

    /** The frame callback: the clock goes into `uTime`, and `uProgress` lerps toward the
        scene's morph state by `delta * 1.5`. */
    method Frame(treeState: MorphState, elapsed: real, delta: real)
      modifies this
      ensures time == elapsed
      ensures progress == Lerp(old(progress), TargetProgress(treeState), delta * TransitionSpeed)
    {
      time := elapsed;
      var target := if treeState == TreeShape then 1.0 else 0.0;
      progress := Lerp(progress, target, delta * TransitionSpeed);
    }
  }

  /** For frames no longer than 2/3 s the progress uniform stays in [0, 1] and moves toward its
      target; a longer frame overshoots the target. */
  lemma ProgressStep(p: real, treeState: MorphState, delta: real)
    requires 0.0 <= p <= 1.0 && 0.0 <= delta
    ensures var q := Lerp(p, TargetProgress(treeState), delta * TransitionSpeed);
      && (delta * TransitionSpeed <= 1.0 ==> 0.0 <= q <= 1.0 && Between(q, p, TargetProgress(treeState)))
      && (delta * TransitionSpeed > 1.0 && p != TargetProgress(treeState) ==> !(0.0 <= q <= 1.0))
  {
    var target := TargetProgress(treeState);
    var factor := delta * TransitionSpeed;
    if factor <= 1.0 {
      LerpNoOvershoot(p, target, factor);
    } else if p != target {
      LerpOvershoot(p, target, factor);
    }
  }
}
