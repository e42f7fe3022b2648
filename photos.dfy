/** Photos.tsx: five photo frames. Each frame every photo eases toward a goal chosen from the
    morph state, the zoom flag and the hand position; while zoomed, photo 2 comes forward and
    follows the hand, and the others shrink away. */
module Photos {
  import opened SceneTypes
  import opened ThreeMath
  import opened MathUtils

  const PhotoUrls: seq<string> := [
    "https://images.unsplash.com/photo-1512909006721-3d6018887383?auto=format&fit=crop&w=600&q=80",
    "https://images.unsplash.com/photo-1543589077-47d81606c1bf?auto=format&fit=crop&w=600&q=80",
    "https://images.unsplash.com/photo-1482049016688-2d3e1b311543?auto=format&fit=crop&w=600&q=80",
    "https://images.unsplash.com/photo-1576919228236-a097c32a5cd4?auto=format&fit=crop&w=600&q=80",
    "https://images.unsplash.com/photo-1513297887119-d46091b24bfa?auto=format&fit=crop&w=600&q=80"
  ]

  const ScatterRadius := 12.0
  /** The photos' stored tree position, far below the scene; the frame update never reads it. */
  const ParkedTreePosition := Vec3(0.0, -50.0, 0.0)
  /** The photo that comes forward while zoomed. */
  const ActivePhotoIndex := 2

  /** PhotoData (types.ts). */
  datatype PhotoData = PhotoData(id: nat, url: string, position: DualPosition, rotation: Vec3)

  /** The `Math.random()` draws of one photo, in call order. */
  datatype PhotoDraws = PhotoDraws(sphere: SphereDraws, rotX: real, rotY: real)

  /** Photo i with its url and draws: a scatter position in the radius-12 sphere, a tilt of
      draw * 0.5 - 0.25 on x and y. */
  function MakePhoto(i: nat, url: string, d: PhotoDraws, f: Transcendentals): (p: PhotoData)
    ensures p.id == i && p.url == url && p.position.tree == ParkedTreePosition
    ensures 0.0 <= d.rotX < 1.0 ==> -0.25 <= p.rotation.x < 0.25
    ensures 0.0 <= d.rotY < 1.0 ==> -0.25 <= p.rotation.y < 0.25
    ensures p.rotation.z == 0.0
  {
    PhotoData(i, url, DualPosition(ParkedTreePosition, SpherePosition(ScatterRadius, d.sphere, f)),
              Vec3(d.rotX * 0.5 - 0.25, d.rotY * 0.5 - 0.25, 0.0))
  }

  /** The memoised photo list: one photo per url, in order. */
  function MakePhotos(draws: seq<PhotoDraws>, f: Transcendentals): (ps: seq<PhotoData>)
    requires |draws| == |PhotoUrls|
    ensures |ps| == |PhotoUrls|
    ensures forall i :: 0 <= i < |ps| ==> ps[i] == MakePhoto(i, PhotoUrls[i], draws[i], f)
  {
    seq(|PhotoUrls|, i requires 0 <= i < |PhotoUrls| => MakePhoto(i, PhotoUrls[i], draws[i], f))
  }

  /** Every photo's scatter position lies inside the radius-12 sphere. */
  lemma PhotosInsideSphere(draws: seq<PhotoDraws>, f: Transcendentals, i: nat)
    requires |draws| == |PhotoUrls| && i < |PhotoUrls|
    requires 0.0 <= f.cbrt(draws[i].sphere.w) <= 1.0
    requires Pythagorean(f, SphereTheta(draws[i].sphere, f)) && Pythagorean(f, SpherePhi(draws[i].sphere, f))
    ensures var s := MakePhotos(draws, f)[i].position.scatter;
      s.x * s.x + s.y * s.y + s.z * s.z <= ScatterRadius * ScatterRadius
  {
    SphereInside(ScatterRadius, draws[i].sphere, f);
  }

  // ---------------------------------------------------------------------------------------
  // Goals
  // ---------------------------------------------------------------------------------------

  /** What a photo eases toward in one frame, and the lerp factor per second. */
  datatype Goal = Goal(position: Vec3, scale: real, rotation: Vec3, speed: real)

  /** Photo i's goal. Not zoomed: its scatter position and tilt at speed 2, full size 1.2 while
      scattered and shrunk to 0 in the tree. Zoomed: photo 2 goes to (3 hx, 4 + 3 hy, 16),
      tilts with the hand and grows to 3.5 at speed 3; the others keep their position and tilt
      and shrink to 0 at speed 4. */
  function PhotoGoal(photo: PhotoData, i: nat, isTree: bool, isZoomed: bool, hand: HandPosition): Goal
  {
    if isZoomed && i == ActivePhotoIndex then
      Goal(Vec3(hand.x * 3.0, 4.0 + hand.y * 3.0, 16.0), 3.5, Vec3(hand.y * 0.2, -hand.x * 0.2, 0.0), 3.0)
    else if isZoomed then
      Goal(photo.position.scatter, 0.0, photo.rotation, 4.0)
    else
      Goal(photo.position.scatter, if isTree then 0.0 else 1.2, photo.rotation, 2.0)
  }

  /** Replacing a photo's stored tree position changes no goal: the tree position is never read. */
  lemma GoalIgnoresTreePosition(photo: PhotoData, tree: Vec3, i: nat, isTree: bool, isZoomed: bool, hand: HandPosition)
    ensures var moved := photo.(position := photo.position.(tree := tree));
      PhotoGoal(moved, i, isTree, isZoomed, hand) == PhotoGoal(photo, i, isTree, isZoomed, hand)
  {
  }

  /** While zoomed the morph state is irrelevant and only the active photo is visible: it goes
      to (3 hx, 4 + 3 hy, 16), tilts by (0.2 hy, -0.2 hx, 0) and grows to 3.5 at speed 3, a
      goal that depends on the hand alone; every other photo keeps its scatter position and
      stored tilt and shrinks to 0 at speed 4. */
  lemma ZoomedGoals(photo: PhotoData, other: PhotoData, i: nat, isTree: bool, hand: HandPosition)
    ensures PhotoGoal(photo, i, isTree, true, hand) == PhotoGoal(photo, i, !isTree, true, hand)
    ensures PhotoGoal(photo, ActivePhotoIndex, isTree, true, hand)
         == Goal(Vec3(hand.x * 3.0, 4.0 + hand.y * 3.0, 16.0), 3.5, Vec3(hand.y * 0.2, -hand.x * 0.2, 0.0), 3.0)
    ensures PhotoGoal(photo, ActivePhotoIndex, isTree, true, hand) == PhotoGoal(other, ActivePhotoIndex, isTree, true, hand)
    ensures i != ActivePhotoIndex ==>
      PhotoGoal(photo, i, isTree, true, hand) == Goal(photo.position.scatter, 0.0, photo.rotation, 4.0)
  {
  }

  /** Not zoomed, every photo heads for its own scatter position and tilt; the tree hides them
      (scale 0) and the scattered state shows them at 1.2. */
  lemma UnzoomedGoals(photo: PhotoData, i: nat, isTree: bool, hand: HandPosition)
    ensures var g := PhotoGoal(photo, i, isTree, false, hand);
      && g.position == photo.position.scatter && g.rotation == photo.rotation && g.speed == 2.0
      && g.scale == (if isTree then 0.0 else 1.2)
  {
  }

  // ---------------------------------------------------------------------------------------
  // One frame for one photo
  // ---------------------------------------------------------------------------------------

  /** The photo that follows the hand this frame. */
  predicate Focused(i: nat, isZoomed: bool)
  {
    isZoomed && i == ActivePhotoIndex
  }

  /** The rotation step: the focused photo lerps straight to its goal tilt at the goal's speed;
      every other photo lerps by `delta` toward its tilt plus a small wobble on x and y. */
  function RotationStep(current: Vec3, goal: Goal, i: nat, isZoomed: bool, time: real, delta: real, f: Transcendentals): Vec3
  {
    if !Focused(i, isZoomed) then
      Vec3(Lerp(current.x, goal.rotation.x + f.sin(time * 0.5 + i as real) * 0.05, delta),
           Lerp(current.y, goal.rotation.y + f.cos(time * 0.3 + i as real) * 0.05, delta),
           Lerp(current.z, goal.rotation.z, delta))
    else
      LerpVec(current, goal.rotation, delta * goal.speed)
  }

  /** Child i's transform after one frame: position and scale lerp toward the goal by
      `delta * speed`, and the rotation follows RotationStep. */
  function PhotoStep(child: Transform, photo: PhotoData, i: nat, isTree: bool, isZoomed: bool, hand: HandPosition,
                     time: real, delta: real, f: Transcendentals): Transform
  {
    var g := PhotoGoal(photo, i, isTree, isZoomed, hand);
    Transform(LerpVec(child.position, g.position, delta * g.speed),
              RotationStep(child.rotation, g, i, isZoomed, time, delta, f),
              Lerp(child.scale, g.scale, delta * g.speed))
  }

  /** For a frame short enough that `delta * speed` stays at most 1 for the photo's own speed,
      its position and scale land between where they were and their goal: no overshoot. */
  lemma PhotoStepNoOvershoot(child: Transform, photo: PhotoData, i: nat, isTree: bool, isZoomed: bool,
                             hand: HandPosition, time: real, delta: real, f: Transcendentals)
    requires 0.0 <= delta && delta * PhotoGoal(photo, i, isTree, isZoomed, hand).speed <= 1.0
    ensures var g := PhotoGoal(photo, i, isTree, isZoomed, hand);
      var next := PhotoStep(child, photo, i, isTree, isZoomed, hand, time, delta, f);
      && Between(next.position.x, child.position.x, g.position.x)
      && Between(next.position.y, child.position.y, g.position.y)
      && Between(next.position.z, child.position.z, g.position.z)
      && Between(next.scale, child.scale, g.scale)
  {
    var g := PhotoGoal(photo, i, isTree, isZoomed, hand);
    MulNonneg(delta, g.speed);
    LerpVecNoOvershoot(child.position, g.position, delta * g.speed);
    LerpNoOvershoot(child.scale, g.scale, delta * g.speed);
  }

  /** An unfocused photo's rotation goal is its tilt moved by at most 0.05 on x and y: with
      delta in [0, 1] the new rotation lies between the old one and a point within 0.05 of the
      tilt. */
  lemma WobbleBounded(child: Transform, photo: PhotoData, i: nat, isTree: bool, isZoomed: bool,
                      hand: HandPosition, time: real, delta: real, f: Transcendentals)
    requires !Focused(i, isZoomed) && 0.0 <= delta <= 1.0
    requires -1.0 <= f.sin(time * 0.5 + i as real) <= 1.0 && -1.0 <= f.cos(time * 0.3 + i as real) <= 1.0
    ensures var next := PhotoStep(child, photo, i, isTree, isZoomed, hand, time, delta, f).rotation;
      && (exists wx :: photo.rotation.x - 0.05 <= wx <= photo.rotation.x + 0.05 && Between(next.x, child.rotation.x, wx))
      && (exists wy :: photo.rotation.y - 0.05 <= wy <= photo.rotation.y + 0.05 && Between(next.y, child.rotation.y, wy))
      && Between(next.z, child.rotation.z, photo.rotation.z)
  {
    var g := PhotoGoal(photo, i, isTree, isZoomed, hand);
    assert g.rotation == photo.rotation;
    var wx := photo.rotation.x + f.sin(time * 0.5 + i as real) * 0.05;
    var wy := photo.rotation.y + f.cos(time * 0.3 + i as real) * 0.05;
    LerpNoOvershoot(child.rotation.x, wx, delta);
    LerpNoOvershoot(child.rotation.y, wy, delta);
    LerpNoOvershoot(child.rotation.z, photo.rotation.z, delta);
  }

  // ---------------------------------------------------------------------------------------
  // The group
  // ---------------------------------------------------------------------------------------

  /** The photo list and the group's five child transforms. */
  class PhotoGroup {
    const photos: seq<PhotoData>
    const children: array<Transform>

    ghost predicate Valid()
      reads this
    {
      |photos| == |PhotoUrls| && children.Length == |photos|
    }

    /** Mounting: each child starts at its photo's scatter position, unrotated, at scale 1. */
    constructor (draws: seq<PhotoDraws>, f: Transcendentals)
      requires |draws| == |PhotoUrls|
      ensures Valid() && fresh(children)
      ensures photos == MakePhotos(draws, f)
      ensures forall i :: 0 <= i < |photos| ==>
        children[i] == Transform(photos[i].position.scatter, Vec3(0.0, 0.0, 0.0), 1.0)
    {
      var ps := MakePhotos(draws, f);
      photos := ps;
      children := new Transform[|PhotoUrls|](i requires 0 <= i < |PhotoUrls| =>
        Transform(ps[i].position.scatter, Vec3(0.0, 0.0, 0.0), 1.0));
    }

    /** The frame callback: every child takes one PhotoStep. */
    method Frame(treeState: MorphState, isZoomed: bool, hand: HandPosition, elapsed: real, delta: real, f: Transcendentals)
      requires Valid()
      modifies children
      ensures Valid()
      ensures forall i :: 0 <= i < children.Length ==>
        children[i] == PhotoStep(old(children[i]), photos[i], i, treeState == TreeShape, isZoomed, hand, elapsed, delta, f)
    {
      var isTree := treeState == TreeShape;
      for i := 0 to children.Length
        invariant forall k :: 0 <= k < i ==>
          children[k] == PhotoStep(old(children[k]), photos[k], k, isTree, isZoomed, hand, elapsed, delta, f)
        invariant forall k :: i <= k < children.Length ==> children[k] == old(children[k])
      {
        children[i] := PhotoStep(children[i], photos[i], i, isTree, isZoomed, hand, elapsed, delta, f);
      }
    }
  }
}
