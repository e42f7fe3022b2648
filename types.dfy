/** The value types of the scene (types.ts), plus the Option wrapper used throughout. */
module SceneTypes {

  datatype Option<+T> = None | Some(value: T)

  /** TreeMorphState: the discrete scene mode. */
  datatype MorphState = Scattered | TreeShape

  /** GestureType: the discrete hand gestures. */
  datatype Gesture = NoGesture | OpenPalm | Fist | Grab

  /** HandPosition: the wrist, centred and Y-up, roughly in [-1, 1]. */
  datatype HandPosition = HandPosition(x: real, y: real)

  /** A three.js `[number, number, number]` triple or Vector3. */
  datatype Vec3 = Vec3(x: real, y: real, z: real)

  /** DualPosition: the two precomputed positions of an entity. */
  datatype DualPosition = DualPosition(tree: Vec3, scatter: Vec3)

  /** The ornament kinds an Ornaments mesh is built for ('star' is declared but never built). */
  datatype OrnamentKind = Gift | Bauble

  /** A three.js object's position, Euler rotation and uniform scale. */
  datatype Transform = Transform(position: Vec3, rotation: Vec3, scale: real)

  /** The progress value a morph state pulls the animations toward: 1 for the tree, 0 when
      scattered. */
  function TargetProgress(s: MorphState): real
  {
    if s == TreeShape then 1.0 else 0.0
  }
}
