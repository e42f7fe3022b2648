# Holiday tree scene: a verified model of its logic

The scene is a React/three.js page. A cloud of foliage particles, two instanced meshes of
ornaments (gifts and baubles) and five photo frames morph between a scattered sphere and a
cone-shaped tree. The user drives the morph with hand gestures seen by a webcam, and a song
plays with time-synchronised LRC lyrics. This project models the logic behind that
behaviour in Dafny:

- **`SceneTypes`** (`types.dfy`) holds the scene's enums and records: morph state, gesture
  type, hand position, dual position, ornament kind and instance transform.
- **`ThreeMath`** (`three_math.dfy`) holds three.js `MathUtils.lerp` and `Vector3.lerp`.
  It proves that they do not overshoot for factors in [0, 1], that they do overshoot for
  factors above 1, and that a heavier group lags a lighter one. It also holds five general
  real-arithmetic lemmas (`MulNonneg`, `MulPos`, `DivStrict`, `SquareNonneg`,
  `DivMonotone`) that the lerp and bound proofs in the other modules call; they model
  nothing of the scene and have no row below.
- **`MathUtils`** (`math_utils.dfy`) covers `utils/math.ts`:
  - the sphere and cone samplers, with the random draws and the transcendental functions
    passed in as parameters;
  - `easeInOutCubic`, with its endpoints, monotonicity, range and symmetry.
- **`Lrc`** (`lyrics.dfy`) covers `parseLrc` and the lyric lookup from `App.tsx`:
  - line splitting;
  - a hand-written matcher for the `[mm:ss]`, `[mm:ss.xx]` and `[mm:ss.xxx]` tag, found
    anywhere in a line;
  - digit parsing and trimming;
  - the per-line push loop;
  - the stable sort by time;
  - the intro entries prepended by the loader;
  - "last entry at or before the playback time".
- **`AppState`** (`app.dfy`) is the `App` component's state as a class. It holds the
  morph/zoom transition table, the fallback lyrics, the lyric loading and the playback
  lyric update.
- **`GestureHandler`** (`gesture_handler.dfy`) covers:
  - the wrist-to-hand-position mapping;
  - the distance-based classifier with its precedence and strict thresholds;
  - the edge-triggered reporter, which never reports NONE;
  - the per-frame analysis, as a class holding the last reported gesture.
- **`Foliage`** (`foliage.dfy`) covers:
  - the buffer-fill loop over four arrays, with xyz interleaved at 3i..3i+2;
  - the vertex shader's position as a function;
  - the frame update of the shader's progress.
- **`Ornaments`** (`ornaments.dfy`) covers the item generation loop and the mesh's frame
  update:
  - the progress lerp with a per-kind speed;
  - the noise gated on raw progress;
  - the position, rotation and scale written for every instance.
- **`Photos`** (`photos.dfy`) covers:
  - the five photos' generation;
  - the target table (zoomed active photo, other photos, unzoomed);
  - the per-child lerp step for position, scale and rotation.

Numbers are Dafny `real`s, which are exact. Each `Math.random()` call is an input: a record
of the draws a sampler consumes, in call order. `Math.PI`, `sin`, `cos`, `acos`, `sqrt` and
`cbrt` are the fields of a `Transcendentals` record of uninterpreted functions, and
`Math.hypot` is a function parameter. A lemma that needs a range of one of these functions
(for example `-1 <= sin a <= 1`, or `sin² + cos² = 1` at one angle) states it as a
precondition for the angle it uses.

Two behaviours of the code are easy to misread:

- **Noise gate.** The code adds the ornaments' floating noise while the *raw* progress is
  below 0.9 (`components/Ornaments.tsx:77`), not the eased progress.
- **Smoothing.** Progress moves by `lerp(p, target, delta * speed)`
  (`components/Foliage.tsx:128-132`, `components/Ornaments.tsx:68`), not by exponential
  smoothing. The result stays between p and the target only while `delta * speed <= 1`,
  and it overshoots when the frame is longer than that (`Foliage.ProgressStep`,
  `ThreeMath.LerpOvershoot`).

A two-digit lyric fraction is read as thousandths (`.50` gives 0.05 s), as the code reads it
(`Lrc.TwoDigitFraction`). The per-ornament `weight` is generated and stored but never read
by the frame update (`components/Ornaments.tsx:39`), so it plays no part in the modelled
motion either.

## Model

| member | source | states |
|---|---|---|
| SceneTypes.TargetProgress | components/Foliage.tsx:127 | definition (no contract); properties stated by Foliage.FoliageMaterial.Frame, Foliage.ProgressStep and Ornaments.OrnamentMesh.Frame: 1 in TREE_SHAPE, 0 otherwise |
| ThreeMath.Lerp | components/Foliage.tsx:128-132 | definition (no contract); properties stated by ThreeMath.LerpNoOvershoot, LerpUnitProgress, LerpLag, LerpOvershoot and RepeatedDistance |
| ThreeMath.LerpVec | components/Ornaments.tsx:88 | definition (no contract); properties stated by ThreeMath.LerpVecNoOvershoot and LerpVecEnds |
| ThreeMath.LerpNoOvershoot | components/Ornaments.tsx:68 | with factor in [0, 1] a lerp lands between start and target, and the remaining distance shrinks by exactly (1 - factor) |
| ThreeMath.LerpVecNoOvershoot | components/Photos.tsx:76 | `Vector3.lerp` with factor in [0, 1] keeps every coordinate between the current and the target coordinate |
| ThreeMath.LerpUnitProgress | components/Ornaments.tsx:63-68 | a progress in [0, 1] lerped toward target 0 or 1 with factor in [0, 1] stays in [0, 1] and moves monotonically toward the target |
| ThreeMath.LerpLag | components/Ornaments.tsx:66-68 | a group that is behind and has a smaller factor stays behind (or level) after the step toward 1 |
| ThreeMath.LerpOvershoot | components/Foliage.tsx:128-132 | with factor above 1 and start different from the target, the lerp passes the target on the far side |
| ThreeMath.RepeatedDistance | components/Foliage.tsx:128-132 | after n frames with a fixed factor, the distance to the target is (1 - factor)^n times the initial distance |
| ThreeMath.LerpVecEnds | components/Ornaments.tsx:88 | `lerpVectors` returns the first vector at 0 and the second at 1 |
| MathUtils.SpherePosition | utils/math.ts:4-16 | definition (no contract); properties stated by MathUtils.SphereRadiusBounds and SphereInside |
| MathUtils.SphereRadiusBounds | utils/math.ts:9 | with cbrt of the third draw in [0, 1], the radial factor lies in [0, radius] |
| MathUtils.SphereInside | utils/math.ts:4-16 | with sin² + cos² = 1 at theta and phi, the sampled point's squared norm is r² and at most radius², so the point lies inside the sphere |
| MathUtils.ConePosition | utils/math.ts:19-32 | definition (no contract); properties stated by MathUtils.ConeHeightBounds, RadiusAtBounds, ConeRadialBounds and ConeInside |
| MathUtils.ConeHeightBounds | utils/math.ts:20-29 | for a draw in [0, 1), the returned y lies in [yOffset - height/2, yOffset + height/2) |
| MathUtils.RadiusAtBounds | utils/math.ts:21 | the radius at height y is baseRadius at the base and 0 at the apex, decreases with y within [0, baseRadius], and is strictly positive below the apex |
| MathUtils.ConeRadialBounds | utils/math.ts:25 | with sqrt of the draw in [0, 1], the radial distance lies in [0, radiusAtY] and radiusAtY is positive |
| MathUtils.ConeInside | utils/math.ts:19-32 | with sin² + cos² = 1 at theta, the sampled point lies inside the cone's cross-section at its own height |
| MathUtils.EaseInOutCubic | utils/math.ts:35-37 | definition (no contract); properties stated by MathUtils.EaseEndpoints, EaseMonotone, EaseUnitRange and EaseSymmetric |
| MathUtils.EaseEndpoints | utils/math.ts:35-37 | easeInOutCubic maps 0 to 0, 0.5 to 0.5 and 1 to 1 |
| MathUtils.EaseMonotone | utils/math.ts:35-37 | easeInOutCubic is non-decreasing on all reals, across the branch switch at 0.5 |
| MathUtils.EaseUnitRange | utils/math.ts:35-37 | easeInOutCubic maps [0, 1] into [0, 1] |
| MathUtils.EaseSymmetric | utils/math.ts:36 | ease(1 - t) = 1 - ease(t) for every t |
| Lrc.SplitLines | App.tsx:26 | `split('\n')` yields at least one piece, and no piece contains a newline |
| Lrc.JoinSplit | App.tsx:26 | joining the pieces of a split with newlines gives back the text |
| Lrc.SplitJoin | App.tsx:26 | splitting newline-free pieces joined with newlines gives back the pieces |
| Lrc.SplitNoNewline | App.tsx:26 | a text without a newline splits into itself alone |
| Lrc.SplitPrefix | App.tsx:26 | a newline-free first line followed by a newline splits off as the first piece |
| Lrc.TrimStart | App.tsx:38 | the result is a suffix of the input, everything dropped is white space, and the result does not start with white space |
| Lrc.TrimEnd | App.tsx:38 | the result is a prefix of the input, everything dropped is white space, and the result does not end with white space |
| Lrc.Trim | App.tsx:38 | definition (no contract); properties stated by Lrc.TrimSpec, TrimSlice and TrimEmpty |
| Lrc.TrimSpec | App.tsx:38 | `trim()` gives the empty string iff the input is all white space; otherwise the result is a slice of the input with no white space at either end |
| Lrc.TrimSlice | App.tsx:38 | the trimmed text is the contiguous slice of the input that starts after the leading white space |
| Lrc.TrimEmpty | App.tsx:38 | trimming leaves nothing exactly when every character is white space |
| Lrc.ParseDigits | App.tsx:33-35 | `parseInt` of an n-digit string is below 10^n |
| Lrc.ParseDigitsLeading | App.tsx:33-35 | `parseInt` reads digits positionally: a leading digit d before n more digits adds d·10^n to their value, so a leading zero changes nothing |
| Lrc.MatchAt | App.tsx:28 | a match at i starts at i and ends within the line, at least seven characters on |
| Lrc.FindTagFrom | App.tsx:31 | `exec` returns the leftmost position that matches, and no match means no position matches |
| Lrc.MatchAtTagText | App.tsx:28 | every well-formed `[mm:ss]`, `[mm:ss.xx]` or `[mm:ss.xxx]` text is matched where it stands, with its digit groups read back |
| Lrc.MatchAtIsTagText | App.tsx:28 | whatever the matcher accepts is exactly the text of a well-formed tag, and its numbers are that tag's digit groups |
| Lrc.ParseLine | App.tsx:31-41 | definition (no contract); properties stated by Lrc.ParseLineSpec, ParseTaggedLine, FractionIsThousandths, TwoDigitFraction and OnlyFirstTagRemoved |
| Lrc.ParseLineSpec | App.tsx:30-42 | a line yields an entry iff it has a first tag and the text left after removing that tag is not all white space; the entry's time is that tag's time and its text is the trimmed line with that tag cut out, wherever the tag stands |
| Lrc.ParseTaggedLine | App.tsx:31-41 | a line that starts with a tag yields (minutes·60 + seconds + fraction/1000, trimmed rest), or nothing when the rest is blank |
| Lrc.FractionIsThousandths | App.tsx:33-37 | any fraction, two or three digits, is read as thousandths of a second |
| Lrc.TwoDigitFraction | App.tsx:35-37 | `.xx` and `.xx0` differ by 9·xx/1000 s: a two-digit fraction is not read as hundredths |
| Lrc.OnlyFirstTagRemoved | App.tsx:31-38 | in a line with two leading tags, the time comes from the first and the second tag stays at the head of the text |
| Lrc.Pushed | App.tsx:30-43 | the `forEach`/`push` loop produces at most one entry per line |
| Lrc.PushedSpec | App.tsx:30-43 | every pushed entry is some line's result, and every line's result is pushed |
| Lrc.PushedSingle | App.tsx:30-43 | a single line pushes its own entry, or nothing when it does not parse |
| Lrc.PushedAppend | App.tsx:30-43 | the entries of two blocks of lines are the first block's followed by the second's: one push per parsing line, in line order |
| Lrc.ParsedEntriesSpec | App.tsx:30-43 | every entry comes from a line's parse, and every line that parses contributes its entry |
| Lrc.InsertSorted | App.tsx:46 | inserting into a time-sorted list keeps it sorted |
| Lrc.InsertMultiset | App.tsx:46 | inserting adds exactly the one element |
| Lrc.InsertWithTime | App.tsx:46 | inserting after all the entries that have the same time keeps equal-time entries in arrival order |
| Lrc.SortByTime | App.tsx:46 | definition (no contract); properties stated by Lrc.SortByTimeSpec, SortSorted, SortPermutes and SortStable |
| Lrc.SortByTimeSpec | App.tsx:46 | the sort by time returns a sorted permutation of its input that is stable: for every time, the entries with that time keep their order |
| Lrc.SortSorted | App.tsx:46 | the sort's output is sorted by non-decreasing time |
| Lrc.SortPermutes | App.tsx:46 | the sort's output is a permutation of its input |
| Lrc.SortStable | App.tsx:46 | for any time, the entries with that time appear in the same order before and after the sort |
| Lrc.LrcEntries | App.tsx:25-47 | definition (no contract); properties stated by Lrc.ParseLrc |
| Lrc.ParseLrc | App.tsx:25-47 | the loop and sort yield a time-sorted list with no more entries than lines, holding exactly the entries the lines parse to |
| Lrc.WithIntro | App.tsx:73-79 | an empty parse keeps the current map; a parse whose first time is above 2 gets exactly (0, "...") and (1, "(Listening...)") in front; any other parse is returned unchanged; the result stays sorted |
| Lrc.Reversed | App.tsx:158 | `[...m].reverse()` has index k equal to the original's index n-1-k |
| Lrc.FindAtOrBefore | App.tsx:158 | `find` returns the first index whose time is at or before t, or none iff no such index exists |
| Lrc.ActiveEntry | App.tsx:158 | definition (no contract); properties stated by Lrc.ActiveEntryIsLast, ActiveEntryLatest and NextLyric |
| Lrc.ActiveEntryIsLast | App.tsx:158 | the lookup finds nothing iff every entry is later than t; otherwise it returns the last entry at or before t |
| Lrc.ActiveEntryLatest | App.tsx:158 | on a sorted map the found entry has the greatest time not after t |
| Lrc.NextLyric | App.tsx:159-160 | the displayed lyric becomes the found entry's text, and stays unchanged when nothing is found |
| AppState.Toggled | App.tsx:164-171 | toggling flips the morph state and clears zoom |
| AppState.OnGesture | App.tsx:173-189 | FIST gives TREE_SHAPE and OPEN_PALM gives SCATTERED, both unzoomed; GRAB keeps the state and sets zoom only in SCATTERED (leaving it untouched in TREE_SHAPE); NONE changes nothing |
| AppState.TransitionsKeepZoomInvariant | App.tsx:164-189 | the initial state and every transition keep "zoomed only when scattered" |
| AppState.ToggleTwice | App.tsx:164-171 | toggling twice restores the morph state, unzoomed |
| AppState.GestureIdempotent | App.tsx:173-189 | a gesture repeated has the effect of one |
| AppState.GrabThenFist | App.tsx:173-189 | GRAB zooms from the initial state, FIST then assembles and unzooms, and GRAB in TREE_SHAPE does not zoom |
| AppState.LoadedLyrics | App.tsx:72-85 | a failed fetch keeps the current map; the loaded map stays sorted and non-empty |
| AppState.App.constructor | App.tsx:50-60 | the initial state is scattered, no gesture, hand at the origin, unzoomed, lyric "...", and the fallback lyric map |
| AppState.App.ToggleState | App.tsx:164-171 | the state and zoom fields become the toggled control, keeping the class invariant |
| AppState.App.HandleGesture | App.tsx:173-189 | records the gesture and applies the transition table to state and zoom |
| AppState.App.HandleHandMove | App.tsx:191-193 | stores the reported hand position |
| AppState.App.LoadLyrics | App.tsx:72-82 | replaces the lyric map with the parsed, intro-extended map when the fetch succeeds and the parse is non-empty |
| AppState.App.HandleTimeUpdate | App.tsx:154-162 | without an audio element nothing changes; otherwise the lyric becomes the last entry at or before the playback time |
| GestureHandler.HandPositionOf | components/GestureHandler.tsx:86-87 | wrist coordinates in [0, 1] map into [-1, 1], the video centre maps to (0, 0), and the left and top edges map to 1 |
| GestureHandler.VideoPointOf | components/GestureHandler.tsx:86-87 | the inverse mapping takes [-1, 1] back into [0, 1] |
| GestureHandler.HandPositionRoundTrip | components/GestureHandler.tsx:86-87 | the position mapping and its inverse undo each other in both directions |
| GestureHandler.HandPositionMirrors | components/GestureHandler.tsx:82-87 | the mapping reverses order on both axes: the X mirror and the Y flip |
| GestureHandler.Spread | components/GestureHandler.tsx:98-101 | definition (no contract); properties stated by GestureHandler.Classify and Analyze: the mean wrist distance of the four fingertips |
| GestureHandler.Pinch | components/GestureHandler.tsx:98-102 | definition (no contract); properties stated by GestureHandler.Classify and Analyze: the thumb-to-index distance |
| GestureHandler.Classify | components/GestureHandler.tsx:104-112 | GRAB iff pinch < 0.05; FIST iff no pinch and spread < 0.18; OPEN_PALM iff no pinch and spread > 0.3; NONE iff no pinch and spread in [0.18, 0.3] |
| GestureHandler.ClassifyBoundaries | components/GestureHandler.tsx:106-110 | a pinch wins regardless of spread, and the thresholds themselves trigger nothing |
| GestureHandler.EdgeStep | components/GestureHandler.tsx:114-117 | a report happens iff the detected gesture is not NONE and differs from the last report, and it reports the detected gesture |
| GestureHandler.After | components/GestureHandler.tsx:114-115 | the remembered gesture is the old one or the detected one, and never goes back to NONE |
| GestureHandler.Emissions | components/GestureHandler.tsx:114-117 | over a run of frames there is at most one report per frame |
| GestureHandler.EmissionsSpec | components/GestureHandler.tsx:114-117 | NONE is never reported, the first report differs from the initial memory, consecutive reports differ, the memory ends at the last report, and it is never reset to NONE |
| GestureHandler.HeldGestureReportedOnce | components/GestureHandler.tsx:114-117 | holding one gesture for any number of frames reports it once, or not at all if it is already the last report |
| GestureHandler.FistNoneFist | components/GestureHandler.tsx:114-117 | FIST, NONE, FIST reports FIST once |
| GestureHandler.Analyze | components/GestureHandler.tsx:77-118 | a frame reports the hand position first, before and regardless of classification; with the full 21 landmarks it classifies and applies the edge rule; without landmarks nothing happens |
| GestureHandler.GestureTracker.constructor | components/GestureHandler.tsx:12 | the last gesture starts as NONE |
| GestureHandler.GestureTracker.AnalyzeGestures | components/GestureHandler.tsx:77-118 | the events and the new last gesture are those of the frame analysis |
| GestureHandler.GestureTracker.PredictFrame | components/GestureHandler.tsx:58-75 | a frame without a ready model or without hands reports nothing and leaves the last gesture unchanged; otherwise the first hand is analysed |
| Foliage.Scatters | components/Foliage.tsx:101 | one entry per particle (the length); entry i is `ScatterOf` of draw i, by definition |
| Foliage.Trees | components/Foliage.tsx:102 | one entry per particle (the length); entry i is `TreeOf` of draw i, by definition |
| Foliage.Randoms | components/Foliage.tsx:117 | one entry per particle (the length); entry i is draw i's random value, by definition |
| Foliage.Flatten | components/Foliage.tsx:104-115 | the interleaved buffer has three slots per vector |
| Foliage.FlattenAt | components/Foliage.tsx:104-110 | slots 3i, 3i+1 and 3i+2 hold vector i's x, y and z |
| Foliage.UnflattenFlatten | components/Foliage.tsx:104-110 | reading the interleaved buffer back as vectors gives the vectors written |
| Foliage.PutVec | components/Foliage.tsx:104-106 | writes slots 3i..3i+2 and leaves the slots before and after them as they were |
| Foliage.PutParticle | components/Foliage.tsx:104-115 | writes one particle's scatter, tree and initial position slots, the initial position being the scatter sample, and no later slot |
| Foliage.FillParticle | components/Foliage.tsx:100-118 | one iteration extends all four buffers' filled prefixes by particle i and leaves every later slot unchanged |
| Foliage.BuildGeometry | components/Foliage.tsx:94-120 | fresh buffers hold the interleaved scatter and tree samples, the position buffer equals the scatter buffer, and the randoms buffer holds one draw per particle |
| Foliage.VertexPosition | components/Foliage.tsx:32-44 | definition (no contract); properties stated by Foliage.VertexDisplacement |
| Foliage.VertexDisplacement | components/Foliage.tsx:28-44 | with progress in [0, 1], each particle stays within 0.05 of the eased mix on x and z and within 0.05 + 0.2(1 - t) on y; once assembled, only the 0.05 breathing remains around the tree position |
| Foliage.FoliageMaterial.constructor | components/Foliage.tsx:10-11 | both uniforms start at 0 |
| Foliage.FoliageMaterial.Frame | components/Foliage.tsx:122-134 | the time uniform becomes the clock and the progress moves by lerp toward 1 in TREE_SHAPE and 0 otherwise, with factor delta·1.5 |
| Foliage.ProgressStep | components/Foliage.tsx:127-132 | for delta·1.5 ≤ 1 the new progress stays in [0, 1] between the old progress and the target; above that it leaves [0, 1] |
| Ornaments.Palette | components/Ornaments.tsx:24-26 | each kind has three colours |
| Ornaments.ColorIndex | components/Ornaments.tsx:37 | `floor(draw · 3)` is a valid palette index for a draw in [0, 1) |
| Ornaments.MakeOrnament | components/Ornaments.tsx:32-40 | item i has id i, the requested kind, its weight draw, a colour from the kind's palette, and rotation z = 0 |
| Ornaments.OrnamentRanges | components/Ornaments.tsx:35-36 | scale lies in [0.1, 0.5) for gifts and [0.1, 0.35) for baubles; rotations x and y lie in [0, pi) |
| Ornaments.ScaleRange | components/Ornaments.tsx:35 | the scale formula's range per kind |
| Ornaments.RotationRange | components/Ornaments.tsx:36 | the rotation draws scaled by pi lie in [0, pi) |
| Ornaments.Generate | components/Ornaments.tsx:22-43 | exactly count items, item i built from draw i with id i, in order |
| Ornaments.NoisyScatter | components/Ornaments.tsx:76-85 | definition (no contract); properties stated by Ornaments.NoNoiseNearTree and NoiseBounds |
| Ornaments.SpunRotation | components/Ornaments.tsx:91-95 | definition (no contract); properties stated by Ornaments.AssembledTransform and ScatteredTransform |
| Ornaments.GrownScale | components/Ornaments.tsx:96 | definition (no contract); properties stated by Ornaments.ScaleBounds and AssembledTransform |
| Ornaments.InstanceTransform | components/Ornaments.tsx:87-96 | definition (no contract); properties stated by Ornaments.AssembledTransform, ScatteredTransform, NoiseBounds, ScaleBounds and OrnamentMesh.Frame |
| Ornaments.AssembledTransform | components/Ornaments.tsx:87-96 | fully assembled, each instance sits exactly on its tree position with its generated rotation and full scale |
| Ornaments.ScatteredTransform | components/Ornaments.tsx:76-96 | fully scattered, each instance sits at its scatter position plus full-amplitude noise on x and y, spins at 0.1 and 0.2 per second, at 80% scale |
| Ornaments.NoNoiseNearTree | components/Ornaments.tsx:77-88 | once raw progress reaches 0.9, the position is the plain mix of scatter and tree |
| Ornaments.NoiseBounds | components/Ornaments.tsx:77-88 | the noise moves the blended position by at most 0.5(1 - t)² on x and y, and not at all on z |
| Ornaments.ScaleBounds | components/Ornaments.tsx:96 | the instance scale lies between 80% of the item's scale and its full scale |
| Ornaments.GiftsLagBaubles | components/Ornaments.tsx:66-68 | with gifts behind baubles, after a frame of assembly gifts (speed 0.8) are still not ahead of baubles (speed 1.2) |
| Ornaments.OrnamentMesh.constructor | components/Ornaments.tsx:22-46 | the mesh holds the generated items, progress 0, and identity instance matrices |
| Ornaments.OrnamentMesh.Frame | components/Ornaments.tsx:60-102 | progress moves by lerp toward the target with factor delta·speed, and every instance's matrix becomes its transform at the eased new progress |
| Photos.MakePhoto | components/Photos.tsx:26-36 | photo i has id i, its URL, tree position (0, -50, 0), base rotation x and y in [-0.25, 0.25), and z = 0 |
| Photos.MakePhotos | components/Photos.tsx:25-38 | one photo per URL, five in all, photo i from draw i |
| Photos.PhotosInsideSphere | components/Photos.tsx:27 | every photo's scatter position lies inside the radius-12 sphere |
| Photos.PhotoGoal | components/Photos.tsx:49-73 | definition (no contract); properties stated by Photos.GoalIgnoresTreePosition, ZoomedGoals and UnzoomedGoals |
| Photos.GoalIgnoresTreePosition | components/Photos.tsx:49-73 | the targets never depend on the photo's tree position |
| Photos.ZoomedGoals | components/Photos.tsx:54-72 | when zoomed, for any tree state and hand, photo 2 targets (3x, 4+3y, 16), rotation (0.2y, -0.2x, 0), scale 3.5 and speed 3, whatever the photo's own data; every other photo targets its scatter position and stored rotation, scale 0 and speed 4 |
| Photos.UnzoomedGoals | components/Photos.tsx:49-52 | when not zoomed, each photo targets its scatter position and base rotation at speed 2, with scale 0 in TREE_SHAPE and 1.2 otherwise |
| Photos.RotationStep | components/Photos.tsx:82-91 | definition (no contract); properties stated by Photos.WobbleBounded |
| Photos.PhotoStep | components/Photos.tsx:75-91 | definition (no contract); properties stated by Photos.PhotoStepNoOvershoot, WobbleBounded and PhotoGroup.Frame |
| Photos.PhotoStepNoOvershoot | components/Photos.tsx:76-80 | when delta·speed ≤ 1 for the photo's own speed, position and scale do not pass their targets |
| Photos.WobbleBounded | components/Photos.tsx:82-85 | an unfocused photo's rotation x and y move toward a target within 0.05 of the base rotation, and z moves toward the base z with no wobble |
| Photos.PhotoGroup.constructor | components/Photos.tsx:96-98 | each child starts at its photo's scatter position, unrotated, at scale 1 |
| Photos.PhotoGroup.Frame | components/Photos.tsx:40-93 | every child takes one lerp step toward its target |

## Left out

- Audio: the `<audio>` element, the song fallback, autoplay, the 2.5 s identification
  timer and the volume fade interval (`App.tsx:88-151`) are browser I/O and timers. The
  lyric fetch is modelled only through its outcome: the text, or nothing when it fails.
- Logging calls (`console.log`, `console.warn`) have no effect on the model.
- The JSX of every component, `components/UIOverlay.tsx` and `components/Experience.tsx`
  are rendering configuration. `components/Experience.tsx` is not part of this model. The
  foliage frame reads the morph state from `scene.userData`, where `Experience.tsx` puts
  it; the model passes the state in as a parameter.
- MediaPipe: model loading, webcam setup, `detectForVideo`, `requestAnimationFrame` and
  teardown are foreign calls. `GestureTracker.PredictFrame` takes the detector's readiness
  and its landmark lists as inputs, and its exception handler is not modelled.
- React's null checks on refs (`if (!meshRef.current) return`) are not modelled. A frame
  with no mounted object is assumed not to run.
- Floating point: numbers are exact reals. Float32 buffer rounding, GLSL precision and
  JavaScript double rounding are not modelled. `Math.random`, `sin`, `cos`, `acos`,
  `sqrt`, `cbrt`, `hypot` and `Math.PI` are parameters whose ranges are stated where used.
  No statistical uniformity of the samplers is claimed.
- GLSL `pow(x, 3.0)` is undefined for negative x. The shader's `ease` is modelled with a
  real cube. This agrees with `easeInOutCubic` for progress in [0.5, 1], where
  -2t + 2 >= 0. Progress can exceed 1 after a frame longer than 2/3 s
  (`Foliage.ProgressStep`). The shader's output is then undefined, while
  `Foliage.VertexPosition` still returns a value. For this reason `Foliage.VertexDisplacement`
  promises nothing outside progress in [0, 1].
- The fragment shader, point size, colours, instance colours and material settings are
  styling. The palette strings are kept as data, and whether they parse as colours (the
  bauble palette's "#silver" does not) is not modelled.
- Matrices: three.js `Object3D.updateMatrix` and `setMatrixAt` are modelled as storing a
  position, Euler rotation and uniform scale (`Transform`), not a 4×4 matrix.
- React re-rendering: the photo groups' `position` prop is re-applied by React on
  re-render (`components/Photos.tsx:98`). The model applies it only at mount.
- Lrc.SortByTime: `Array.prototype.sort` is modelled as a stable insertion sort on
  values, not an in-place sort of the result array. ECMAScript requires the sort to be
  stable, and the model proves sortedness, permutation and stability.
- Photos.PhotoGroup.Frame: each child's new transform is computed by the `PhotoStep`
  function on a copy of the child's values. Aliasing between a child and its three.js
  sub-objects is not modelled.
