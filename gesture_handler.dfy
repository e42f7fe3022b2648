/** GestureHandler.tsx: turns hand landmarks into a hand position and a gesture, and reports
    a gesture only when it differs from the last one reported. */
module GestureHandler {
  import opened SceneTypes

  /** One of the 21 hand landmarks, in normalized video coordinates. */
  datatype Landmark = Landmark(x: real, y: real, z: real)

  /** Index of each landmark the classifier reads. */
  const Wrist := 0
  const ThumbTip := 4
  const IndexTip := 8
  const MiddleTip := 12
  const RingTip := 16
  const PinkyTip := 20
  const LandmarkCount := 21

  const PinchThreshold := 0.05
  const FistThreshold := 0.18
  const OpenThreshold := 0.3

  /** What the handler reports to its host, in order. */
  datatype Event = HandMoved(position: HandPosition) | GestureChanged(gesture: Gesture)

  // ---------------------------------------------------------------------------------------
  // Hand position
  // ---------------------------------------------------------------------------------------

  /** The wrist's video coordinates mapped to screen space: mirrored in x, flipped in y, and
      stretched from [0, 1] to [-1, 1]. */
  function HandPositionOf(wrist: Landmark): (h: HandPosition)
    ensures 0.0 <= wrist.x <= 1.0 ==> -1.0 <= h.x <= 1.0
    ensures 0.0 <= wrist.y <= 1.0 ==> -1.0 <= h.y <= 1.0
    ensures wrist.x == 0.5 && wrist.y == 0.5 ==> h == HandPosition(0.0, 0.0)
    ensures wrist.x == 0.0 ==> h.x == 1.0
    ensures wrist.y == 0.0 ==> h.y == 1.0
  {
    HandPosition((1.0 - wrist.x) * 2.0 - 1.0, (1.0 - wrist.y) * 2.0 - 1.0)
  }

  /** The video coordinates a screen position comes from. */
  function VideoPointOf(h: HandPosition): (p: (real, real))
    ensures -1.0 <= h.x <= 1.0 ==> 0.0 <= p.0 <= 1.0
    ensures -1.0 <= h.y <= 1.0 ==> 0.0 <= p.1 <= 1.0
  {
    ((1.0 - h.x) / 2.0, (1.0 - h.y) / 2.0)
  }

  /** The mapping is a bijection: the two directions undo each other. */
  lemma HandPositionRoundTrip(wrist: Landmark, h: HandPosition)
    ensures VideoPointOf(HandPositionOf(wrist)) == (wrist.x, wrist.y)
    ensures var p := VideoPointOf(h); HandPositionOf(Landmark(p.0, p.1, wrist.z)) == h
  {
  }

  /** Mirroring: a wrist further right in the video is further left on screen, and a wrist
      lower in the video is lower on screen. */
  lemma HandPositionMirrors(a: Landmark, b: Landmark)
    ensures a.x < b.x ==> HandPositionOf(a).x > HandPositionOf(b).x
    ensures a.y < b.y ==> HandPositionOf(a).y > HandPositionOf(b).y
  {
  }

  // ---------------------------------------------------------------------------------------
  // Classification
  // ---------------------------------------------------------------------------------------

  /** Euclidean distance through the host's hypot. */
  function Dist(p: Landmark, q: Landmark, hypot: (real, real, real) -> real): real
  {
    hypot(p.x - q.x, p.y - q.y, p.z - q.z)
  }

  /** The mean distance of the four fingertips to the wrist, summed left to right from 0. */
  function Spread(lm: seq<Landmark>, hypot: (real, real, real) -> real): real
    requires |lm| >= LandmarkCount
  {
    var w := lm[Wrist];
    ((((0.0 + Dist(lm[IndexTip], w, hypot)) + Dist(lm[MiddleTip], w, hypot))
      + Dist(lm[RingTip], w, hypot)) + Dist(lm[PinkyTip], w, hypot)) / 4.0
  }

  /** The distance between thumb tip and index tip. */
  function Pinch(lm: seq<Landmark>, hypot: (real, real, real) -> real): real
    requires |lm| >= LandmarkCount
  {
    Dist(lm[ThumbTip], lm[IndexTip], hypot)
  }

  /** The threshold cascade: a pinch wins over everything, then a closed hand, then an open one;
      all comparisons are strict. */
  function Classify(pinch: real, spread: real): (g: Gesture)
    ensures g == Grab <==> pinch < PinchThreshold
    ensures g == Fist <==> pinch >= PinchThreshold && spread < FistThreshold
    ensures g == OpenPalm <==> pinch >= PinchThreshold && spread > OpenThreshold
    ensures g == NoGesture <==> pinch >= PinchThreshold && FistThreshold <= spread <= OpenThreshold
  {
    if pinch < PinchThreshold then Grab
    else if spread < FistThreshold then Fist
    else if spread > OpenThreshold then OpenPalm
    else NoGesture
  }

  /** The classifier reads the spread only when there is no pinch, and the boundaries belong
      to the neutral band. */
  lemma ClassifyBoundaries(spread: real, spread': real)
    ensures Classify(0.0, spread) == Classify(0.0, spread') == Grab
    ensures Classify(PinchThreshold, FistThreshold) == NoGesture
    ensures Classify(PinchThreshold, OpenThreshold) == NoGesture
  {
  }

  // ---------------------------------------------------------------------------------------
  // Edge-triggered reporting
  // ---------------------------------------------------------------------------------------

  /** Whether a classification is reported, given the last reported gesture. */
  function EdgeStep(last: Gesture, detected: Gesture): (r: Option<Gesture>)
    ensures r.Some? <==> detected != NoGesture && detected != last
    ensures r.Some? ==> r.value == detected
  {
    if detected != NoGesture && detected != last then Some(detected) else None
  }

  /** The last reported gesture after one classification. */
  function After(last: Gesture, detected: Gesture): (r: Gesture)
    ensures r == last || r == detected
    ensures last != NoGesture ==> r != NoGesture
  {
    match EdgeStep(last, detected)
    case Some(g) => g
    case None => last
  }

  /** The gestures reported over a run of classifications. */
  function Emissions(last: Gesture, ds: seq<Gesture>): (e: seq<Gesture>)
    ensures |e| <= |ds|
    decreases |ds|
  {
    if ds == [] then []
    else match EdgeStep(last, ds[0])
      case Some(g) => [g] + Emissions(g, ds[1..])
      case None => Emissions(last, ds[1..])
  }

  /** The last reported gesture after a run of classifications. */
  function LastAfter(last: Gesture, ds: seq<Gesture>): Gesture
    decreases |ds|
  {
    if ds == [] then last else LastAfter(After(last, ds[0]), ds[1..])
  }

  /** Over any run: NONE is never reported, the first report differs from the last gesture
      before the run, no two consecutive reports are equal, the remembered gesture is the
      latest report, and once set it is never reset to NONE. */
  lemma {:induction false} EmissionsSpec(last: Gesture, ds: seq<Gesture>)
    ensures var e := Emissions(last, ds);
      && (forall k :: 0 <= k < |e| ==> e[k] != NoGesture)
      && (|e| > 0 ==> e[0] != last)
      && (forall k :: 0 <= k < |e| - 1 ==> e[k] != e[k + 1])
      && LastAfter(last, ds) == (if e == [] then last else e[|e| - 1])
    ensures last != NoGesture ==> LastAfter(last, ds) != NoGesture
    decreases |ds|
  {
    if ds != [] {
      var rest := ds[1..];
      match EdgeStep(last, ds[0])
      case Some(g) =>
        EmissionsSpec(g, rest);
        var tail := Emissions(g, rest);
        assert Emissions(last, ds) == [g] + tail;
        assert LastAfter(last, ds) == LastAfter(g, rest);
      case None =>
        EmissionsSpec(last, rest);
        assert Emissions(last, ds) == Emissions(last, rest);
        assert LastAfter(last, ds) == LastAfter(last, rest);
    }
  }

  /** A gesture held for any number of frames is reported at most once. */
  lemma {:induction false} HeldGestureReportedOnce(last: Gesture, g: Gesture, n: nat)
    requires g != NoGesture
    ensures Emissions(last, seq(n, _ => g)) == (if n == 0 || g == last then [] else [g])
    decreases n
  {
    if n > 0 {
      var ds := seq(n, _ => g);
      assert ds[0] == g && ds[1..] == seq(n - 1, _ => g);
      if g == last {
        HeldGestureReportedOnce(last, g, n - 1);
      } else {
        HeldGestureReportedOnce(g, g, n - 1);
      }
    }
  }

  /** FIST, then no gesture, then FIST again reports FIST only once: a NONE frame does not
      re-arm the last gesture. */
  lemma FistNoneFist()
    ensures Emissions(NoGesture, [Fist, NoGesture, Fist]) == [Fist]
  {
    var ds := [Fist, NoGesture, Fist];
    assert ds[1..] == [NoGesture, Fist] && ds[1..][1..] == [Fist] && ds[1..][1..][1..] == [];
  }

  // ---------------------------------------------------------------------------------------
  // One analysed frame
  // ---------------------------------------------------------------------------------------

  /** What analysing one hand produces: the events and the remembered gesture. */
  datatype Outcome = Outcome(events: seq<Event>, last: Gesture)

  /** analyzeGestures on a landmark list. An empty list fails at the wrist before anything is
      reported; a list too short for every fingertip fails after the hand position is reported;
      a full hand reports the position, then the gesture when it is a new one. */
  function Analyze(last: Gesture, lm: seq<Landmark>, hypot: (real, real, real) -> real): (o: Outcome)
    ensures lm == [] ==> o == Outcome([], last)
    ensures lm != [] ==> |o.events| >= 1 && o.events[0] == HandMoved(HandPositionOf(lm[Wrist]))
    ensures |lm| < LandmarkCount ==> o.last == last && |o.events| <= 1
    ensures |lm| >= LandmarkCount ==>
      var d := Classify(Pinch(lm, hypot), Spread(lm, hypot));
      && o.last == After(last, d)
      && o.events[1..] == (if d != NoGesture && d != last then [GestureChanged(d)] else [])
  {
    if lm == [] then Outcome([], last)
    else
      var moved := HandMoved(HandPositionOf(lm[Wrist]));
      if |lm| < LandmarkCount then Outcome([moved], last)
      else match EdgeStep(last, Classify(Pinch(lm, hypot), Spread(lm, hypot)))
        case Some(g) => Outcome([moved, GestureChanged(g)], g)
        case None => Outcome([moved], last)
  }

  /** The handler's `lastGestureRef`. */
  class GestureTracker {
    var last: Gesture

    constructor ()
      ensures last == NoGesture
    {
      last := NoGesture;
    }

    /** analyzeGestures: report the hand position, classify, and report the gesture when it is
        new; a landmark list too short for the classifier ends the frame where it fails. */
    method AnalyzeGestures(lm: seq<Landmark>, hypot: (real, real, real) -> real) returns (events: seq<Event>)
      modifies this`last
      ensures Outcome(events, last) == Analyze(old(last), lm, hypot)
    {
      events := [];
      if lm == [] {
        return;
      }
      var wrist := lm[Wrist];
      events := events + [HandMoved(HandPositionOf(wrist))];
      if |lm| < LandmarkCount {
        return;
      }
      var avgDistToWrist := Spread(lm, hypot);
      var pinchDist := Pinch(lm, hypot);
      var detected := Classify(pinchDist, avgDistToWrist);
      if detected != NoGesture && detected != last {
        last := detected;
        events := events + [GestureChanged(detected)];
      }
    }

    /** predictWebcam's body for one frame: `ready` says the video has frames and is playing;
        only the first detected hand is analysed, and a frame without hands changes nothing. */
    method PredictFrame(ready: bool, hands: seq<seq<Landmark>>, hypot: (real, real, real) -> real)
      returns (events: seq<Event>)
      modifies this`last
      ensures !ready || hands == [] ==> events == [] && last == old(last)
      ensures ready && hands != [] ==> Outcome(events, last) == Analyze(old(last), hands[0], hypot)
    {
      events := [];
      if ready && |hands| > 0 {
        events := AnalyzeGestures(hands[0], hypot);
      }
    }
  }
}
