/** The scene-level state of App.tsx: the morph state machine driven by gestures and the
    manual toggle, the hand position, and the lyric map with the current lyric. */
module AppState {
  import opened SceneTypes
  import Lrc

  /** The two fields the morph transitions update together. */
  datatype Control = Control(tree: MorphState, zoomed: bool)

  const Initial := Control(Scattered, false)

  /** toggleState: flip the morph state and clear the zoom flag. */
  function Toggled(c: Control): (r: Control)
    ensures r.tree != c.tree && !r.zoomed
  {
    Control(if c.tree == Scattered then TreeShape else Scattered, false)
  }

  /** handleGesture's effect on the morph fields: FIST assembles the tree, OPEN_PALM scatters,
      both leaving zoom; GRAB zooms in only while scattered; NONE changes nothing. */
  function OnGesture(c: Control, g: Gesture): (r: Control)
    ensures g == Fist || g == OpenPalm ==> !r.zoomed && r.tree == (if g == Fist then TreeShape else Scattered)
    ensures g == Grab || g == NoGesture ==> r.tree == c.tree
    ensures g == Grab ==> r.zoomed == (c.zoomed || c.tree == Scattered)
    ensures g == NoGesture ==> r == c
  {
    match g
    case Fist => Control(TreeShape, false)
    case OpenPalm => Control(Scattered, false)
    case Grab => if c.tree == Scattered then Control(c.tree, true) else c
    case NoGesture => c
  }

  /** Zoom is only ever on while scattered. */
  predicate ZoomOnlyScattered(c: Control)
  {
    c.zoomed ==> c.tree == Scattered
  }

  /** Every transition keeps ZoomOnlyScattered, and the initial state has it, so no reachable
      state is zoomed while the tree is assembled. */
  lemma TransitionsKeepZoomInvariant(c: Control, g: Gesture)
    requires ZoomOnlyScattered(c)
    ensures ZoomOnlyScattered(Toggled(c)) && ZoomOnlyScattered(OnGesture(c, g))
    ensures ZoomOnlyScattered(Initial)
  {
  }

  /** Toggling twice restores the morph state, with zoom off. */
  lemma ToggleTwice(c: Control)
    ensures Toggled(Toggled(c)) == Control(c.tree, false)
  {
  }

  /** Repeating a gesture is a no-op: every gesture's effect is idempotent. */
  lemma GestureIdempotent(c: Control, g: Gesture)
    ensures OnGesture(OnGesture(c, g), g) == OnGesture(c, g)
  {
  }

  /** From the initial state GRAB zooms in while scattered, and a following FIST assembles the
      tree and clears zoom; in the tree a GRAB does nothing. */
  lemma GrabThenFist()
    ensures OnGesture(Initial, Grab) == Control(Scattered, true)
    ensures OnGesture(OnGesture(Initial, Grab), Fist) == Control(TreeShape, false)
    ensures OnGesture(Control(TreeShape, false), Grab) == Control(TreeShape, false)
  {
  }

  /** The lyric map used until a lyric file loads. */
  const FallbackLyrics: seq<Lrc.LyricEntry> := [
    Lrc.LyricEntry(0.0, "..."),
    Lrc.LyricEntry(1.0, "(Listening...)"),
    Lrc.LyricEntry(5.0, "Lyrics not found"),
    Lrc.LyricEntry(8.0, "Please add lyric.lrc to root")
  ]

  /** What the lyric loader leaves in the map: a fetch that failed (missing file, non-OK
      response, network error) keeps the current map; a fetched text goes through parseLrc
      and the intro rule. */
  function LoadedLyrics(fetched: Option<string>, current: seq<Lrc.LyricEntry>): (r: seq<Lrc.LyricEntry>)
    ensures fetched.None? ==> r == current
    ensures Lrc.SortedByTime(current) ==> Lrc.SortedByTime(r)
    ensures current != [] ==> r != []
  {
    match fetched
    case None => current
    case Some(text) =>
      Lrc.SortByTimeSpec(Lrc.ParsedEntries(Lrc.SplitLines(text)));
      Lrc.WithIntro(Lrc.LrcEntries(text), current)
  }

  /** The App component's state fields. */
  class App {
    var treeState: MorphState
    var gesture: Gesture
    var handPosition: HandPosition
    var isZoomed: bool
    var currentLyric: string
    var lyricMap: seq<Lrc.LyricEntry>

    ghost predicate Valid()
      reads this
    {
      ZoomOnlyScattered(Control(treeState, isZoomed)) && Lrc.SortedByTime(lyricMap) && lyricMap != []
    }

    /** The initial `useState` values. */
    constructor ()
      ensures Valid()
      ensures treeState == Scattered && gesture == NoGesture && handPosition == HandPosition(0.0, 0.0)
      ensures !isZoomed && currentLyric == "..." && lyricMap == FallbackLyrics
    {
      treeState := Scattered;
      gesture := NoGesture;
      handPosition := HandPosition(0.0, 0.0);
      isZoomed := false;
      currentLyric := "...";
      lyricMap := FallbackLyrics;
    }

    /** toggleState. */
    method ToggleState()
      requires Valid()
      modifies this`treeState, this`isZoomed
      ensures Valid()
      ensures Control(treeState, isZoomed) == Toggled(old(Control(treeState, isZoomed)))
    {
      treeState := if treeState == Scattered then TreeShape else Scattered;
      isZoomed := false;
    }

    /** handleGesture: records the gesture, then applies the transition table. */
    method HandleGesture(g: Gesture)
      requires Valid()
      modifies this`gesture, this`treeState, this`isZoomed
      ensures Valid()
      ensures gesture == g
      ensures Control(treeState, isZoomed) == OnGesture(old(Control(treeState, isZoomed)), g)
    {
      gesture := g;
      if g == Fist {
        treeState := TreeShape;
        isZoomed := false;
      } else if g == OpenPalm {
        treeState := Scattered;
        isZoomed := false;
      } else if g == Grab {
        if treeState == Scattered {
          isZoomed := true;
        }
      }
    }

    /** handleHandMove. */
    method HandleHandMove(x: real, y: real)
      requires Valid()
      modifies this`handPosition
      ensures Valid() && handPosition == HandPosition(x, y)
    {
      handPosition := HandPosition(x, y);
    }

    /** The lyric loader's `then` chain, given what the fetch produced. */
    method LoadLyrics(fetched: Option<string>)
      requires Valid()
      modifies this`lyricMap
      ensures Valid()
      ensures lyricMap == LoadedLyrics(fetched, old(lyricMap))
    {
      if fetched.Some? {
        var parsed := Lrc.ParseLrc(fetched.value);
        lyricMap := Lrc.WithIntro(parsed, lyricMap);
      }
    }

    /** handleTimeUpdate, given the audio element's current time (None while it is not mounted). */
    method HandleTimeUpdate(playback: Option<real>)
      requires Valid()
      modifies this`currentLyric
      ensures Valid()
      ensures playback.None? ==> currentLyric == old(currentLyric)
      ensures playback.Some? ==> currentLyric == Lrc.NextLyric(lyricMap, playback.value, old(currentLyric))
    {
      if playback.Some? {
        var active := Lrc.ActiveEntry(lyricMap, playback.value);
        if active.Some? && active.value.text != currentLyric {
          currentLyric := active.value.text;
        }
      }
    }
  }
}
