/**
 * The v3.6 add-on's clip-editor helpers: an A/B frame toggle kept in three
 * scene properties, and jumps to the active track's next or previous
 * keyframe. Both change the scene's current frame in place.
 */
module TrackerControl {
  import opened Wrappers
  import opened Host

  /** The scene properties the toggle reads and writes. */
  datatype Toggle = Toggle(state: int, frameA: int, frameB: int, current: int)

  /**
   * `toggleframeOpt`: state 0 records frame A, state 1 records frame B, state
   * 2 jumps to B when at A and to A otherwise; any other state does nothing.
   */
  function Toggled(s: Toggle): Toggle {
    if s.state == 0 then Toggle(1, s.current, s.frameB, s.current)
    else if s.state == 1 then Toggle(2, s.frameA, s.current, s.current)
    else if s.state == 2 then Toggle(2, s.frameA, s.frameB, if s.current == s.frameA then s.frameB else s.frameA)
    else s
  }

  /** `toggelresetOpt`: back to state 0 with both frames 0. */
  function Reset(s: Toggle): Toggle {
    Toggle(0, 0, 0, s.current)
  }

  /**
   * After a reset, toggling at frame a and then at frame b (a != b) arms the
   * toggle; from then on each toggle alternates between a and b.
   */
  lemma ArmThenAlternate(s: Toggle, a: int, b: int)
    requires a != b
    ensures var armedA := Toggled(Reset(s).(current := a));
            var armed := Toggled(armedA.(current := b));
            armed == Toggle(2, a, b, b)
            && Toggled(armed).current == a
            && Toggled(Toggled(armed)) == armed
  {
  }

  /**
   * Once armed, a toggle from anywhere other than frame A lands on A, and a
   * second toggle lands on B (when A and B differ); the frames stay recorded.
   */
  lemma ToggleFromElsewhere(s: Toggle)
    requires s.state == 2 && s.current != s.frameA && s.frameA != s.frameB
    ensures Toggled(s).current == s.frameA && Toggled(Toggled(s)).current == s.frameB
    ensures Toggled(Toggled(s)).frameA == s.frameA && Toggled(Toggled(s)).frameB == s.frameB
  {
  }

  /** Toggling never leaves the states 0, 1, 2 once in them, and never goes back. */
  lemma ToggleMonotone(s: Toggle)
    requires 0 <= s.state <= 2
    ensures s.state <= Toggled(s).state <= 2
    ensures Toggled(s).state == 2 ==> Toggled(Toggled(s)).state == 2
  {
  }

  /** Whether the track has a keyframe at frame f. */
  predicate Keyed(track: Track, f: int) {
    f in track.markers && track.markers[f].isKeyed
  }

  /** The first keyframe in from .. end, scanning upward. */
  function NextKeyed(track: Track, from: int, end: int): Option<int>
    decreases end - from
  {
    if from > end then None
    else if Keyed(track, from) then Some(from)
    else NextKeyed(track, from + 1, end)
  }

  /** The first keyframe in start .. from, scanning downward. */
  function PreviousKeyed(track: Track, from: int, start: int): Option<int>
    decreases from - start
  {
    if from < start then None
    else if Keyed(track, from) then Some(from)
    else PreviousKeyed(track, from - 1, start)
  }

  /** The upward scan finds the smallest keyframe of the range, and finds none only when there is none. */
  lemma {:induction false} NextKeyedIsLeast(track: Track, from: int, end: int)
    ensures NextKeyed(track, from, end).Some? ==>
              var f := NextKeyed(track, from, end).value;
              from <= f <= end && Keyed(track, f) && forall g :: from <= g < f ==> !Keyed(track, g)
    ensures NextKeyed(track, from, end).None? ==> forall g :: from <= g <= end ==> !Keyed(track, g)
    decreases end - from
  {
    if from <= end && !Keyed(track, from) {
      NextKeyedIsLeast(track, from + 1, end);
    }
  }

  /** The downward scan finds the largest keyframe of the range, and finds none only when there is none. */
  lemma {:induction false} PreviousKeyedIsGreatest(track: Track, from: int, start: int)
    ensures PreviousKeyed(track, from, start).Some? ==>
              var f := PreviousKeyed(track, from, start).value;
              start <= f <= from && Keyed(track, f) && forall g :: f < g <= from ==> !Keyed(track, g)
    ensures PreviousKeyed(track, from, start).None? ==> forall g :: start <= g <= from ==> !Keyed(track, g)
    decreases from - start
  {
    if start <= from && !Keyed(track, from) {
      PreviousKeyedIsGreatest(track, from - 1, start);
    }
  }

  /** The frame a jump lands on: the keyframe found, or where it started. */
  function LandOn(found: Option<int>, current: int): int {
    match found
    case Some(f) => f
    case None => current
  }

  /** The scene: the toggle's properties and the frame range. */
  class Scene {
    var state: int
    var frameA: int
    var frameB: int
    var frameCurrent: int
    var frameStart: int
    var frameEnd: int

    /** A scene as the panel leaves it: the toggle reset. */
    constructor (start: int, end: int, current: int)
      ensures state == 0 && frameA == 0 && frameB == 0
      ensures frameStart == start && frameEnd == end && frameCurrent == current
    {
      state, frameA, frameB := 0, 0, 0;
      frameStart, frameEnd, frameCurrent := start, end, current;
    }

    function ToggleView(): Toggle
      reads this
    {
      Toggle(state, frameA, frameB, frameCurrent)
    }

    /** `toggleframeOpt`. */
    method ToggleFrame()
      modifies this
      ensures ToggleView() == Toggled(old(ToggleView()))
      ensures frameStart == old(frameStart) && frameEnd == old(frameEnd)
    {
      if state == 0 {
        frameA := frameCurrent;
        state := 1;
      } else if state == 1 {
        frameB := frameCurrent;
        state := 2;
      } else if state == 2 {
        var currentFrame := frameCurrent;
        if currentFrame == frameA {
          frameCurrent := frameB;
        } else {
          frameCurrent := frameA;
        }
      }
    }

    /** `toggelresetOpt`. */
    method ToggleReset()
      modifies this
      ensures ToggleView() == Reset(old(ToggleView()))
      ensures frameStart == old(frameStart) && frameEnd == old(frameEnd)
    {
      frameA := 0;
      frameB := 0;
      state := 0;
    }

    /**
     * `getNextKeyframeOpt` for the active track: scan upward from the frame
     * after the current one to the scene's end. A frame without a marker
     * raises AttributeError on `is_keyed`, which the bare `except` turns
     * into a step to the next frame.
     */
    method NextKeyframe(track: Track)
      modifies this
      ensures frameCurrent == LandOn(NextKeyed(track, old(frameCurrent) + 1, frameEnd), old(frameCurrent))
      ensures state == old(state) && frameA == old(frameA) && frameB == old(frameB)
      ensures frameStart == old(frameStart) && frameEnd == old(frameEnd)
    {
      var currentFrameUse := frameCurrent + 1;
      while currentFrameUse <= frameEnd
        invariant frameCurrent == old(frameCurrent)
        invariant NextKeyed(track, currentFrameUse, frameEnd) == NextKeyed(track, old(frameCurrent) + 1, frameEnd)
        decreases frameEnd - currentFrameUse
      {
        var marker := FindFrame(track, currentFrameUse);
        if marker.None? {
          currentFrameUse := currentFrameUse + 1;
        } else if marker.value.isKeyed {
          frameCurrent := currentFrameUse;
          return;
        } else {
          currentFrameUse := currentFrameUse + 1;
        }
      }
    }

    /** `getPreviousKeyframeOpt`: the same scan, downward to the scene's start. */
    method PreviousKeyframe(track: Track)
      modifies this
      ensures frameCurrent == LandOn(PreviousKeyed(track, old(frameCurrent) - 1, frameStart), old(frameCurrent))
      ensures state == old(state) && frameA == old(frameA) && frameB == old(frameB)
      ensures frameStart == old(frameStart) && frameEnd == old(frameEnd)
    {
      var currentFrameUse := frameCurrent - 1;
      while currentFrameUse >= frameStart
        invariant frameCurrent == old(frameCurrent)
        invariant PreviousKeyed(track, currentFrameUse, frameStart) == PreviousKeyed(track, old(frameCurrent) - 1, frameStart)
        decreases currentFrameUse - frameStart
      {
        var marker := FindFrame(track, currentFrameUse);
        if marker.None? {
          currentFrameUse := currentFrameUse - 1;
        } else if marker.value.isKeyed {
          frameCurrent := currentFrameUse;
          return;
        } else {
          currentFrameUse := currentFrameUse - 1;
        }
      }
    }
  }

  /**
   * A jump to the next keyframe lands on the smallest keyframe after the
   * current frame and no later than the end, and stays put when there is none.
   */
  lemma NextKeyframeLands(track: Track, current: int, end: int)
    ensures var r := LandOn(NextKeyed(track, current + 1, end), current);
            (r == current && forall g :: current < g <= end ==> !Keyed(track, g))
            || (current < r <= end && Keyed(track, r) && forall g :: current < g < r ==> !Keyed(track, g))
  {
    NextKeyedIsLeast(track, current + 1, end);
  }

  /**
   * A jump to the previous keyframe lands on the largest keyframe before the
   * current frame and no earlier than the start, and stays put when there is none.
   */
  lemma PreviousKeyframeLands(track: Track, current: int, start: int)
    ensures var r := LandOn(PreviousKeyed(track, current - 1, start), current);
            (r == current && forall g :: start <= g < current ==> !Keyed(track, g))
            || (start <= r < current && Keyed(track, r) && forall g :: r < g < current ==> !Keyed(track, g))
  {
    PreviousKeyedIsGreatest(track, current - 1, start);
  }
}
