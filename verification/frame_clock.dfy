/**
 The freeze/step clock of driver.js.

 The source keeps `frozen` as either `false` or a millisecond timestamp and
 tests it only for JavaScript truthiness. `false` and `0` behave the same at
 every use, so the model keeps one real: 0 means running, anything else is
 the timestamp the animation is pinned to. A consequence the model exposes:
 freezing while `lastRenderMillis` is 0, or stepping onto exactly 0, leaves
 the clock running.
 */
module FrameClock {

  /** One nominal frame at 60 frames per second, in milliseconds. */
  const FrameMillis: real := 1000.0 / 60.0

  datatype Clock = Clock(frozen: real, lastRenderMillis: real)

  /** The clock the page starts with: running, no frame rendered yet. */
  const Initial: Clock := Clock(0.0, 0.0)

  /** JavaScript truthiness of `frozen`. */
  predicate IsFrozen(c: Clock) {
    c.frozen != 0.0
  }

  /** `toggleFreeze`: a frozen clock starts running; a running clock is pinned
      to the time of the last rendered frame, which only freezes it when that
      time is not 0. */
  function ToggleFreeze(c: Clock): (r: Clock)
    ensures r.lastRenderMillis == c.lastRenderMillis
    ensures IsFrozen(c) ==> !IsFrozen(r)
    ensures !IsFrozen(c) ==> r.frozen == c.lastRenderMillis
    ensures IsFrozen(r) <==> !IsFrozen(c) && c.lastRenderMillis != 0.0
  {
    if IsFrozen(c) then c.(frozen := 0.0) else c.(frozen := c.lastRenderMillis)
  }

  /** Right arrow: while frozen, move the pinned time one frame forward;
      while running, nothing happens. */
  function StepRight(c: Clock): (r: Clock)
    ensures r.lastRenderMillis == c.lastRenderMillis
    ensures IsFrozen(c) ==> r.frozen - c.frozen == FrameMillis
    ensures !IsFrozen(c) ==> r == c
  {
    if IsFrozen(c) then c.(frozen := c.frozen + FrameMillis) else c
  }

  /** Left arrow: while frozen, move the pinned time one frame back;
      while running, nothing happens. */
  function StepLeft(c: Clock): (r: Clock)
    ensures r.lastRenderMillis == c.lastRenderMillis
    ensures IsFrozen(c) ==> c.frozen - r.frozen == FrameMillis
    ensures !IsFrozen(c) ==> r == c
  {
    if IsFrozen(c) then c.(frozen := c.frozen - FrameMillis) else c
  }

  /** The time the down arrow stamps a new wave with (in milliseconds):
      `frozen ? frozen : lastRenderMillis`. It is the time a frame at the
      last recorded wall time runs at. */
  function WaveMillis(c: Clock): (t: real)
    ensures t == BeginFrame(c, c.lastRenderMillis).millis
  {
    if IsFrozen(c) then c.frozen else c.lastRenderMillis
  }

  /** The clock after a frame and the time that frame hands to the tick
      functions and, divided by 1000, to the shader. */
  datatype Frame = Frame(clock: Clock, millis: real)

  /** The timing part of `render`: the wall time is always recorded as
      `lastRenderMillis`; the frame runs at the pinned time while frozen and
      at the wall time otherwise. */
  function BeginFrame(c: Clock, wallMillis: real): (f: Frame)
    ensures f.clock == Clock(c.frozen, wallMillis)
    ensures IsFrozen(c) ==> f.millis == c.frozen
    ensures !IsFrozen(c) ==> f.millis == wallMillis
  {
    Frame(Clock(c.frozen, wallMillis), if IsFrozen(c) then c.frozen else wallMillis)
  }

  /** The times successive frames run at, for the given wall-clock readings,
      with no key pressed in between. */
  function FrameTimes(c: Clock, wallMillis: seq<real>): (ts: seq<real>)
    ensures |ts| == |wallMillis|
    ensures IsFrozen(c) ==> forall i :: 0 <= i < |ts| ==> ts[i] == c.frozen
    ensures !IsFrozen(c) ==> ts == wallMillis
    decreases |wallMillis|
  {
    if |wallMillis| == 0 then []
    else
      var f := BeginFrame(c, wallMillis[0]);
      [f.millis] + FrameTimes(f.clock, wallMillis[1..])
  }

  /** Freezing pins the frame the user last saw: after a frame at wall time
      `seen` (not 0) on a running clock, freezing makes every later frame run
      at `seen`, whatever the wall clock says. */
  lemma FreezePinsLastFrame(c: Clock, seen: real, laters: seq<real>)
    requires !IsFrozen(c) && seen != 0.0
    ensures BeginFrame(c, seen).millis == seen
    ensures forall i :: 0 <= i < |laters| ==>
      FrameTimes(ToggleFreeze(BeginFrame(c, seen).clock), laters)[i] == seen
  {
  }

  /** Unfreezing resumes the wall clock at once: the time spent frozen is not
      replayed. */
  lemma UnfreezeResumesWallClock(c: Clock, wallMillis: real)
    requires IsFrozen(c)
    ensures BeginFrame(ToggleFreeze(c), wallMillis).millis == wallMillis
  {
  }

  /** Freezing before any frame has been recorded leaves the clock running. */
  lemma FreezeAtZeroKeepsRunning(c: Clock)
    requires !IsFrozen(c) && c.lastRenderMillis == 0.0
    ensures !IsFrozen(ToggleFreeze(c))
  {
  }

  /** Stepping left onto exactly 0 unfreezes the clock, and the next frame
      runs at wall time. */
  lemma StepLeftOntoZeroUnfreezes(c: Clock, wallMillis: real)
    requires c.frozen == FrameMillis
    ensures !IsFrozen(StepLeft(c))
    ensures BeginFrame(StepLeft(c), wallMillis).millis == wallMillis
  {
  }

  /** A right step followed by a left step restores the clock, unless the
      right step landed on 0 and so unfroze it. */
  lemma StepRightThenLeft(c: Clock)
    requires IsFrozen(c) && c.frozen + FrameMillis != 0.0
    ensures StepLeft(StepRight(c)) == c
  {
  }

  /** The exception: from `-FrameMillis` the right step lands on 0, the clock
      runs, and the left step is ignored. */
  lemma StepRightOntoZeroIsNotUndone(c: Clock)
    requires c.frozen == -FrameMillis
    ensures IsFrozen(c)
    ensures StepLeft(StepRight(c)).frozen == 0.0
    ensures StepLeft(StepRight(c)) != c
  {
  }

  /** A left step followed by a right step restores the clock, unless the
      left step landed on 0. */
  lemma StepLeftThenRight(c: Clock)
    requires IsFrozen(c) && c.frozen - FrameMillis != 0.0
    ensures StepRight(StepLeft(c)) == c
  {
  }

  /** Two steps forward and one back advance the pinned time by one frame,
      provided no step lands on 0. */
  lemma TwoForwardOneBack(c: Clock)
    requires IsFrozen(c)
    requires c.frozen + FrameMillis != 0.0 && c.frozen + 2.0 * FrameMillis != 0.0
    ensures StepLeft(StepRight(StepRight(c))).frozen == c.frozen + FrameMillis
    ensures IsFrozen(StepLeft(StepRight(StepRight(c))))
  {
  }

  /** The down arrow stamps a wave with the time the last frame ran at. */
  lemma WaveMillisIsLastFrameTime(c: Clock, wallMillis: real)
    ensures WaveMillis(BeginFrame(c, wallMillis).clock) == BeginFrame(c, wallMillis).millis
  {
  }
}
