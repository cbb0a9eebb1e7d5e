/**
 The page-level state of driver.js and the events that change it: the key
 handler, one animation frame of `render`, the `t` debug pattern, the control
 panel's buttons, and page start-up. Mouse positions, the offsets of the hue
 generator, the draws of `randomWaves` and wall-clock readings arrive as
 parameters.
 */
module Driver {
  import RandomWalk
  import opened WaveBuffer
  import opened FrameClock

  /** Key codes the handler reacts to. */
  const SpaceKey: int := 0x20
  const RightArrow: int := 0x27
  const LeftArrow: int := 0x25
  const DownArrow: int := 0x28
  const CKey: int := 0x43
  const TKey: int := 0x54

  /** The page's mutable state: the wave buffer, the clock, and the current
      value of the hue generator that `addWave` draws from. */
  datatype App = App(waves: Buffer, clock: Clock, hueValue: real)

  /** The debug pattern of `oneTestWave`: slot `j` at x = j / 10, centred
      vertically, started at 1 ms, hue 0.65. */
  function TestPattern(): (ws: seq<Wave>)
    ensures |ws| == WavesLength
  {
    seq(WavesLength, j => Wave(j as real / 10.0, 0.5, 1.0 / 1000.0, 0.65, DecayingSineWave))
  }

  /** `oneTestWave`: clears the buffer, writes the debug pattern into every
      slot and pins the clock at 1 ms with a last frame at 1 ms. */
  function OneTestWave(a: App): (r: App)
    ensures r.clock == Clock(1.0, 1.0) && IsFrozen(r.clock)
    ensures forall j :: 0 <= j < WavesLength ==>
      Slot(r.waves, j) == Wave(j as real / 10.0, 0.5, 0.001, 0.65, DecayingSineWave)
    ensures SamePadding(a.waves, r.waves)
    ensures r.hueValue == a.hueValue
  {
    App(WriteSlots(ClearWaves(a.waves), TestPattern()), Clock(1.0, 1.0), a.hueValue)
  }

  /** `addWave` together with its call of the hue generator: the generator
      steps by `hueOffset` and its new value becomes the wave's hue. */
  function AddHuedWave(a: App, mouse: Point, millis: real, hueOffset: real): (r: App)
    ensures r.clock == a.clock
    ensures r.hueValue == RandomWalk.Next(a.hueValue, hueOffset)
    ensures Slot(r.waves, NewestSlot) == NewWave(mouse, millis, r.hueValue)
    ensures forall j :: 0 <= j < NewestSlot ==> Slot(r.waves, j) == Slot(a.waves, j + 1)
    ensures 0.0 <= Slot(r.waves, NewestSlot).hue <= 1.0
  {
    var hue := RandomWalk.Next(a.hueValue, hueOffset);
    App(AddWave(a.waves, mouse, millis, hue), a.clock, hue)
  }

  /** The key handler. `mouse` is the tracked mouse position and `hueOffset`
      the hue generator's next offset, used only if a wave is added. The
      arrow branches require a frozen clock; on a running clock they fall
      through every other branch and do nothing. */
  function OnKeyDown(a: App, keyCode: int, mouse: Point, hueOffset: real): (r: App)
    ensures keyCode !in {DownArrow, CKey, TKey} ==> r.waves == a.waves
    ensures keyCode !in {SpaceKey, RightArrow, LeftArrow, TKey} ==> r.clock == a.clock
    ensures keyCode != DownArrow ==> r.hueValue == a.hueValue
    ensures keyCode == SpaceKey ==> r.clock == ToggleFreeze(a.clock)
    ensures keyCode == RightArrow ==> r.clock == StepRight(a.clock)
    ensures keyCode == LeftArrow ==> r.clock == StepLeft(a.clock)
    ensures keyCode == DownArrow ==>
      && r.hueValue == RandomWalk.Next(a.hueValue, hueOffset)
      && Slot(r.waves, NewestSlot) == NewWave(mouse, WaveMillis(a.clock), r.hueValue)
      && forall j :: 0 <= j < NewestSlot ==> Slot(r.waves, j) == Slot(a.waves, j + 1)
    ensures keyCode == CKey ==> forall j :: 0 <= j < WavesLength ==> IsDisabled(Slot(r.waves, j))
    ensures keyCode == TKey ==> r == OneTestWave(a)
    ensures PaddingZero(a.waves) ==> PaddingZero(r.waves)
    ensures HuesInRange(a.waves) ==> HuesInRange(r.waves)
  {
    if keyCode == SpaceKey then
      a.(clock := ToggleFreeze(a.clock))
    else if keyCode == RightArrow && IsFrozen(a.clock) then
      a.(clock := StepRight(a.clock))
    else if keyCode == LeftArrow && IsFrozen(a.clock) then
      a.(clock := StepLeft(a.clock))
    else if keyCode == DownArrow then
      AddHuedWave(a, mouse, WaveMillis(a.clock), hueOffset)
    else if keyCode == CKey then
      a.(waves := ClearWaves(a.waves))
    else if keyCode == TKey then
      OneTestWave(a)
    else
      a
  }

  /** What one call of `render` leaves behind: the new state and the time
      uniform, in seconds, it hands to the shader. */
  datatype Rendered = Rendered(app: App, time: real)

  /** One animation frame: record the wall time, pick the frame's time, run
      the mouse tick (the only registered tick function), which adds a wave
      at the mouse position while a button is held, and upload the time in seconds.
      A wave added during the frame starts exactly at the time the shader is
      given, so its age in that frame is 0. */
  function Render(a: App, wallMillis: real, mouseDown: bool, mouse: Point, hueOffset: real): (r: Rendered)
    ensures r.app.clock == Clock(a.clock.frozen, wallMillis)
    ensures IsFrozen(a.clock) ==> r.time == a.clock.frozen / 1000.0
    ensures !IsFrozen(a.clock) ==> r.time == wallMillis / 1000.0
    ensures !mouseDown ==> r.app.waves == a.waves && r.app.hueValue == a.hueValue
    ensures mouseDown ==>
      && r.app.hueValue == RandomWalk.Next(a.hueValue, hueOffset)
      && Slot(r.app.waves, NewestSlot) == Wave(mouse.x, mouse.y, r.time, r.app.hueValue, DecayingSineWave)
      && forall j :: 0 <= j < NewestSlot ==> Slot(r.app.waves, j) == Slot(a.waves, j + 1)
    ensures PaddingZero(a.waves) ==> PaddingZero(r.app.waves)
    ensures HuesInRange(a.waves) ==> HuesInRange(r.app.waves)
  {
    var f := BeginFrame(a.clock, wallMillis);
    var ticked := a.(clock := f.clock);
    var app := if mouseDown then AddHuedWave(ticked, mouse, f.millis, hueOffset) else ticked;
    Rendered(app, f.millis / 1000.0)
  }

  /** The page after `init`: a zero-filled buffer filled by `randomWaves`
      from the four generators' draws, a running clock, and the hue
      generator of the event handlers started at `hueStart`. */
  function Init(xs: SlotDraws, ys: SlotDraws, times: SlotDraws, hues: SlotDraws, hueStart: real): (a: App)
    ensures a.clock == Initial && !IsFrozen(a.clock)
    ensures a.hueValue == hueStart
    ensures PaddingZero(a.waves)
    ensures forall j :: 0 <= j < WavesLength ==> InUnitRange(Slot(a.waves, j))
    ensures HuesInRange(a.waves)
  {
    App(RandomWaves(Zero(), xs, ys, times, hues), Initial, hueStart)
  }

  /** Something that happens to the page: a key press, an animation frame
      with the wall time and the mouse state at that moment, or a press of
      the control panel's randomize or freeze/unfreeze button. */
  datatype Event =
    | KeyDown(keyCode: int, mouse: Point, hueOffset: real)
    | AnimationFrame(wallMillis: real, mouseDown: bool, mouse: Point, hueOffset: real)
    | RandomizeButton(xs: SlotDraws, ys: SlotDraws, times: SlotDraws, hues: SlotDraws)
    | FreezeButton

  /** The state after one event. The randomize button runs `randomWaves`
      with fresh generators; the freeze and unfreeze buttons both run
      `toggleFreeze`. Only a frame records the wall time. */
  function Step(a: App, e: Event): (r: App)
    ensures e.AnimationFrame? ==> r.clock.lastRenderMillis == e.wallMillis
    ensures !e.AnimationFrame? && !(e.KeyDown? && e.keyCode == TKey) ==>
      r.clock.lastRenderMillis == a.clock.lastRenderMillis
    ensures e.RandomizeButton? ==>
      && r.clock == a.clock
      && forall j :: 0 <= j < WavesLength ==> !IsDisabled(Slot(r.waves, j))
    ensures e.FreezeButton? ==> r == a.(clock := ToggleFreeze(a.clock))
  {
    match e
    case KeyDown(code, mouse, hueOffset) => OnKeyDown(a, code, mouse, hueOffset)
    case AnimationFrame(millis, down, mouse, hueOffset) => Render(a, millis, down, mouse, hueOffset).app
    case RandomizeButton(xs, ys, times, hues) => a.(waves := RandomWaves(a.waves, xs, ys, times, hues))
    case FreezeButton => a.(clock := ToggleFreeze(a.clock))
  }

  /** The state after a sequence of events. A run that ends with a frame
      leaves that frame's wall time as the last render time. */
  function Run(a: App, es: seq<Event>): (r: App)
    ensures |es| > 0 && es[|es| - 1].AnimationFrame? ==>
      r.clock.lastRenderMillis == es[|es| - 1].wallMillis
    decreases |es|
  {
    if |es| == 0 then a
    else
      assert |es| > 1 ==> es[1..][|es| - 2] == es[|es| - 1];
      Run(Step(a, es[0]), es[1..])
  }

  /** The three padding elements of every slot stay 0 for the life of the
      page: nothing ever writes them, and `addWave` only moves padding onto
      padding. */
  lemma {:induction false} PaddingStaysZero(a: App, es: seq<Event>)
    requires PaddingZero(a.waves)
    ensures PaddingZero(Run(a, es).waves)
    decreases |es|
  {
    if |es| > 0 {
      assert PaddingZero(Step(a, es[0]).waves) by {
        if es[0].RandomizeButton? {
          var e := es[0];
          assert SamePadding(a.waves, RandomWaves(a.waves, e.xs, e.ys, e.times, e.hues));
        }
      }
      PaddingStaysZero(Step(a, es[0]), es[1..]);
    }
  }

  /** From start-up, any sequence of key presses, frames and button presses
      keeps the padding 0. */
  lemma PaddingZeroFromStart(xs: SlotDraws, ys: SlotDraws, times: SlotDraws, hues: SlotDraws,
                             hueStart: real, es: seq<Event>)
    ensures PaddingZero(Run(Init(xs, ys, times, hues, hueStart), es).waves)
  {
    PaddingStaysZero(Init(xs, ys, times, hues, hueStart), es);
  }

  /** Every hue stored in the buffer stays in [0, 1]: the hue generator only
      returns values in that range, and every other writer stores a constant
      or another generator's output. */
  lemma {:induction false} HuesStayInRange(a: App, es: seq<Event>)
    requires HuesInRange(a.waves)
    ensures HuesInRange(Run(a, es).waves)
    decreases |es|
  {
    if |es| > 0 {
      assert HuesInRange(Step(a, es[0]).waves) by {
        if es[0].RandomizeButton? {
          var e := es[0];
          var r := RandomWaves(a.waves, e.xs, e.ys, e.times, e.hues);
          assert forall j :: 0 <= j < WavesLength ==> InUnitRange(Slot(r, j));
        }
      }
      HuesStayInRange(Step(a, es[0]), es[1..]);
    }
  }

  /** From start-up, every hue in the buffer lies in [0, 1] whatever happens. */
  lemma HuesInRangeFromStart(xs: SlotDraws, ys: SlotDraws, times: SlotDraws, hues: SlotDraws,
                             hueStart: real, es: seq<Event>)
    ensures HuesInRange(Run(Init(xs, ys, times, hues, hueStart), es).waves)
  {
    HuesStayInRange(Init(xs, ys, times, hues, hueStart), es);
  }

  /** While frozen, frames with different wall times draw the same picture
      time and leave the clock frozen at the same value. */
  lemma FrozenFramesIgnoreWallClock(a: App, m1: real, m2: real, down: bool, mouse: Point, hueOffset: real)
    requires IsFrozen(a.clock)
    ensures Render(a, m1, down, mouse, hueOffset).time == Render(a, m2, down, mouse, hueOffset).time
    ensures Render(a, m1, down, mouse, hueOffset).app.waves == Render(a, m2, down, mouse, hueOffset).app.waves
    ensures IsFrozen(Render(a, m1, down, mouse, hueOffset).app.clock)
  {
  }

  /** A wave injected with the down arrow after a frame starts at that
      frame's time uniform, frozen or not. */
  lemma DownArrowWaveStartsAtLastFrame(a: App, wallMillis: real, down: bool,
                                       mouse: Point, hueOffset: real, mouse': Point, hueOffset': real)
    ensures var r := Render(a, wallMillis, down, mouse, hueOffset);
      Slot(OnKeyDown(r.app, DownArrow, mouse', hueOffset').waves, NewestSlot).startTime == r.time
  {
    var r := Render(a, wallMillis, down, mouse, hueOffset);
    WaveMillisIsLastFrameTime(a.clock, wallMillis);
  }

  /** The clear inside `oneTestWave` is invisible in the result: the pattern
      overwrites every slot's fields and neither step touches padding. */
  lemma TestPatternOverwritesClear(a: App)
    ensures OneTestWave(a).waves == WriteSlots(a.waves, TestPattern())
  {
    SlotsAndPaddingDetermineBuffer(OneTestWave(a).waves, WriteSlots(a.waves, TestPattern()));
  }

  /** After `t`, space unfreezes and the next frame runs at wall time; the
      arrows then do nothing until the clock is frozen again. */
  lemma TestWaveThenSpaceRuns(a: App, mouse: Point, hueOffset: real, wallMillis: real)
    ensures var r := OnKeyDown(OneTestWave(a), SpaceKey, mouse, hueOffset);
      && !IsFrozen(r.clock)
      && OnKeyDown(r, RightArrow, mouse, hueOffset) == r
      && Render(r, wallMillis, false, mouse, hueOffset).time == wallMillis / 1000.0
  {
  }

  /** Whether an event leaves the clock's `frozen` value alone: frames, the
      randomize button, and every key except space, the arrows and `t`. */
  predicate KeepsFrozenValue(e: Event) {
    || e.AnimationFrame?
    || e.RandomizeButton?
    || (e.KeyDown? && e.keyCode !in {SpaceKey, RightArrow, LeftArrow, TKey})
  }

  /** The clock's `frozen` value, pinned or running, survives any number of
      frames, down-arrow presses, clears and randomizations, until space, an
      arrow, `t` or the freeze button is pressed. */
  lemma {:induction false} FrozenUntilClockKey(a: App, es: seq<Event>)
    requires forall i :: 0 <= i < |es| ==> KeepsFrozenValue(es[i])
    ensures Run(a, es).clock.frozen == a.clock.frozen
    decreases |es|
  {
    if |es| > 0 {
      FrozenUntilClockKey(Step(a, es[0]), es[1..]);
    }
  }
}
