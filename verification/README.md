# shaderfun driver: wave buffer, freeze clock and random walk

A Dafny model of the CPU-side state in `driver.js`, the script that feeds the
wave shader of shaderfun. Mouse presses and key commands add "waves" to a
fixed buffer of 50 slots. Every animation frame uploads that buffer, together
with a time value, to a fragment shader. The model covers:

- **`WaveBuffer`** (`wave_buffer.dfy`). The 400-element buffer: 50 slots of 8
  reals. Each slot holds `x, y, startTime, hue, waveType` and then three
  padding elements. The module models `writeWave`, `addWave` (shift down one
  slot, newest wave into slot 49), `clearWaves` (every slot gets start time -1,
  which disables it) and `randomWaves`.
- **`FrameClock`** (`frame_clock.dfy`). The freeze/step state machine.
  `frozen` is one real, with 0 meaning running, because the source only ever
  tests it for JavaScript truthiness and `false` and `0` act alike at every
  use. The module covers `toggleFreeze`, the arrow-key steps of `1000/60` ms,
  the down-arrow wave time and the time choice at the top of `render`.
- **`RandomWalk`** (`random_walk.dfy`). The wrap step of `randomMarkov`, which
  uses `Math.trunc` (round toward zero), and the walk that successive calls
  produce from a given start value and given offsets.
- **`Driver`** (`driver.dfy`). The page state (buffer, clock and the hue
  generator's current value), the key handler, one frame of `render` with its
  mouse tick, `oneTestWave`, the control panel's randomize and freeze/unfreeze
  buttons, start-up, and runs of arbitrary event sequences.

Randomness, the wall clock and the mouse are parameters. A generator's
initial `Math.random()` and each call's offset arrive as a `Draws` value. The
hue generator that `addWave` calls is part of the page state: its start value
is an argument of `Init`, and every key press or frame carries the offset it
would draw. The wall time of a frame and the mouse position are plain
arguments. All numbers are reals.

Details of driver.js the model keeps:

- The wrap step subtracts `Math.trunc(v)` (not `floor(v)`) for a negative sum.
  With `floor`, a sum of -0.5 would give 1.5. With `trunc` it gives 0.5.
- The result of the wrap lies in the closed interval [0, 1], not [0, 1).
  A sum of exactly 1 is kept as 1, and -1 becomes 1.
- The newest wave goes into the last slot (49), not slot 0; the oldest wave,
  in slot 0, is dropped.
- `writeWave` with an index outside [0, 50) is not an error. A typed array
  drops out-of-range writes, so the buffer is left unchanged.

## Model

| member | source | states |
|---|---|---|
| RandomWalk.Trunc | driver.js:280-282 | `Math.trunc` is within 1 of its argument, toward zero: the floor for non-negative values, the ceiling for negative ones |
| RandomWalk.TruncOfNegative | driver.js:281-282 | for a negative sum that is not whole, `Math.trunc` is one above the floor |
| RandomWalk.Wrap | driver.js:279-283 | the wrapped value is in [0, 1] for every real sum, differs from the sum by a whole number, and equals the sum when the sum already lies in [0, 1]; a whole sum above 1 becomes 0 and a whole sum below 0 becomes 1 |
| RandomWalk.TruncOfWhole | driver.js:280-282 | `Math.trunc` leaves a whole number unchanged, for either sign |
| RandomWalk.Next | driver.js:274-286 | one call of a generator: the new value is in [0, 1], differs from old value plus offset by a whole number, and is exactly that sum when the sum lies in [0, 1] |
| RandomWalk.Walk | driver.js:270-286 | successive generator outputs: one per offset, every one in [0, 1], each the wrap of the previous value plus that call's offset |
| RandomWalk.WrapIsFractionalPart | driver.js:279-283 | for a sum that is not a whole number, wrapping equals taking its fractional part (modulo 1), including negative sums |
| WaveBuffer.WriteWave | driver.js:342-349 | slot `index` reads back as the given wave; every element outside 8·index..8·index+4 is unchanged, so every other slot and all padding are unchanged; an out-of-range index changes nothing |
| WaveBuffer.NewWave | driver.js:213-217 | the wave `addWave` builds has the mouse position and the given hue, a start time in seconds equal to millis/1000, the sine shape, and is disabled exactly when millis is -1000 |
| WaveBuffer.WriteSlots | driver.js:312-314 | writing a list of waves slot by slot from 0 leaves slot j holding the j-th wave, every later element unchanged and the padding unchanged |
| WaveBuffer.AddWave | driver.js:213-220 | element k (k < 392) takes old element k+8, so slot j+1 becomes slot j and slot 0 is dropped; slot 49 holds (x, y, millis/1000, hue, 0.1); elements 397..399 keep their old values; zero padding stays zero |
| WaveBuffer.AddWaveDropsOldest | driver.js:215 | buffers that differ only in slot 0 give the same result: the oldest wave is forgotten |
| WaveBuffer.ClearThenAdd | driver.js:213-220 | after clearing, one added wave sits in slot 49 and slots 0..48 hold the disabled placeholder |
| WaveBuffer.ClearWaves | driver.js:311-315 | every slot becomes (0.5, 0.5, -1, 0, 0.1) and is therefore disabled; padding is unchanged |
| WaveBuffer.ClearWavesLoop | driver.js:311-315 | the slot-by-slot loop of `clearWaves` produces the same buffer as `ClearWaves`, with every slot disabled |
| WaveBuffer.RandomWaves | driver.js:319-327 | slot i holds the i-th output of the x, y, time and hue generators with the sine shape; every such field lies in [0, 1], so no slot is disabled; padding unchanged |
| WaveBuffer.PaddingZeroUnderOps | driver.js:15-16 | starting from the zero-filled array, padding elements 8i+5..8i+7 stay 0 after any sequence of `writeWave`, `addWave` and `clearWaves` |
| WaveBuffer.SlotsAndPaddingDetermineBuffer | driver.js:5-16 | a buffer is fully determined by its 50 slots and its padding |
| FrameClock.ToggleFreeze | driver.js:171-177 | toggling keeps `lastRenderMillis`; a frozen clock becomes running; a running clock is pinned to `lastRenderMillis`, and ends up frozen exactly when that value is not 0 |
| FrameClock.StepRight | driver.js:197-198 | while frozen the pinned time moves forward by exactly 1000/60 ms; while running nothing changes |
| FrameClock.StepLeft | driver.js:199-200 | while frozen the pinned time moves back by exactly 1000/60 ms; while running nothing changes |
| FrameClock.WaveMillis | driver.js:202 | the down-arrow time (`frozen` if frozen, else `lastRenderMillis`) is the time a frame at the last recorded wall time runs at |
| FrameClock.BeginFrame | driver.js:412-418 | the wall time is always recorded as `lastRenderMillis` and `frozen` is kept; a frozen frame runs at the pinned time whatever the wall time, a running one at the wall time |
| FrameClock.FrameTimes | driver.js:412-418 | over any number of frames with no key pressed, a frozen clock hands the same pinned time to every frame and a running clock hands each frame its wall time |
| FrameClock.FreezePinsLastFrame | driver.js:171-177 | freezing after a frame at a non-zero wall time makes every later frame run at that frame's time |
| FrameClock.UnfreezeResumesWallClock | driver.js:172-173 | after unfreezing, the next frame runs at wall time; the time spent frozen is not replayed |
| FrameClock.FreezeAtZeroKeepsRunning | driver.js:175 | freezing while `lastRenderMillis` is 0 leaves the clock running |
| FrameClock.StepLeftOntoZeroUnfreezes | driver.js:199-200 | a left step from exactly 1000/60 lands on 0, so the clock runs and the next frame uses wall time |
| FrameClock.StepRightThenLeft | driver.js:197-200 | a right step then a left step restore the frozen clock, unless the right step landed on 0 |
| FrameClock.StepRightOntoZeroIsNotUndone | driver.js:197-200 | from -1000/60 the right step lands on 0 and unfreezes, and the following left step is ignored |
| FrameClock.StepLeftThenRight | driver.js:197-200 | a left step then a right step restore the frozen clock, unless the left step landed on 0 |
| FrameClock.TwoForwardOneBack | driver.js:193 | two steps forward and one back leave the clock frozen exactly one frame (1000/60 ms) later, when no step lands on 0 |
| FrameClock.WaveMillisIsLastFrameTime | driver.js:202 | the down-arrow wave time equals the time the most recent frame ran at, frozen or not |
| Driver.OneTestWave | driver.js:331-339 | afterwards `frozen` = 1 and `lastRenderMillis` = 1, and slot j holds (j/10, 0.5, 0.001, 0.65, 0.1) for every j; padding unchanged |
| Driver.TestPatternOverwritesClear | driver.js:332-338 | the clear inside `oneTestWave` has no visible effect: the pattern overwrites every slot |
| Driver.AddHuedWave | driver.js:213-220 | `addWave` with its hue drawn from the hue generator: the generator steps once, its new value (in [0, 1]) is the new wave's hue in slot 49, the other slots shift down, and the clock is untouched |
| Driver.OnKeyDown | driver.js:194-210 | only down, `c` and `t` change the buffer; only space, the arrows and `t` change the clock; only down steps the hue generator; space toggles, the arrows step; down adds a wave at the down-arrow time into slot 49 and shifts the rest; `c` disables every slot; zero padding stays zero and hues in [0, 1] stay in [0, 1] |
| Driver.Render | driver.js:409-423 | records the wall time; the time uniform is the pinned time/1000 while frozen and wall time/1000 otherwise; a wave added by the mouse tick starts exactly at that time uniform and takes the hue generator's next value; with no button held the buffer and the generator are unchanged |
| Driver.Init | driver.js:351-360 | start-up leaves a running clock at (0, 0), the hue generator at its start value, zero padding, and every slot's position, start time and hue in [0, 1] |
| Driver.Step | driver.js:47-67 | one event: a frame records its wall time as `lastRenderMillis`, and nothing but a frame or `t` changes it; the randomize button (`randomWaves`) keeps the clock and leaves no slot disabled; the freeze/unfreeze button is `toggleFreeze` and changes nothing else |
| Driver.Run | driver.js:409-418 | a run of events that ends with a frame leaves that frame's wall time as `lastRenderMillis` |
| Driver.PaddingStaysZero | driver.js:15-16 | if the padding is zero, it stays zero after any sequence of key presses, frames and button presses |
| Driver.PaddingZeroFromStart | driver.js:351-369 | from start-up, the padding of every slot stays zero whatever happens, including the control panel's buttons |
| Driver.HuesStayInRange | driver.js:10 | if every slot's hue is in [0, 1], it stays there after any sequence of events |
| Driver.HuesInRangeFromStart | driver.js:10 | from start-up, every hue in the buffer stays in [0, 1] whatever happens |
| Driver.FrozenUntilClockKey | driver.js:409-418 | the `frozen` value, pinned or running, survives any run of frames, down-arrow presses, clears and randomizations, until space, an arrow, `t` or the freeze/unfreeze button is pressed |
| Driver.FrozenFramesIgnoreWallClock | driver.js:412-418 | while frozen, frames at different wall times get the same time uniform, add the same waves and stay frozen |
| Driver.DownArrowWaveStartsAtLastFrame | driver.js:202 | a wave added with the down arrow after a frame starts at that frame's time uniform |
| Driver.TestWaveThenSpaceRuns | driver.js:195-200 | after `t` then space the clock runs, the right arrow does nothing, and the next frame uses wall time |

## Left out

- WebGL work: context creation, shader compilation and linking, the vertex
  buffer, uniform lookup, texture packing and upload, `resize` and the draw
  call. These are calls into the browser's graphics API with no logic to
  check. The `waveSampler` / `wavesSampler` name mismatch between the uniform
  lookup and the upload is on that side too.
- The dat.GUI widgets and the Stats frame counter. These wrap libraries that
  are not part of this model. The panel's randomize and freeze/unfreeze
  buttons are modelled as events; swapping the freeze button's label is not.
  The `mode` and `wave` settings are only copied into shader uniforms, and
  `speed` is never read.
- DOM event wiring and mouse normalisation. The mouse position is a
  parameter, so dividing the x coordinate by the window height is not modelled.
- `Math.random` and the offset distribution of `randomOffset`. Offsets are
  given, not drawn, so the probabilities and ranges are not modelled. This
  includes the time generator `randomMarkov(.5, 0)`, whose jump range is
  undefined.
- Float32 storage and floating-point rounding. All values are reals, so exact
  round trips such as a right step followed by a left step hold only in that
  idealisation.
- The `requestAnimationFrame` loop and the tick-function list. One frame is
  one call of `Render`. The mouse tick is the only tick function this file
  registers, and it is modelled inside `Render`.
- A `frozen` value of `NaN` (falsy in JavaScript) cannot arise from the wall
  times the browser supplies, so it is not modelled.
