/**
 The wave buffer of driver.js: the flat array of 50 slots of 8 reals that is
 uploaded to the shader every frame.

 Each slot holds a wave's five fields `x, y, startTime, hue, waveType`,
 followed by three padding elements that nothing writes. A start time of -1
 marks a disabled slot. The source keeps the buffer in a Float32Array; here it
 is a sequence of reals of fixed length, so every operation keeps the length
 by construction.
 */
module WaveBuffer {
  import RandomWalk

  /** Number of wave slots. */
  const WavesLength: int := 50
  /** Reals per slot: five fields and three padding elements. */
  const WaveElements: int := 8
  /** Fields of a slot that a wave occupies. */
  const FieldCount: int := 5
  /** Length of the whole buffer. */
  const BufferSize: int := WavesLength * WaveElements
  /** The slot that receives the newest wave. */
  const NewestSlot: int := WavesLength - 1

  /** The wave shape selector every wave in the buffer carries. */
  const DecayingSineWave: real := 0.1

  /** The start time that disables a slot. */
  const DisabledTime: real := -1.0

  type Buffer = b: seq<real> | |b| == BufferSize witness seq(WavesLength * WaveElements, k => 0.0)

  /** The zero-filled buffer a new Float32Array starts as. */
  function Zero(): (b: Buffer)
    ensures forall k :: 0 <= k < BufferSize ==> b[k] == 0.0
  {
    seq(BufferSize, k => 0.0)
  }

  datatype Wave = Wave(x: real, y: real, startTime: real, hue: real, waveType: real)

  /** A normalised mouse position. */
  datatype Point = Point(x: real, y: real)

  /** The centred placeholder `clearWaves` writes into every slot. */
  const DisabledWave: Wave := Wave(0.5, 0.5, DisabledTime, 0.0, DecayingSineWave)

  predicate IsDisabled(w: Wave) {
    w.startTime == DisabledTime
  }

  /** A wave's fields in the order they are laid out in its slot. */
  function Fields(w: Wave): seq<real> {
    [w.x, w.y, w.startTime, w.hue, w.waveType]
  }

  /** Whether buffer element `k` is one of the three padding elements of its slot. */
  predicate IsPadding(k: int) {
    k % WaveElements >= FieldCount
  }

  /** The wave stored in slot `i`, read back from its five fields. */
  function Slot(b: Buffer, i: int): Wave
    requires 0 <= i < WavesLength
  {
    var base := WaveElements * i;
    Wave(b[base], b[base + 1], b[base + 2], b[base + 3], b[base + 4])
  }

  /** Every padding element is 0. */
  predicate PaddingZero(b: Buffer) {
    forall k :: 0 <= k < BufferSize && IsPadding(k) ==> b[k] == 0.0
  }

  /** `b` and `b'` agree on every padding element. */
  predicate SamePadding(b: Buffer, b': Buffer) {
    forall k :: 0 <= k < BufferSize && IsPadding(k) ==> b'[k] == b[k]
  }

  /** Whether element `k` is one of the five fields of slot `index`. */
  predicate InFieldsOf(k: int, index: int) {
    WaveElements * index <= k < WaveElements * index + FieldCount
  }

  /** `writeWave`: stores the five fields of `w` at elements 8 * index to
      8 * index + 4. A typed array ignores writes outside its bounds, so an
      index outside [0, 50) leaves the buffer as it was. */
  function WriteWave(b: Buffer, index: int, w: Wave): (r: Buffer)
    ensures 0 <= index < WavesLength ==> Slot(r, index) == w
    ensures forall k :: 0 <= k < BufferSize && !InFieldsOf(k, index) ==> r[k] == b[k]
    ensures forall j :: 0 <= j < WavesLength && j != index ==> Slot(r, j) == Slot(b, j)
    ensures !(0 <= index < WavesLength) ==> r == b
    ensures SamePadding(b, r)
  {
    var base := WaveElements * index;
    var r := seq(BufferSize, k requires 0 <= k < BufferSize =>
      if InFieldsOf(k, index) then Fields(w)[k - base] else b[k]);
    assert forall f :: 0 <= f < FieldCount && 0 <= index < WavesLength ==> r[base + f] == Fields(w)[f];
    assert forall j :: 0 <= j < WavesLength && j != index ==> Slot(r, j) == Slot(b, j) by {
      forall j | 0 <= j < WavesLength && j != index
        ensures Slot(r, j) == Slot(b, j)
      {
        FieldsOfOtherSlot(j, index);
      }
    }
    FieldsAreNotPadding(index);
    r
  }

  /** The fields of two different slots do not overlap. */
  lemma FieldsOfOtherSlot(j: int, index: int)
    requires j != index
    ensures forall k :: InFieldsOf(k, j) ==> !InFieldsOf(k, index)
  {
    if j < index {
      assert WaveElements * j + WaveElements <= WaveElements * index;
    } else {
      assert WaveElements * index + WaveElements <= WaveElements * j;
    }
  }

  /** No field of slot `index` is a padding element. */
  lemma FieldsAreNotPadding(index: int)
    ensures forall k :: InFieldsOf(k, index) ==> !IsPadding(k)
  {
  }

  /** The wave `addWave` stores for a mouse position, a time in milliseconds
      and the hue drawn for it: time in seconds, decaying sine shape. */
  function NewWave(mouse: Point, millis: real, hue: real): (w: Wave)
    ensures w.x == mouse.x && w.y == mouse.y && w.hue == hue
    ensures w.startTime * 1000.0 == millis
    ensures w.waveType == DecayingSineWave
    ensures IsDisabled(w) <==> millis == -1000.0
  {
    Wave(mouse.x, mouse.y, millis / 1000.0, hue, DecayingSineWave)
  }

  /** `addWave`: `copyWithin(0, 8)` moves elements 8..399 down one slot,
      dropping slot 0, then the new wave's five fields go into the last slot.
      The last slot's three padding elements are not touched by either step. */
  function AddWave(b: Buffer, mouse: Point, millis: real, hue: real): (r: Buffer)
    ensures forall k :: 0 <= k < BufferSize - WaveElements ==> r[k] == b[k + WaveElements]
    ensures forall j :: 0 <= j < NewestSlot ==> Slot(r, j) == Slot(b, j + 1)
    ensures Slot(r, NewestSlot) == Wave(mouse.x, mouse.y, millis / 1000.0, hue, DecayingSineWave)
    ensures forall k :: BufferSize - (WaveElements - FieldCount) <= k < BufferSize ==> r[k] == b[k]
    ensures PaddingZero(b) ==> PaddingZero(r)
  {
    var w := NewWave(mouse, millis, hue);
    var last := WaveElements * NewestSlot;
    var r := seq(BufferSize, k requires 0 <= k < BufferSize =>
      if k < last then b[k + WaveElements]
      else if k < last + FieldCount then Fields(w)[k - last]
      else b[k]);
    assert forall f :: 0 <= f < FieldCount ==> r[last + f] == Fields(w)[f];
    assert forall k :: last <= k < last + FieldCount ==> !IsPadding(k);
    assert forall k :: 0 <= k < last ==> (IsPadding(k) <==> IsPadding(k + WaveElements));
    r
  }

  /** Writes `ws[j]` into slot `j` for each `j` in order, the loop shape
      shared by `clearWaves`, `randomWaves` and `oneTestWave`. */
  function WriteSlots(b: Buffer, ws: seq<Wave>): (r: Buffer)
    ensures forall j :: 0 <= j < |ws| && j < WavesLength ==> Slot(r, j) == ws[j]
    ensures forall k :: WaveElements * |ws| <= k < BufferSize ==> r[k] == b[k]
    ensures SamePadding(b, r)
    decreases |ws|
  {
    if |ws| == 0 then b
    else WriteWave(WriteSlots(b, ws[..|ws| - 1]), |ws| - 1, ws[|ws| - 1])
  }

  /** The 50 placeholders `clearWaves` writes. */
  function DisabledSlots(): seq<Wave> {
    seq(WavesLength, j => DisabledWave)
  }

  /** `clearWaves`: every slot becomes the disabled, centred placeholder;
      padding is untouched. */
  function ClearWaves(b: Buffer): (r: Buffer)
    ensures forall j :: 0 <= j < WavesLength ==> Slot(r, j) == DisabledWave
    ensures forall j :: 0 <= j < WavesLength ==> IsDisabled(Slot(r, j))
    ensures SamePadding(b, r)
  {
    WriteSlots(b, DisabledSlots())
  }

  /** `clearWaves` as the source writes it, a loop over the slot indices. */
  method ClearWavesLoop(b: Buffer) returns (r: Buffer)
    ensures r == ClearWaves(b)
    ensures forall j :: 0 <= j < WavesLength ==> Slot(r, j) == DisabledWave
  {
    var ws := DisabledSlots();
    r := b;
    var i := 0;
    while i < WavesLength
      invariant 0 <= i <= WavesLength
      invariant r == WriteSlots(b, ws[..i])
    {
      ghost var written := ws[..i + 1];
      assert written[..i] == ws[..i] && written[i] == DisabledWave;
      r := WriteWave(r, i, DisabledWave);
      assert r == WriteSlots(b, written);
      i := i + 1;
    }
    assert ws[..WavesLength] == ws;
  }

  /** The draws of a generator that `randomWaves` calls once per slot. */
  type SlotDraws = d: RandomWalk.Draws | |d.offsets| == WavesLength
    witness RandomWalk.Draws(0.0, seq(WavesLength, i => 0.0))

  /** The waves `randomWaves` writes: slot `i` takes the `i`-th output of
      each of the four generators. */
  function RandomSlots(xs: SlotDraws, ys: SlotDraws, times: SlotDraws, hues: SlotDraws): (ws: seq<Wave>)
    ensures |ws| == WavesLength
  {
    var x := RandomWalk.Outputs(xs);
    var y := RandomWalk.Outputs(ys);
    var t := RandomWalk.Outputs(times);
    var h := RandomWalk.Outputs(hues);
    seq(WavesLength, i requires 0 <= i < WavesLength =>
      Wave(x[i], y[i], t[i], h[i], DecayingSineWave))
  }

  /** `randomWaves`: fills all 50 slots from four fresh random walks, one
      call of each per slot in slot order. Every field a walk produces lies
      in [0, 1], so in particular no slot is disabled. */
  function RandomWaves(b: Buffer, xs: SlotDraws, ys: SlotDraws, times: SlotDraws, hues: SlotDraws): (r: Buffer)
    ensures forall j :: 0 <= j < WavesLength ==>
      Slot(r, j) == Wave(RandomWalk.Outputs(xs)[j], RandomWalk.Outputs(ys)[j],
                         RandomWalk.Outputs(times)[j], RandomWalk.Outputs(hues)[j],
                         DecayingSineWave)
    ensures forall j :: 0 <= j < WavesLength ==> InUnitRange(Slot(r, j))
    ensures forall j :: 0 <= j < WavesLength ==> !IsDisabled(Slot(r, j))
    ensures SamePadding(b, r)
  {
    WriteSlots(b, RandomSlots(xs, ys, times, hues))
  }

  /** Position, start time and hue all lie in [0, 1]. */
  predicate InUnitRange(w: Wave) {
    && 0.0 <= w.x <= 1.0 && 0.0 <= w.y <= 1.0
    && 0.0 <= w.startTime <= 1.0 && 0.0 <= w.hue <= 1.0
  }

  /** Every slot's hue lies in [0, 1], as the buffer's layout documents. */
  predicate HuesInRange(b: Buffer) {
    forall j :: 0 <= j < WavesLength ==> 0.0 <= Slot(b, j).hue <= 1.0
  }

  /** Buffer elements are determined by the slots and the padding: two
      buffers with the same waves in every slot and the same padding are equal. */
  lemma SlotsAndPaddingDetermineBuffer(b: Buffer, b': Buffer)
    requires forall j :: 0 <= j < WavesLength ==> Slot(b, j) == Slot(b', j)
    requires SamePadding(b, b')
    ensures b == b'
  {
    forall k | 0 <= k < BufferSize
      ensures b[k] == b'[k]
    {
      var j := k / WaveElements;
      if !IsPadding(k) {
        assert Slot(b, j) == Slot(b', j);
      }
    }
  }

  /** `addWave` forgets slot 0: buffers that differ only in slot 0 (fields or
      padding) give the same result. */
  lemma AddWaveDropsOldest(b: Buffer, b': Buffer, mouse: Point, millis: real, hue: real)
    requires forall k :: WaveElements <= k < BufferSize ==> b[k] == b'[k]
    ensures AddWave(b, mouse, millis, hue) == AddWave(b', mouse, millis, hue)
  {
    var r, r' := AddWave(b, mouse, millis, hue), AddWave(b', mouse, millis, hue);
    forall k | 0 <= k < BufferSize
      ensures r[k] == r'[k]
    {
    }
  }

  /** After clearing, one `addWave` leaves the new wave in the last slot and
      the disabled placeholder in every other slot. */
  lemma ClearThenAdd(b: Buffer, mouse: Point, millis: real, hue: real)
    ensures var r := AddWave(ClearWaves(b), mouse, millis, hue);
      && Slot(r, NewestSlot) == NewWave(mouse, millis, hue)
      && forall j :: 0 <= j < NewestSlot ==> Slot(r, j) == DisabledWave
  {
  }

  /** One of the buffer updates the page performs. */
  datatype BufferOp =
    | Write(index: int, wave: Wave)
    | Add(mouse: Point, millis: real, hue: real)
    | Clear

  function ApplyOp(b: Buffer, op: BufferOp): Buffer {
    match op
    case Write(index, wave) => WriteWave(b, index, wave)
    case Add(mouse, millis, hue) => AddWave(b, mouse, millis, hue)
    case Clear => ClearWaves(b)
  }

  function ApplyOps(b: Buffer, ops: seq<BufferOp>): Buffer
    decreases |ops|
  {
    if |ops| == 0 then b else ApplyOps(ApplyOp(b, ops[0]), ops[1..])
  }

  /** Starting from the zero-filled array, no sequence of `writeWave`,
      `addWave` and `clearWaves` ever makes a padding element non-zero. */
  lemma {:induction false} PaddingZeroUnderOps(b: Buffer, ops: seq<BufferOp>)
    requires b == Zero()
    ensures PaddingZero(ApplyOps(b, ops))
  {
    PaddingZeroPreservedByOps(b, ops);
  }

  lemma {:induction false} PaddingZeroPreservedByOps(b: Buffer, ops: seq<BufferOp>)
    requires PaddingZero(b)
    ensures PaddingZero(ApplyOps(b, ops))
    decreases |ops|
  {
    if |ops| > 0 {
      PaddingZeroPreservedByOps(ApplyOp(b, ops[0]), ops[1..]);
    }
  }
}
