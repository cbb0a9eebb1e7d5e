/**
 The bounded random walk behind `randomMarkov` in driver.js.

 The generator keeps one real `value`; every call adds a random offset to it and
 wraps the sum back into [0, 1]. The random draws (the initial `Math.random()`
 and the offset of each call) are parameters here: the model covers what the
 generator does with them, not how they are distributed.
 */
module RandomWalk {

  /** `Math.trunc`: rounds toward zero, so it is the floor for non-negative
      arguments and the ceiling for negative ones. */
  function Trunc(v: real): (n: int)
    ensures 0.0 <= v ==> n as real <= v < n as real + 1.0
    ensures v < 0.0 ==> n as real - 1.0 < v <= n as real
  {
    if v >= 0.0 then v.Floor else -((-v).Floor)
  }

  /** True when `v` is a whole number. */
  predicate IsWhole(v: real) {
    v == v.Floor as real
  }

  /** The wrap step of the generator: a sum above 1 loses its integer part, a
      sum below 0 loses its (truncated) integer part and gains 1, anything in
      between is kept. The result is always in [0, 1] and differs from the sum
      by a whole number. */
  function Wrap(v: real): (r: real)
    ensures 0.0 <= r <= 1.0
    ensures IsWhole(r - v)
    ensures 0.0 <= v <= 1.0 ==> r == v
    ensures v > 1.0 && IsWhole(v) ==> r == 0.0
    ensures v < 0.0 && IsWhole(v) ==> r == 1.0
  {
    if v > 1.0 then
      var n := Trunc(v);
      WholeNumber(-n);
      TruncOfWhole(v);
      v - n as real
    else if v < 0.0 then
      var n := Trunc(v);
      WholeNumber(1 - n);
      TruncOfWhole(v);
      v - n as real + 1.0
    else
      WholeNumber(0);
      v
  }

  /** `Math.trunc` leaves a whole number as it is. */
  lemma TruncOfWhole(v: real)
    ensures IsWhole(v) ==> Trunc(v) as real == v
  {
    if IsWhole(v) && v < 0.0 {
      assert (-v).Floor == -v.Floor;
    }
  }

  /** Every integer, as a real, is whole. */
  lemma WholeNumber(n: int)
    ensures IsWhole(n as real)
  {
  }

  /** One call of the generator: the new value, which is also what it returns. */
  function Next(value: real, offset: real): (r: real)
    ensures 0.0 <= r <= 1.0
    ensures IsWhole(r - (value + offset))
    ensures 0.0 <= value + offset <= 1.0 ==> r == value + offset
  {
    Wrap(value + offset)
  }

  /** The values a generator returns over successive calls, starting from
      `value` and drawing `offsets[i]` on call `i`. */
  function Walk(value: real, offsets: seq<real>): (r: seq<real>)
    ensures |r| == |offsets|
    ensures forall i :: 0 <= i < |r| ==> 0.0 <= r[i] <= 1.0
    ensures |r| > 0 ==> r[0] == Next(value, offsets[0])
    ensures forall i :: 0 < i < |r| ==> r[i] == Next(r[i - 1], offsets[i])
    decreases |offsets|
  {
    if |offsets| == 0 then []
    else
      var v := Next(value, offsets[0]);
      [v] + Walk(v, offsets[1..])
  }

  /** The random draws one generator consumes: the starting `Math.random()`
      and the offset drawn on each call. */
  datatype Draws = Draws(start: real, offsets: seq<real>)

  /** What a generator returns when fed `d`. */
  function Outputs(d: Draws): seq<real> {
    Walk(d.start, d.offsets)
  }

  /** Wrapping agrees with "keep the fractional part" on every sum that is not
      a whole number; the two differ only on whole numbers (for instance 1 is
      kept, 2 becomes 0 and -1 becomes 1). */
  lemma WrapIsFractionalPart(v: real)
    requires !IsWhole(v)
    ensures Wrap(v) == v - v.Floor as real
  {
    if v < 0.0 {
      TruncOfNegative(v);
    }
  }

  /** For a negative sum that is not whole, truncation is one above the floor. */
  lemma TruncOfNegative(v: real)
    requires v < 0.0 && !IsWhole(v)
    ensures Trunc(v) == v.Floor + 1
  {
    var f := (-v).Floor;
    assert f as real < -v;
    assert v.Floor == -f - 1 by {
      assert (-f - 1) as real <= v < (-f) as real;
    }
  }
}
