/**
 * `range` and `rangeArray`: the integers from a start (inclusive) towards a
 * stop (exclusive) by a non-zero step, ascending for a positive step and
 * descending for a negative one. With a single argument the range runs
 * from 0 to that argument. Only integer arguments are modelled.
 */
module Ranges {
  import opened Wrappers

  /** The number of elements: the ceiling of (stop - start) / step, or 0 when the stop is not ahead. */
  function RangeLength(start: int, stop: int, step: int): nat
    requires step != 0
  {
    if step > 0 then (if start >= stop then 0 else (stop - start + step - 1) / step)
    else (if start <= stop then 0 else (start - stop - step - 1) / -step)
  }

  /** The elements of the range: element k is start + k * step. */
  function RangeSpec(start: int, stop: int, step: int): (r: seq<int>)
    requires step != 0
    ensures |r| == RangeLength(start, stop, step)
    ensures forall k | 0 <= k < |r| :: r[k] == start + k * step
  {
    seq(RangeLength(start, stop, step), k => start + k * step)
  }

  /** The bounds of a call: a missing stop makes the single argument the stop, counted from 0. */
  function Bounds(start: int, stop: Option<int>): (int, int) {
    if stop.None? then (0, start) else (start, stop.value)
  }

  lemma MulMono(a: int, b: int, s: int)
    requires a <= b && s > 0
    ensures a * s <= b * s
  {
  }

  /** Every element lies strictly before the stop in the direction of travel, and the next one would not. */
  lemma RangeStaysBeforeStop(start: int, stop: int, step: int)
    requires step != 0
    ensures forall k | 0 <= k < RangeLength(start, stop, step) ::
      if step > 0 then start + k * step < stop else start + k * step > stop
    ensures var n := RangeLength(start, stop, step);
      if step > 0 then start + n * step >= stop else start + n * step <= stop
  {
    var n := RangeLength(start, stop, step);
    var s := if step > 0 then step else -step;
    var d := if step > 0 then stop - start else start - stop;
    if d > 0 {
      var q := (d + s - 1) / s;
      assert q == n;
      assert d + s - 1 == q * s + (d + s - 1) % s;
      forall k | 0 <= k < n
        ensures if step > 0 then start + k * step < stop else start + k * step > stop
      {
        MulMono(k, q - 1, s);
      }
    }
  }

  /** `range(start, stop?, step = 1)`. */
  method Range(start: int, stop: Option<int>, step: Option<int>) returns (r: Result<seq<int>, string>)
    ensures step.GetOr(1) == 0 <==> r.Err?
    ensures r.Err? ==> r.error == "range: step must not be 0"
    ensures r.Ok? ==> r.value == RangeSpec(Bounds(start, stop).0, Bounds(start, stop).1, step.GetOr(1))
  {
    var st := step.GetOr(1);
    var startValue := if stop.None? then 0 else start;
    var endValue := if stop.None? then start else stop.value;
    if st == 0 {
      return Err("range: step must not be 0");
    }
    var result := Fill(startValue, endValue, st);
    return Ok(result);
  }

  /** `rangeArray(start, stop?, step = 1)`: the same elements as `range`. */
  method RangeArray(start: int, stop: Option<int>, step: Option<int>) returns (r: Result<seq<int>, string>)
    ensures step.GetOr(1) == 0 <==> r.Err?
    ensures r.Err? ==> r.error == "rangeArray: step must not be 0"
    ensures r.Ok? ==> r.value == RangeSpec(Bounds(start, stop).0, Bounds(start, stop).1, step.GetOr(1))
  {
    var st := step.GetOr(1);
    var first: int;
    var end: int;
    if stop.None? {
      first := 0;
      end := start;
    } else {
      first := start;
      end := stop.value;
    }
    if st == 0 {
      return Err("rangeArray: step must not be 0");
    }
    var result := Fill(first, end, st);
    return Ok(result);
  }

  /** Index k is before the stop exactly when it is an index of the range. */
  lemma BeforeStopIff(start: int, stop: int, step: int, k: nat)
    requires step != 0
    ensures (if step > 0 then start + k * step < stop else start + k * step > stop)
        <==> k < RangeLength(start, stop, step)
  {
    RangeStaysBeforeStop(start, stop, step);
    var n := RangeLength(start, stop, step);
    if k >= n {
      if step > 0 { MulMono(n, k, step); } else { MulMono(n, k, -step); }
    }
  }

  /** The counting loop shared by both functions: push i while it is before the end, then add the step. */
  method Fill(first: int, end: int, step: int) returns (result: seq<int>)
    requires step != 0
    ensures result == RangeSpec(first, end, step)
  {
    if step > 0 {
      result := FillForward(first, end, step);
    } else {
      result := FillBackward(first, end, step);
    }
  }

  /** The ascending loop: `for (let i = start; i < end; i += step)`. */
  method FillForward(first: int, end: int, step: int) returns (result: seq<int>)
    requires step > 0
    ensures result == RangeSpec(first, end, step)
  {
    result := [];
    var i := first;
    while i < end
      invariant i == first + |result| * step
      invariant |result| <= RangeLength(first, end, step)
      invariant forall k | 0 <= k < |result| :: result[k] == first + k * step
      decreases end - i
    {
      BeforeStopIff(first, end, step, |result|);
      result := result + [i];
      i := i + step;
    }
    BeforeStopIff(first, end, step, |result|);
  }

  /** The descending loop: `for (let i = start; i > end; i += step)`. */
  method FillBackward(first: int, end: int, step: int) returns (result: seq<int>)
    requires step < 0
    ensures result == RangeSpec(first, end, step)
  {
    result := [];
    var i := first;
    while i > end
      invariant i == first + |result| * step
      invariant |result| <= RangeLength(first, end, step)
      invariant forall k | 0 <= k < |result| :: result[k] == first + k * step
      decreases i - end
    {
      BeforeStopIff(first, end, step, |result|);
      result := result + [i];
      i := i + step;
    }
    BeforeStopIff(first, end, step, |result|);
  }
}
