/**
 * `clamp`, `toPercentage` and `getAspectRatio`. Numbers are reals: NaN,
 * the infinities and floating-point rounding are not modelled, so the
 * "finite" half of the positive-finite checks has nothing to reject.
 * Thrown errors are `Err` values carrying the message or the offending
 * argument's name.
 */
module Arith {
  import opened Wrappers

  /** `clamp(value, min, max)`: throws when min > max, else `Math.min(Math.max(value, min), max)`. */
  function Clamp(value: real, min: real, max: real): (r: Result<real, string>)
    ensures r.Err? <==> min > max
    ensures r.Err? ==> r.error == "clamp: min must be <= max"
    ensures r.Ok? ==> min <= r.value <= max
    ensures r.Ok? && min <= value <= max ==> r.value == value
    ensures r.Ok? && value < min ==> r.value == min
    ensures r.Ok? && value > max ==> r.value == max
  {
    if min > max then Err("clamp: min must be <= max")
    else
      var lower := if value > min then value else min;
      Ok(if lower < max then lower else max)
  }

  /** Clamping an already clamped value changes nothing. */
  lemma ClampIdempotent(value: real, min: real, max: real)
    requires min <= max
    ensures Clamp(Clamp(value, min, max).value, min, max) == Clamp(value, min, max)
  {
  }

  /**
   * `toPercentage(value, base)`: throws when base is 0, else
   * `value / base * 100`. The js-core and vue-core versions are the same
   * function and are both modelled by this one.
   */
  function ToPercentage(value: real, base: real): (r: Result<real, string>)
    ensures r.Err? <==> base == 0.0
    ensures r.Err? ==> r.error == "toPercentage: base must not be 0"
    ensures r.Ok? ==> r.value * base == value * 100.0
  {
    if base == 0.0 then Err("toPercentage: base must not be 0") else Ok(value / base * 100.0)
  }

  /** The round trip: a percentage of a base, taken back to that base, is the value. */
  lemma PercentRoundTrip(value: real, base: real)
    requires base != 0.0
    ensures ToPercentage(value, base).value * base / 100.0 == value
  {
  }

  /** The base itself is 100 percent and 0 is 0 percent. */
  lemma PercentOfBaseAndZero(base: real)
    requires base != 0.0
    ensures ToPercentage(base, base) == Ok(100.0)
    ensures ToPercentage(0.0, base) == Ok(0.0)
  {
  }

  /** For a fixed base the percentage is linear in the value. */
  lemma PercentLinear(a: real, b: real, k: real, base: real)
    requires base != 0.0
    ensures ToPercentage(k * a + b, base).value
         == k * ToPercentage(a, base).value + ToPercentage(b, base).value
  {
    var x := ToPercentage(a, base).value;
    var y := ToPercentage(b, base).value;
    var z := ToPercentage(k * a + b, base).value;
    assert z * base == (k * x + y) * base;
    assert z == k * x + y by {
      assert (z - (k * x + y)) * base == 0.0;
    }
  }

  /**
   * `getAspectRatio(width, height)`: a non-positive width is reported
   * first, then a non-positive height; otherwise width / height.
   */
  function AspectRatio(width: real, height: real): (r: Result<real, string>)
    ensures r.Err? <==> width <= 0.0 || height <= 0.0
    ensures width <= 0.0 ==> r == Err("width")
    ensures 0.0 < width && height <= 0.0 ==> r == Err("height")
    ensures r.Ok? ==> r.value > 0.0 && r.value * height == width
  {
    if width <= 0.0 then Err("width")
    else if height <= 0.0 then Err("height")
    else Ok(width / height)
  }

  /** Scaling both sides by the same positive factor keeps the ratio. */
  lemma AspectRatioScaleInvariant(width: real, height: real, k: real)
    requires width > 0.0 && height > 0.0 && k > 0.0
    ensures AspectRatio(k * width, k * height) == AspectRatio(width, height)
  {
    var r := AspectRatio(width, height).value;
    var s := AspectRatio(k * width, k * height).value;
    assert s * (k * height) == k * width;
    assert k * (s * height) == k * (r * height);
    assert s * height == r * height;
    assert (s - r) * height == 0.0;
  }

  /** Half the base is 50 percent. */
  lemma PercentOfHalf(base: real)
    requires base > 0.0
    ensures ToPercentage(base / 2.0, base) == Ok(50.0)
  {
  }

  /** A value between 0 and a positive base is between 0 and 100 percent. */
  lemma PercentWithinBase(value: real, base: real)
    requires 0.0 <= value <= base
    requires base > 0.0
    ensures 0.0 <= ToPercentage(value, base).value <= 100.0
  {
    assert value / base <= 1.0;
  }
}
