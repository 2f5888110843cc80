/**
 * Size values of the resize and split-pane components: a number of pixels,
 * or a string ending in "%" or "px". `parseFloat` is not modelled: a string
 * carries the number `parseFloat` reads from it (NaN is not modelled).
 */
module SizeValues {
  import opened Wrappers
  import Arith

  datatype SizeValue =
    | Number(n: real)
    | Text(s: string, parsed: real)

  /** Which side of the split the controlled size belongs to. */
  datatype Origin = Alpha | Beta

  /** The size limits of the options object; an absent key is `None`. */
  datatype Limits = Limits(minSize: Option<SizeValue>, maxSize: Option<SizeValue>)

  predicate EndsWith(s: string, suffix: string) {
    |suffix| <= |s| && s[|s| - |suffix|..] == suffix
  }

  /**
   * `sizeValueToPx(value, containerSize)`: a number as it is, "%" as a
   * share of the container, "px" as the parsed number, anything else 0.
   * The ui and vue-ui versions are the same function.
   */
  function SizeValueToPx(value: SizeValue, containerSize: real): (px: real)
    ensures value.Number? ==> px == value.n
    ensures value.Text? && EndsWith(value.s, "%") ==> px * 100.0 == value.parsed * containerSize
    ensures value.Text? && !EndsWith(value.s, "%") && EndsWith(value.s, "px") ==> px == value.parsed
    ensures value.Text? && !EndsWith(value.s, "%") && !EndsWith(value.s, "px") ==> px == 0.0
  {
    match value
    case Number(n) => n
    case Text(s, parsed) =>
      if EndsWith(s, "%") then parsed / 100.0 * containerSize
      else if EndsWith(s, "px") then parsed
      else 0.0
  }

  /** A percentage string read against a non-zero container gives back its percentage. */
  lemma PercentTextRoundTrip(s: string, p: real, containerSize: real)
    requires EndsWith(s, "%") && containerSize != 0.0
    ensures Arith.ToPercentage(SizeValueToPx(Text(s, p), containerSize), containerSize) == Ok(p)
  {
    var px := SizeValueToPx(Text(s, p), containerSize);
    var q := Arith.ToPercentage(px, containerSize).value;
    assert q * containerSize == p * containerSize;
    assert (q - p) * containerSize == 0.0;
  }

  /** A string cannot end in both "%" and "px", so the order of the two tests never matters. */
  lemma SuffixesExclusive(s: string)
    ensures !(EndsWith(s, "%") && EndsWith(s, "px"))
  {
    if EndsWith(s, "px") {
      assert s[|s| - 1] == s[|s| - 2..][1] == 'x';
      assert !EndsWith(s, "%") by {
        assert s[|s| - 1..][0] == s[|s| - 1];
      }
    }
  }

  /** `value ? ... : ...`: the falsy size values, `undefined`, `0` and `""`. */
  predicate Falsy(value: Option<SizeValue>) {
    value.None? || value == Some(Number(0.0)) || (value.Some? && value.value.Text? && value.value.s == "")
  }

  /** The pixel size before the limits: the value's pixels, or half the container when it is falsy. */
  function BasePx(value: Option<SizeValue>, containerSize: real): real {
    if Falsy(value) then containerSize / 2.0 else SizeValueToPx(value.value, containerSize)
  }

  /** `Math.max` with the min limit, then `Math.min` with the max limit, when given. */
  function WithLimits(px: real, limits: Limits, containerSize: real): (r: real)
    ensures limits.maxSize.Some? ==> r <= SizeValueToPx(limits.maxSize.value, containerSize)
    ensures limits.minSize.Some? && limits.maxSize.None? ==> r >= SizeValueToPx(limits.minSize.value, containerSize)
    ensures limits.minSize.None? && limits.maxSize.None? ==> r == px
  {
    var raised := if limits.minSize.Some? then Max(px, SizeValueToPx(limits.minSize.value, containerSize)) else px;
    if limits.maxSize.Some? then Min(raised, SizeValueToPx(limits.maxSize.value, containerSize)) else raised
  }

  function Max(a: real, b: real): real { if a >= b then a else b }
  function Min(a: real, b: real): real { if a <= b then a else b }

  /** `clamp(x, lo, hi)` where lo <= hi holds, so it cannot throw. */
  function ClampIn(x: real, lo: real, hi: real): (r: real)
    requires lo <= hi
    ensures lo <= r <= hi
    ensures lo <= x <= hi ==> r == x
  {
    Arith.Clamp(x, lo, hi).value
  }

  /** What `normalizeSizeToPercent` returns, stage by stage. */
  function NormalizedPercent(value: Option<SizeValue>, containerSize: real, limits: Limits): real {
    if containerSize <= 0.0 then 0.0
    else
      var px := ClampIn(WithLimits(BasePx(value, containerSize), limits, containerSize), 0.0, containerSize);
      ClampIn(Arith.ToPercentage(px, containerSize).value, 0.0, 100.0)
  }

  /**
   * `normalizeSizeToPercent(value, containerSize, options)`: the size as a
   * percentage of the container, limited by the options and kept in [0, 100].
   */
  method NormalizeSizeToPercent(value: Option<SizeValue>, containerSize: real, limits: Limits)
    returns (percent: real)
    ensures percent == NormalizedPercent(value, containerSize, limits)
    ensures 0.0 <= percent <= 100.0
  {
    if containerSize <= 0.0 {
      return 0.0;
    }
    var sizePx := if Falsy(value) then containerSize / 2.0 else SizeValueToPx(value.value, containerSize);
    if limits.minSize.Some? {
      var minPx := SizeValueToPx(limits.minSize.value, containerSize);
      sizePx := Max(sizePx, minPx);
    }
    if limits.maxSize.Some? {
      var maxPx := SizeValueToPx(limits.maxSize.value, containerSize);
      sizePx := Min(sizePx, maxPx);
    }
    sizePx := Arith.Clamp(sizePx, 0.0, containerSize).value;
    var p := Arith.ToPercentage(sizePx, containerSize).value;
    percent := Arith.Clamp(p, 0.0, 100.0).value;
  }

  /** The result always lies in [0, 100], and a container of size 0 or less gives 0. */
  lemma NormalizedInRange(value: Option<SizeValue>, containerSize: real, limits: Limits)
    ensures 0.0 <= NormalizedPercent(value, containerSize, limits) <= 100.0
    ensures containerSize <= 0.0 ==> NormalizedPercent(value, containerSize, limits) == 0.0
  {
    if containerSize > 0.0 {
      var px := ClampIn(WithLimits(BasePx(value, containerSize), limits, containerSize), 0.0, containerSize);
      var p := Arith.ToPercentage(px, containerSize).value;
      assert 0.0 <= p;
    }
  }

  /** With no limits, a falsy value sits at the middle: 50 percent. */
  lemma FalsyIsHalf(value: Option<SizeValue>, containerSize: real)
    requires Falsy(value) && containerSize > 0.0
    ensures NormalizedPercent(value, containerSize, Limits(None, None)) == 50.0
  {
    var px := containerSize / 2.0;
    assert ClampIn(px, 0.0, containerSize) == px;
    Arith.PercentOfHalf(containerSize);
  }

  /** With no limits, a pixel number inside the container is its share of the container. */
  lemma PixelsAsShare(v: real, containerSize: real)
    requires 0.0 < v <= containerSize
    ensures NormalizedPercent(Some(Number(v)), containerSize, Limits(None, None)) * containerSize == v * 100.0
  {
    var p := Arith.ToPercentage(v, containerSize).value;
    assert p * containerSize == v * 100.0;
    Arith.PercentWithinBase(v, containerSize);
  }

  /** The max limit is applied after the min limit, so it wins when they conflict. */
  lemma MaxLimitWins(px: real, minSize: SizeValue, maxSize: SizeValue, containerSize: real)
    requires SizeValueToPx(minSize, containerSize) > SizeValueToPx(maxSize, containerSize)
    ensures WithLimits(px, Limits(Some(minSize), Some(maxSize)), containerSize)
         == SizeValueToPx(maxSize, containerSize)
  {
  }

  /** What `clampPercentWithLimits` returns, stage by stage. */
  function LimitedPercent(percent: real, containerSize: real, limits: Limits): real {
    var value := ClampIn(percent, 0.0, 100.0);
    if containerSize <= 0.0 then value
    else
      var raised :=
        if limits.minSize.Some?
        then Max(value, Arith.ToPercentage(SizeValueToPx(limits.minSize.value, containerSize), containerSize).value)
        else value;
      var lowered :=
        if limits.maxSize.Some?
        then Min(raised, Arith.ToPercentage(SizeValueToPx(limits.maxSize.value, containerSize), containerSize).value)
        else raised;
      ClampIn(lowered, 0.0, 100.0)
  }

  /**
   * `clampPercentWithLimits(percent, containerSize, options)`: the percent
   * kept in [0, 100] and within the limits as percentages of the container.
   */
  method ClampPercentWithLimits(percent: real, containerSize: real, limits: Limits)
    returns (r: real)
    ensures r == LimitedPercent(percent, containerSize, limits)
    ensures 0.0 <= r <= 100.0
  {
    var value := Arith.Clamp(percent, 0.0, 100.0).value;
    if containerSize <= 0.0 {
      return value;
    }
    if limits.minSize.Some? {
      var minPx := SizeValueToPx(limits.minSize.value, containerSize);
      var minPercent := Arith.ToPercentage(minPx, containerSize).value;
      value := Max(value, minPercent);
    }
    if limits.maxSize.Some? {
      var maxPx := SizeValueToPx(limits.maxSize.value, containerSize);
      var maxPercent := Arith.ToPercentage(maxPx, containerSize).value;
      value := Min(value, maxPercent);
    }
    r := Arith.Clamp(value, 0.0, 100.0).value;
  }

  /** A container of size 0 or less ignores the limits. */
  lemma NoContainerIgnoresLimits(percent: real, containerSize: real, limits: Limits)
    requires containerSize <= 0.0
    ensures LimitedPercent(percent, containerSize, limits) == LimitedPercent(percent, containerSize, Limits(None, None))
    ensures LimitedPercent(percent, containerSize, limits) == Arith.Clamp(percent, 0.0, 100.0).value
  {
  }

  /** A min limit larger than the container is capped at 100 percent. */
  lemma OversizedMinCapped(percent: real, containerSize: real, minSize: SizeValue)
    requires containerSize > 0.0 && SizeValueToPx(minSize, containerSize) > containerSize
    ensures LimitedPercent(percent, containerSize, Limits(Some(minSize), None)) == 100.0
  {
    var minPx := SizeValueToPx(minSize, containerSize);
    var m := Arith.ToPercentage(minPx, containerSize).value;
    assert m * containerSize == minPx * 100.0;
    assert m > 100.0 by {
      assert m * containerSize > 100.0 * containerSize;
    }
  }

  /** A percent already within [0, 100] and within both limits comes back unchanged. */
  lemma WithinLimitsUnchanged(percent: real, containerSize: real, limits: Limits)
    requires 0.0 <= percent <= 100.0 && containerSize > 0.0
    requires limits.minSize.Some? ==>
      Arith.ToPercentage(SizeValueToPx(limits.minSize.value, containerSize), containerSize).value <= percent
    requires limits.maxSize.Some? ==>
      percent <= Arith.ToPercentage(SizeValueToPx(limits.maxSize.value, containerSize), containerSize).value
    ensures LimitedPercent(percent, containerSize, limits) == percent
  {
  }

  /** The max limit is applied after the min limit here too, so it wins when they conflict. */
  lemma PercentMaxLimitWins(percent: real, containerSize: real, minSize: SizeValue, maxSize: SizeValue)
    requires containerSize > 0.0
    requires SizeValueToPx(minSize, containerSize) > SizeValueToPx(maxSize, containerSize)
    ensures LimitedPercent(percent, containerSize, Limits(Some(minSize), Some(maxSize)))
         == ClampIn(Arith.ToPercentage(SizeValueToPx(maxSize, containerSize), containerSize).value, 0.0, 100.0)
  {
    var lo := Arith.ToPercentage(SizeValueToPx(minSize, containerSize), containerSize).value;
    var hi := Arith.ToPercentage(SizeValueToPx(maxSize, containerSize), containerSize).value;
    assert lo * containerSize > hi * containerSize;
    assert lo > hi;
  }
}
