/**
 * `scaleByAspectRatio` and its helpers `scaleToWidth` / `scaleToHeight`,
 * in the math version (dimensions) and the common version (size). The
 * rounding function (`Math.round` by default) is a parameter; a target
 * side is present when it is a number.
 */
module Scale {
  import opened Wrappers
  import Arith

  datatype Dimensions = Dimensions(width: real, height: real)

  /** `{ width?: number; height?: number }`. */
  datatype Target = Target(width: Option<real>, height: Option<real>)

  /** What `assertPositiveFinite` and the target check throw. */
  datatype ScaleError =
    | NotPositive(name: string)
    | NotExactlyOneTarget

  /** `assertPositiveFinite(name, value)`. */
  function CheckPositive(name: string, value: real): (r: Option<ScaleError>)
    ensures r.Some? <==> value <= 0.0
    ensures r.Some? ==> r.value == NotPositive(name)
  {
    if value <= 0.0 then Some(NotPositive(name)) else None
  }

  /**
   * `scaleToWidth(dimensions, newWidth, round)`: the new height keeps the
   * ratio, `newWidth / (width / height)`; both sides are rounded.
   * `prefix` names the input record in the messages ("dimensions" in the
   * math version, "size" in the common one).
   */
  function ScaleToWidth(prefix: string, d: Dimensions, newWidth: real, round: real -> real)
    : (r: Result<Dimensions, ScaleError>)
    ensures d.width <= 0.0 ==> r == Err(NotPositive(prefix + ".width"))
    ensures d.width > 0.0 && d.height <= 0.0 ==> r == Err(NotPositive(prefix + ".height"))
    ensures d.width > 0.0 && d.height > 0.0 && newWidth <= 0.0 ==> r == Err(NotPositive("newWidth"))
    ensures r.Ok? <==> d.width > 0.0 && d.height > 0.0 && newWidth > 0.0
    ensures r.Ok? ==> r.value.width == round(newWidth)
    ensures r.Ok? ==> r.value.height == round(newWidth * d.height / d.width)
  {
    var e1 := CheckPositive(prefix + ".width", d.width);
    var e2 := CheckPositive(prefix + ".height", d.height);
    var e3 := CheckPositive("newWidth", newWidth);
    if e1.Some? then Err(e1.value)
    else if e2.Some? then Err(e2.value)
    else if e3.Some? then Err(e3.value)
    else
      var ratio := Arith.AspectRatio(d.width, d.height).value;
      var newHeight := newWidth / ratio;
      assert newHeight == newWidth * d.height / d.width;
      Ok(Dimensions(round(newWidth), round(newHeight)))
  }

  /** `scaleToHeight(dimensions, newHeight, round)`: the new width is `newHeight * ratio`. */
  function ScaleToHeight(prefix: string, d: Dimensions, newHeight: real, round: real -> real)
    : (r: Result<Dimensions, ScaleError>)
    ensures d.width <= 0.0 ==> r == Err(NotPositive(prefix + ".width"))
    ensures d.width > 0.0 && d.height <= 0.0 ==> r == Err(NotPositive(prefix + ".height"))
    ensures d.width > 0.0 && d.height > 0.0 && newHeight <= 0.0 ==> r == Err(NotPositive("newHeight"))
    ensures r.Ok? <==> d.width > 0.0 && d.height > 0.0 && newHeight > 0.0
    ensures r.Ok? ==> r.value.height == round(newHeight)
    ensures r.Ok? ==> r.value.width == round(newHeight * d.width / d.height)
  {
    var e1 := CheckPositive(prefix + ".width", d.width);
    var e2 := CheckPositive(prefix + ".height", d.height);
    var e3 := CheckPositive("newHeight", newHeight);
    if e1.Some? then Err(e1.value)
    else if e2.Some? then Err(e2.value)
    else if e3.Some? then Err(e3.value)
    else
      var ratio := Arith.AspectRatio(d.width, d.height).value;
      var newWidth := newHeight * ratio;
      assert newWidth == newHeight * d.width / d.height;
      Ok(Dimensions(round(newWidth), round(newHeight)))
  }

  /**
   * `scaleByAspectRatio(dimensions, target, round)`: the source sides are
   * checked first, then that exactly one target side is given, then that
   * side, and the matching helper does the scaling.
   */
  function ScaleByAspectRatio(prefix: string, d: Dimensions, target: Target, round: real -> real)
    : (r: Result<Dimensions, ScaleError>)
    ensures d.width <= 0.0 ==> r == Err(NotPositive(prefix + ".width"))
    ensures d.width > 0.0 && d.height <= 0.0 ==> r == Err(NotPositive(prefix + ".height"))
    ensures d.width > 0.0 && d.height > 0.0 && target.width.Some? == target.height.Some?
      ==> r == Err(NotExactlyOneTarget)
    ensures d.width > 0.0 && d.height > 0.0 && target.width.Some? && target.height.None?
      ==> r == (if target.width.value <= 0.0 then Err(NotPositive("target.width"))
                else ScaleToWidth(prefix, d, target.width.value, round))
    ensures d.width > 0.0 && d.height > 0.0 && target.width.None? && target.height.Some?
      ==> r == (if target.height.value <= 0.0 then Err(NotPositive("target.height"))
                else ScaleToHeight(prefix, d, target.height.value, round))
  {
    var e1 := CheckPositive(prefix + ".width", d.width);
    var e2 := CheckPositive(prefix + ".height", d.height);
    if e1.Some? then Err(e1.value)
    else if e2.Some? then Err(e2.value)
    else if target.width.Some? == target.height.Some? then Err(NotExactlyOneTarget)
    else if target.width.Some? then
      var e := CheckPositive("target.width", target.width.value);
      if e.Some? then Err(e.value) else ScaleToWidth(prefix, d, target.width.value, round)
    else
      var e := CheckPositive("target.height", target.height.value);
      if e.Some? then Err(e.value) else ScaleToHeight(prefix, d, target.height.value, round)
  }

  /** The math version, whose input record is named `dimensions`. */
  function ScaleDimensions(d: Dimensions, target: Target, round: real -> real)
    : (r: Result<Dimensions, ScaleError>)
    ensures r.Ok? <==> (d.width > 0.0 && d.height > 0.0
      && target.width.Some? != target.height.Some?
      && (target.width.Some? ==> target.width.value > 0.0)
      && (target.height.Some? ==> target.height.value > 0.0))
  {
    ScaleByAspectRatio("dimensions", d, target, round)
  }

  /** The common version, whose input record is named `size`. */
  function ScaleSize(d: Dimensions, target: Target, round: real -> real)
    : (r: Result<Dimensions, ScaleError>)
    ensures r.Ok? <==> (d.width > 0.0 && d.height > 0.0
      && target.width.Some? != target.height.Some?
      && (target.width.Some? ==> target.width.value > 0.0)
      && (target.height.Some? ==> target.height.value > 0.0))
  {
    ScaleByAspectRatio("size", d, target, round)
  }

  /** The two versions compute the same sizes; they differ only in the messages' names. */
  lemma VersionsAgree(d: Dimensions, target: Target, round: real -> real)
    ensures ScaleDimensions(d, target, round).Ok? == ScaleSize(d, target, round).Ok?
    ensures ScaleDimensions(d, target, round).Ok? ==>
      ScaleDimensions(d, target, round).value == ScaleSize(d, target, round).value
  {
  }

  function Identity(x: real): real { x }

  /** Without rounding, scaling to a width keeps the aspect ratio. */
  lemma WidthKeepsRatio(prefix: string, d: Dimensions, newWidth: real)
    requires d.width > 0.0 && d.height > 0.0 && newWidth > 0.0
    ensures var r := ScaleToWidth(prefix, d, newWidth, Identity).value;
      r.height > 0.0 && r.width / r.height == d.width / d.height
  {
    var r := ScaleToWidth(prefix, d, newWidth, Identity).value;
    assert r.height == newWidth * d.height / d.width;
    assert r.height * d.width == newWidth * d.height;
  }

  /** Without rounding, scaling to a height keeps the aspect ratio. */
  lemma HeightKeepsRatio(prefix: string, d: Dimensions, newHeight: real)
    requires d.width > 0.0 && d.height > 0.0 && newHeight > 0.0
    ensures var r := ScaleToHeight(prefix, d, newHeight, Identity).value;
      r.height > 0.0 && r.width / r.height == d.width / d.height
  {
    var r := ScaleToHeight(prefix, d, newHeight, Identity).value;
    assert r.width == newHeight * d.width / d.height;
    assert r.width * d.height == newHeight * d.width;
  }

  /** Without rounding, scaling to the original width gives the original dimensions. */
  lemma ScaleToOwnWidth(prefix: string, d: Dimensions)
    requires d.width > 0.0 && d.height > 0.0
    ensures ScaleToWidth(prefix, d, d.width, Identity) == Ok(d)
  {
    assert d.width * d.height / d.width == d.height;
  }
}
