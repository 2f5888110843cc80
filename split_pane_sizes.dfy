/**
 * `useResizeSizes` of the split pane: the size of the origin side as a
 * percentage, split between the alpha and the beta pane, and the flex
 * styles of both. The reactive inputs are the function's arguments.
 */
module SplitPaneSizes {
  import opened Wrappers
  import opened SizeValues

  /** `{ flexBasis: `${percent}%`, flexGrow: 0 }`; the basis is kept as a number. */
  datatype FlexStyle = FlexStyle(flexBasisPercent: real, flexGrow: int)

  datatype Sizes = Sizes(alphaPercent: real, betaPercent: real, alphaStyle: FlexStyle, betaStyle: FlexStyle)

  /** `alphaPercent`: the origin percent on the alpha side, or what is left of it. */
  function AlphaPercent(origin: Origin, originPercent: real): (alpha: real)
    ensures origin == Alpha ==> alpha == originPercent
    ensures origin == Beta ==> alpha + originPercent == 100.0
  {
    if origin == Alpha then originPercent else 100.0 - originPercent
  }

  /** The percents and styles for one evaluation of the computeds. */
  function ResizeSizes(modelValue: Option<SizeValue>, containerSize: real, origin: Origin, limits: Limits)
    : (s: Sizes)
    ensures s.alphaPercent + s.betaPercent == 100.0
    ensures s.alphaStyle == FlexStyle(s.alphaPercent, 0) && s.betaStyle == FlexStyle(s.betaPercent, 0)
  {
    var originPercent := NormalizedPercent(modelValue, containerSize, limits);
    var alpha := AlphaPercent(origin, originPercent);
    var beta := 100.0 - alpha;
    Sizes(alpha, beta, FlexStyle(alpha, 0), FlexStyle(beta, 0))
  }

  /** The origin side gets the normalised percent, and both percents lie in [0, 100]. */
  lemma OriginSideGetsPercent(modelValue: Option<SizeValue>, containerSize: real, origin: Origin, limits: Limits)
    ensures var s := ResizeSizes(modelValue, containerSize, origin, limits);
      var p := NormalizedPercent(modelValue, containerSize, limits);
      && (origin == Alpha ==> s.alphaPercent == p)
      && (origin == Beta ==> s.betaPercent == p)
      && 0.0 <= s.alphaPercent <= 100.0
      && 0.0 <= s.betaPercent <= 100.0
  {
    NormalizedInRange(modelValue, containerSize, limits);
  }

  /** Swapping the origin swaps the two panes' percents. */
  lemma SwappingOriginSwapsPanes(modelValue: Option<SizeValue>, containerSize: real, limits: Limits)
    ensures ResizeSizes(modelValue, containerSize, Alpha, limits).alphaPercent
         == ResizeSizes(modelValue, containerSize, Beta, limits).betaPercent
    ensures ResizeSizes(modelValue, containerSize, Alpha, limits).betaPercent
         == ResizeSizes(modelValue, containerSize, Beta, limits).alphaPercent
  {
  }
}
