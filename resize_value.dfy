/**
 * `useResizeValue` of the resize container: the percent a drag leads to,
 * from the percent at the start of the drag and the dragged pixels. The
 * reactive inputs of the computeds are the arguments of `NextPercent`.
 */
module ResizeValue {
  import Arith
  import opened SizeValues

  /** `deltaPercent`: 0 unless dragging in a container of non-zero size, else the pixels as a percent. */
  function DeltaPercent(deltaPx: real, containerSize: real, isDragging: bool): (d: real)
    ensures !isDragging || containerSize == 0.0 ==> d == 0.0
    ensures isDragging && containerSize != 0.0 ==> d * containerSize == deltaPx * 100.0
  {
    if !isDragging then 0.0
    else if containerSize == 0.0 then 0.0
    else Arith.ToPercentage(deltaPx, containerSize).value
  }

  /** `signedDeltaPercent`: the beta origin grows the other way. */
  function SignedDeltaPercent(origin: Origin, delta: real): (d: real)
    ensures origin == Alpha ==> d == delta
    ensures origin == Beta ==> d == -delta
  {
    if origin == Alpha then delta else -delta
  }

  /** The composable's state: `startPercent`. */
  class ResizeValueState {
    var startPercent: real

    constructor()
      ensures startPercent == 0.0
    {
      startPercent := 0.0;
    }

    /** `nextPercent`: the start percent moved by the signed drag delta. */
    function NextPercent(deltaPx: real, containerSize: real, origin: Origin, isDragging: bool): (p: real)
      reads this
      ensures !isDragging || containerSize == 0.0 ==> p == startPercent
      ensures isDragging && containerSize != 0.0 && origin == Alpha
        ==> (p - startPercent) * containerSize == deltaPx * 100.0
      ensures isDragging && containerSize != 0.0 && origin == Beta
        ==> (startPercent - p) * containerSize == deltaPx * 100.0
    {
      startPercent + SignedDeltaPercent(origin, DeltaPercent(deltaPx, containerSize, isDragging))
    }

    /** `setStartPercent(value)`: replaces the start percent and nothing else. */
    method SetStartPercent(value: real)
      modifies this
      ensures startPercent == value
    {
      startPercent := value;
    }
  }

  /** The two origins move the percent by opposite amounts. */
  lemma OriginsMoveOppositely(s: ResizeValueState, deltaPx: real, containerSize: real, isDragging: bool)
    ensures s.NextPercent(deltaPx, containerSize, Beta, isDragging) - s.startPercent
         == -(s.NextPercent(deltaPx, containerSize, Alpha, isDragging) - s.startPercent)
  {
  }
}
