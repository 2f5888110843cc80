/**
 * Raw and effective drag deltas (`useDragDelta`): the raw delta is the
 * pointer position minus the start position; the effective delta keeps
 * only the effective axis (the locked axis if any, else the allowed axis)
 * and negates the inverted axes.
 */
module DragDelta {
  import opened Wrappers
  import opened DragTypes

  /** The locked axis wins over the configured one. */
  function EffectiveAxis(axis: DragAxis, locked: Option<LockedAxis>): DragAxis {
    if locked.Some? then AsAxis(locked.value) else axis
  }

  predicate InvertsX(invert: Option<DragAxis>) {
    invert == Some(X) || invert == Some(Both)
  }

  predicate InvertsY(invert: Option<DragAxis>) {
    invert == Some(Y) || invert == Some(Both)
  }

  /** The effective delta for a raw delta. */
  function Effective(axis: DragAxis, invert: Option<DragAxis>, locked: Option<LockedAxis>, rawX: real, rawY: real): (d: Delta)
    ensures EffectiveAxis(axis, locked) == Y ==> d.x == 0.0
    ensures EffectiveAxis(axis, locked) == X ==> d.y == 0.0
    ensures EffectiveAxis(axis, locked) != Y ==> d.x == (if InvertsX(invert) then -rawX else rawX)
    ensures EffectiveAxis(axis, locked) != X ==> d.y == (if InvertsY(invert) then -rawY else rawY)
  {
    var eff := EffectiveAxis(axis, locked);
    var dx := if eff == Y then 0.0 else rawX;
    var dy := if eff == X then 0.0 else rawY;
    Delta(if InvertsX(invert) then -dx else dx, if InvertsY(invert) then -dy else dy)
  }

  /** Inverting both axes negates the whole effective delta. */
  lemma InvertBothNegates(axis: DragAxis, locked: Option<LockedAxis>, rawX: real, rawY: real)
    ensures Effective(axis, Some(Both), locked, rawX, rawY).x == -Effective(axis, None, locked, rawX, rawY).x
    ensures Effective(axis, Some(Both), locked, rawX, rawY).y == -Effective(axis, None, locked, rawX, rawY).y
  {
  }

  /** Inversion never changes a magnitude: each effective component is 0 or the raw magnitude. */
  lemma MagnitudesPreserved(axis: DragAxis, invert: Option<DragAxis>, locked: Option<LockedAxis>, rawX: real, rawY: real)
    ensures Abs(Effective(axis, invert, locked, rawX, rawY).x) == (if EffectiveAxis(axis, locked) == Y then 0.0 else Abs(rawX))
    ensures Abs(Effective(axis, invert, locked, rawX, rawY).y) == (if EffectiveAxis(axis, locked) == X then 0.0 else Abs(rawY))
  {
  }

  class DragDeltaCell {
    var rawX: real
    var rawY: real
    var absX: real
    var absY: real
    var deltaX: real
    var deltaY: real

    predicate Zero()
      reads this
    {
      rawX == 0.0 && rawY == 0.0 && absX == 0.0 && absY == 0.0 && deltaX == 0.0 && deltaY == 0.0
    }

    constructor ()
      ensures Zero()
    {
      rawX, rawY, absX, absY, deltaX, deltaY := 0.0, 0.0, 0.0, 0.0, 0.0, 0.0;
    }

    /** `update(startX, startY, event)`; the axis, inversion and lock refs are read at call time. */
    method Update(axis: DragAxis, invert: Option<DragAxis>, locked: Option<LockedAxis>,
                  startX: real, startY: real, clientX: real, clientY: real)
      modifies this
      ensures rawX == clientX - startX && rawY == clientY - startY
      ensures absX == Abs(rawX) && absY == Abs(rawY)
      ensures Delta(deltaX, deltaY) == Effective(axis, invert, locked, rawX, rawY)
    {
      rawX := clientX - startX;
      rawY := clientY - startY;
      var effectiveAxis := if locked.Some? then AsAxis(locked.value) else axis;
      var dx := if effectiveAxis == Y then 0.0 else rawX;
      var dy := if effectiveAxis == X then 0.0 else rawY;
      if invert == Some(X) || invert == Some(Both) {
        dx := -dx;
      }
      if invert == Some(Y) || invert == Some(Both) {
        dy := -dy;
      }
      absX := Abs(rawX);
      absY := Abs(rawY);
      deltaX := dx;
      deltaY := dy;
    }

    method Reset()
      modifies this
      ensures Zero()
    {
      rawX, rawY, deltaX, deltaY, absX, absY := 0.0, 0.0, 0.0, 0.0, 0.0, 0.0;
    }
  }
}
