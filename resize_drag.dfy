/**
 * The drag handle of the UI package's resize container (`useResizeDrag`):
 * a single pixel delta along the resize axis (the horizontal pointer
 * position for a vertical divider, the vertical one otherwise), measured
 * from the press position and kept after release.
 */
module ResizeDrag {
  import opened Wrappers

  datatype Orientation = Horizontal | Vertical

  datatype PointerSample = PointerSample(pointerId: int, clientX: real, clientY: real)

  /** The coordinate the handle follows for an orientation. */
  function Along(orientation: Orientation, e: PointerSample): (c: real)
    ensures orientation == Vertical ==> c == e.clientX
    ensures orientation == Horizontal ==> c == e.clientY
  {
    if orientation == Vertical then e.clientX else e.clientY
  }

  /** Whether an event passes the pointer filter: any pointer when idle, else only the active one. */
  predicate Accepts(activePointerId: Option<int>, e: PointerSample) {
    activePointerId.None? || e.pointerId == activePointerId.value
  }

  class ResizeDragHandle {
    const orientation: Orientation
    const disabled: bool

    var isDragging: bool
    var startPos: real
    var deltaPx: real
    var activePointerId: Option<int>
    /** Whether `captureEl` holds an element; the source never clears it. */
    var captured: bool
    /** Whether the window move/up/cancel listeners are attached. */
    var listening: bool

    /** Dragging exactly while a pointer is active, and listening exactly then. */
    predicate Valid()
      reads this
    {
      && (isDragging <==> activePointerId.Some?)
      && (isDragging <==> listening)
      && (isDragging ==> captured)
    }

    constructor (orientation: Orientation, disabled: bool)
      ensures this.orientation == orientation && this.disabled == disabled
      ensures Valid() && !isDragging && startPos == 0.0 && deltaPx == 0.0 && !captured
    {
      this.orientation := orientation;
      this.disabled := disabled;
      isDragging := false;
      startPos := 0.0;
      deltaPx := 0.0;
      activePointerId := None;
      captured := false;
      listening := false;
    }

    method PointerDown(e: PointerSample, hasTarget: bool)
      requires Valid()
      modifies this
      ensures Valid()
      ensures disabled || !hasTarget ==> unchanged(this)
      ensures !disabled && hasTarget ==>
        && isDragging && activePointerId == Some(e.pointerId) && captured
        && deltaPx == 0.0 && startPos == Along(orientation, e)
    {
      if disabled {
        return;
      }
      if !hasTarget {
        return;
      }
      captured := true;
      activePointerId := Some(e.pointerId);
      isDragging := true;
      deltaPx := 0.0;
      startPos := if orientation == Vertical then e.clientX else e.clientY;
      listening := true;
    }

    method PointerMove(e: PointerSample)
      requires Valid()
      modifies this
      ensures Valid()
      ensures !old(isDragging) || !Accepts(old(activePointerId), e) ==> unchanged(this)
      ensures old(isDragging) && Accepts(old(activePointerId), e) ==>
        && deltaPx == Along(orientation, e) - startPos
        && isDragging == old(isDragging) && activePointerId == old(activePointerId)
        && startPos == old(startPos) && captured == old(captured) && listening == old(listening)
    {
      if !isDragging {
        return;
      }
      if activePointerId.Some? && e.pointerId != activePointerId.value {
        return;
      }
      var current := if orientation == Vertical then e.clientX else e.clientY;
      deltaPx := current - startPos;
    }

    /** `onPointerUp(e)`, also bound to `pointercancel`: the last delta is kept. */
    method PointerUp(e: PointerSample)
      requires Valid()
      modifies this
      ensures Valid()
      ensures !Accepts(old(activePointerId), e) ==> unchanged(this)
      ensures Accepts(old(activePointerId), e) ==>
        && !isDragging && activePointerId.None? && !listening
        && deltaPx == old(deltaPx) && startPos == old(startPos) && captured == old(captured)
    {
      if activePointerId.Some? && e.pointerId != activePointerId.value {
        return;
      }
      isDragging := false;
      Cleanup();
    }

    method LostPointerCapture(e: PointerSample)
      requires Valid()
      modifies this
      ensures Valid()
      ensures !Accepts(old(activePointerId), e) ==> unchanged(this)
      ensures Accepts(old(activePointerId), e) ==>
        && !isDragging && activePointerId.None? && !listening
        && deltaPx == old(deltaPx) && startPos == old(startPos) && captured == old(captured)
    {
      if activePointerId.Some? && e.pointerId != activePointerId.value {
        return;
      }
      isDragging := false;
      Cleanup();
    }

    /** `cleanup()`: detaches the listeners and forgets the pointer, but keeps `captureEl`. */
    method Cleanup()
      modifies this
      ensures !listening && activePointerId.None?
      ensures isDragging == old(isDragging) && deltaPx == old(deltaPx) && startPos == old(startPos)
      ensures captured == old(captured)
    {
      listening := false;
      activePointerId := None;
    }
  }
}
