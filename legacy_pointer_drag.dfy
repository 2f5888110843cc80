/**
 * The earlier pointer-drag composable of the core package: a press on a
 * target always (re)starts a session for that pointer, moves of the active
 * pointer are forwarded raw, and release, cancel or loss of capture of the
 * active pointer ends the session. Callbacks receive the raw event.
 */
module LegacyPointerDrag {
  import opened Wrappers

  datatype PointerSample = PointerSample(pointerId: int, clientX: real, clientY: real)

  datatype Callback = OnStart(evt: PointerSample) | OnMove(evt: PointerSample) | OnEnd(evt: PointerSample)

  class LegacyDragSession {
    /** The `disabled` option (absent reads as not disabled). */
    const disabled: bool
    const hasOnStart: bool
    const hasOnMove: bool
    const hasOnEnd: bool

    var isDragging: bool
    var activePointerId: Option<int>
    var captured: bool
    var listening: bool
    var trace: seq<Callback>

    /** A session is either fully active or fully idle. */
    predicate Valid()
      reads this
    {
      && (isDragging <==> activePointerId.Some?)
      && (isDragging <==> captured)
      && (isDragging <==> listening)
    }

    constructor (disabled: bool, hasOnStart: bool, hasOnMove: bool, hasOnEnd: bool)
      ensures this.disabled == disabled && this.hasOnStart == hasOnStart
      ensures this.hasOnMove == hasOnMove && this.hasOnEnd == hasOnEnd
      ensures Valid() && !isDragging && trace == []
    {
      this.disabled := disabled;
      this.hasOnStart := hasOnStart;
      this.hasOnMove := hasOnMove;
      this.hasOnEnd := hasOnEnd;
      isDragging := false;
      activePointerId := None;
      captured := false;
      listening := false;
      trace := [];
    }

    /** `onPointerDown(e)`: no check for a session already in progress; the new pointer takes over. */
    method PointerDown(e: PointerSample, hasTarget: bool)
      requires Valid()
      modifies this
      ensures Valid()
      ensures disabled || !hasTarget ==> unchanged(this)
      ensures !disabled && hasTarget ==>
        && isDragging && activePointerId == Some(e.pointerId)
        && trace == old(trace) + (if hasOnStart then [OnStart(e)] else [])
    {
      if disabled {
        return;
      }
      if !hasTarget {
        return;
      }
      captured := true;
      activePointerId := Some(e.pointerId);
      isDragging := true;
      if hasOnStart {
        trace := trace + [OnStart(e)];
      }
      listening := true;
    }

    method PointerMove(e: PointerSample)
      requires Valid()
      modifies this
      ensures Valid()
      ensures !old(isDragging) || old(activePointerId) != Some(e.pointerId) ==> unchanged(this)
      ensures old(isDragging) && old(activePointerId) == Some(e.pointerId) ==>
        && isDragging && activePointerId == old(activePointerId) && captured && listening
        && trace == old(trace) + (if hasOnMove then [OnMove(e)] else [])
    {
      if !isDragging {
        return;
      }
      if activePointerId != Some(e.pointerId) {
        return;
      }
      if hasOnMove {
        trace := trace + [OnMove(e)];
      }
    }

    /** `onPointerUp(e)`, also bound to `pointercancel`. After the end the session is idle, so `onEnd` fires once. */
    method PointerUp(e: PointerSample)
      requires Valid()
      modifies this
      ensures Valid()
      ensures old(activePointerId) != Some(e.pointerId) ==> unchanged(this)
      ensures old(activePointerId) == Some(e.pointerId) ==>
        && !isDragging && activePointerId.None? && !captured && !listening
        && trace == old(trace) + (if hasOnEnd then [OnEnd(e)] else [])
    {
      if activePointerId != Some(e.pointerId) {
        return;
      }
      EndDrag(e);
    }

    method LostPointerCapture(e: PointerSample)
      requires Valid()
      modifies this
      ensures Valid()
      ensures old(activePointerId) != Some(e.pointerId) ==> unchanged(this)
      ensures old(activePointerId) == Some(e.pointerId) ==>
        && !isDragging && activePointerId.None? && !captured && !listening
        && trace == old(trace) + (if hasOnEnd then [OnEnd(e)] else [])
    {
      if activePointerId != Some(e.pointerId) {
        return;
      }
      EndDrag(e);
    }

    /** `endDrag(e)`: no `isDragging` guard; the session ends unconditionally. */
    method EndDrag(e: PointerSample)
      modifies this
      ensures !isDragging && activePointerId.None? && !captured && !listening
      ensures trace == old(trace) + (if hasOnEnd then [OnEnd(e)] else [])
    {
      isDragging := false;
      var pointerId := activePointerId;
      if hasOnEnd {
        trace := trace + [OnEnd(e)];
      }
      Cleanup(pointerId);
      activePointerId := None;
    }

    /** `cleanup(pointerId)`: detaches the listeners and forgets the captured element. */
    method Cleanup(pointerId: Option<int>)
      modifies this
      ensures !listening && !captured
      ensures isDragging == old(isDragging) && activePointerId == old(activePointerId) && trace == old(trace)
    {
      listening := false;
      captured := false;
    }
  }
}
