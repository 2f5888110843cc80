/**
 * The pointer-drag orchestrator of the Vue core package (`usePointerDrag`):
 * a press on a target starts a session for one pointer id; moves of that
 * pointer report deltas gated by a movement threshold, optionally locked to
 * the dominant axis and inverted; release, cancel or loss of capture ends
 * the session, reports the final deltas and clears the session state.
 *
 * Callbacks are recorded in `trace` in the order they are invoked.
 */
module PointerDrag {
  import opened Wrappers
  import opened DragTypes
  import DragAxisLock
  import DragThreshold
  import DragDelta

  /** `invertAxis` as supplied: an axis name or a boolean. */
  datatype InvertSetting = InvertOn(axis: DragAxis) | InvertFlag(flag: bool)

  /** The options as supplied; `None` is an absent, `undefined` or `null` option. */
  datatype RawOptions = RawOptions(
    disabled: Option<bool>,
    axis: Option<DragAxis>,
    threshold: Option<real>,
    invertAxis: Option<InvertSetting>,
    lockAxisAfterThreshold: Option<bool>,
    hasOnStart: bool,
    hasOnMove: bool,
    hasOnEnd: bool)

  /** The options after defaults and normalisation. */
  datatype Options = Options(
    disabled: bool,
    axis: DragAxis,
    threshold: real,
    invert: Option<DragAxis>,
    lockAxisAfterThreshold: bool,
    hasOnStart: bool,
    hasOnMove: bool,
    hasOnEnd: bool)

  function Normalize(raw: RawOptions): (o: Options)
    ensures o.disabled <==> raw.disabled == Some(true)
    ensures o.axis == (if raw.axis.Some? then raw.axis.value else Both)
    ensures o.threshold >= 0.0
    ensures raw.threshold.Some? && raw.threshold.value > 0.0 ==> o.threshold == raw.threshold.value
    ensures (raw.threshold.None? || raw.threshold.value <= 0.0) ==> o.threshold == 0.0
    ensures raw.invertAxis == Some(InvertFlag(true)) ==> o.invert == Some(Both)
    ensures raw.invertAxis.None? || raw.invertAxis == Some(InvertFlag(false)) ==> o.invert == None
    ensures raw.invertAxis.Some? && raw.invertAxis.value.InvertOn? ==> o.invert == Some(raw.invertAxis.value.axis)
    ensures o.lockAxisAfterThreshold <==> raw.lockAxisAfterThreshold == Some(true)
  {
    Options(
      raw.disabled == Some(true),
      raw.axis.GetOr(Both),
      Max(0.0, raw.threshold.GetOr(0.0)),
      match raw.invertAxis
      case None => None
      case Some(InvertFlag(b)) => if b then Some(Both) else None
      case Some(InvertOn(a)) => Some(a),
      raw.lockAxisAfterThreshold == Some(true),
      raw.hasOnStart, raw.hasOnMove, raw.hasOnEnd)
  }

  /** The threshold and axis-lock state of a session. */
  datatype Gate = Gate(passed: bool, locked: Option<LockedAxis>)

  /** Movement is held back: the threshold is positive, not yet passed and not reached now. */
  predicate Held(o: Options, g: Gate, s: Sample) {
    !g.passed && o.threshold > 0.0 && !DragThreshold.Reached(o.axis, o.threshold, s.absX, s.absY)
  }

  /** The gate after one delta computation. */
  function GateAfter(o: Options, g: Gate, s: Sample): Gate {
    if Held(o, g, s) then g
    else
      var passed := g.passed || o.threshold > 0.0;
      var locked :=
        if passed && o.lockAxisAfterThreshold && o.axis == Both && g.locked.None?
        then Some(DragAxisLock.Dominant(s)) else g.locked;
      Gate(passed, locked)
  }

  /** The deltas reported for a raw movement: zero while held, else the effective delta. */
  function DeltaFor(o: Options, g: Gate, rawX: real, rawY: real): Delta {
    var s := Sample(Abs(rawX), Abs(rawY));
    if Held(o, g, s) then Delta(0.0, 0.0)
    else DragDelta.Effective(o.axis, o.invert, GateAfter(o, g, s).locked, rawX, rawY)
  }

  /** Below a positive threshold nothing moves and nothing latches. */
  lemma BelowThresholdReportsZero(o: Options, g: Gate, rawX: real, rawY: real)
    requires !g.passed && o.threshold > 0.0
    requires !DragThreshold.Reached(o.axis, o.threshold, Abs(rawX), Abs(rawY))
    ensures DeltaFor(o, g, rawX, rawY) == Delta(0.0, 0.0)
    ensures GateAfter(o, g, Sample(Abs(rawX), Abs(rawY))) == g
  {
  }

  /** The first movement that reaches a positive threshold latches it, and locks a free drag when asked. */
  lemma CrossingLatchesAndLocks(o: Options, g: Gate, s: Sample)
    requires !g.passed && g.locked.None? && o.threshold > 0.0
    requires DragThreshold.Reached(o.axis, o.threshold, s.absX, s.absY)
    ensures GateAfter(o, g, s).passed
    ensures GateAfter(o, g, s).locked ==
      (if o.lockAxisAfterThreshold && o.axis == Both then Some(DragAxisLock.Dominant(s)) else None)
  {
  }

  /** A threshold of zero never sets the passed flag, so the axis never locks. */
  lemma ZeroThresholdNeverLocks(o: Options, s: Sample)
    requires o.threshold <= 0.0
    ensures GateAfter(o, Gate(false, None), s) == Gate(false, None)
  {
  }

  /** Once passed, the gate stays passed, holds nothing back, and keeps any axis it has locked. */
  lemma PassedGateStaysPassed(o: Options, g: Gate, s: Sample)
    requires g.passed
    ensures !Held(o, g, s)
    ensures GateAfter(o, g, s).passed
    ensures g.locked.Some? ==> GateAfter(o, g, s).locked == g.locked
  {
  }

  /** Once passed and locked, the gate does not change again during the session. */
  lemma LockedGateIsStable(o: Options, g: Gate, s: Sample)
    requires g.passed && g.locked.Some?
    ensures GateAfter(o, g, s) == g
  {
  }

  /** A zero movement from an idle gate reports a zero delta and leaves the gate idle. */
  lemma {:induction false} NoMovementFromIdle(o: Options)
    ensures GateAfter(o, Gate(false, None), Sample(0.0, 0.0)) == Gate(false, None)
    ensures DeltaFor(o, Gate(false, None), 0.0, 0.0) == Delta(0.0, 0.0)
  {
    if o.threshold > 0.0 {
      assert !DragThreshold.Reached(o.axis, o.threshold, 0.0, 0.0);
    }
  }

  /** The pointer fields of a `PointerEvent` that the orchestrator reads. */
  datatype PointerSample = PointerSample(pointerId: int, clientX: real, clientY: real)

  /** The payload handed to the callbacks. */
  datatype EventData = EventData(evt: PointerSample, startX: real, startY: real, deltaX: real, deltaY: real)

  datatype Callback = OnStart(data: EventData) | OnMove(data: EventData) | OnEnd(data: EventData)

  class PointerDragSession {
    const options: Options

    var isDragging: bool
    var activePointerId: Option<int>
    /** Whether `captureEl` holds the pressed element. */
    var captured: bool
    /** Whether the window move/up/cancel and the lost-capture listeners are attached. */
    var listening: bool
    var thresholdPassed: bool
    var lockedAxis: Option<LockedAxis>
    var startX: real
    var startY: real
    var deltaX: real
    var deltaY: real
    var trace: seq<Callback>

    /** The state `cleanup()` leaves behind (it does not touch `isDragging`). */
    predicate Idle()
      reads this
    {
      && activePointerId.None? && !captured && !listening
      && !thresholdPassed && lockedAxis.None?
      && startX == 0.0 && startY == 0.0 && deltaX == 0.0 && deltaY == 0.0
    }

    /** Session invariants kept by every handler. */
    predicate Valid()
      reads this
    {
      && options.threshold >= 0.0
      && (activePointerId.Some? <==> listening)
      && (activePointerId.Some? <==> captured)
      && (activePointerId.Some? ==> isDragging)
      && (lockedAxis.Some? ==> thresholdPassed && options.lockAxisAfterThreshold && options.axis == Both)
      && (thresholdPassed ==> options.threshold > 0.0)
      && (activePointerId.None? ==> !thresholdPassed && lockedAxis.None? && deltaX == 0.0 && deltaY == 0.0)
    }

    function CurrentGate(): Gate
      reads this
    {
      Gate(thresholdPassed, lockedAxis)
    }

    constructor (raw: RawOptions)
      ensures options == Normalize(raw)
      ensures Valid() && Idle() && !isDragging && trace == []
    {
      options := Normalize(raw);
      isDragging := false;
      activePointerId := None;
      captured := false;
      listening := false;
      thresholdPassed := false;
      lockedAxis := None;
      startX, startY, deltaX, deltaY := 0.0, 0.0, 0.0, 0.0;
      trace := [];
    }

    /** `computeDelta(e)`: may latch the threshold and lock the axis. */
    method ComputeDelta(clientX: real, clientY: real) returns (d: Delta)
      modifies this
      ensures d == DeltaFor(options, old(CurrentGate()), clientX - old(startX), clientY - old(startY))
      ensures CurrentGate() == GateAfter(options, old(CurrentGate()),
                Sample(Abs(clientX - old(startX)), Abs(clientY - old(startY))))
      ensures isDragging == old(isDragging) && activePointerId == old(activePointerId)
      ensures captured == old(captured) && listening == old(listening)
      ensures startX == old(startX) && startY == old(startY)
      ensures deltaX == old(deltaX) && deltaY == old(deltaY) && trace == old(trace)
    {
      var rawDeltaX := clientX - startX;
      var rawDeltaY := clientY - startY;
      var absX := Abs(rawDeltaX);
      var absY := Abs(rawDeltaY);
      if !thresholdPassed && options.threshold > 0.0 {
        var passed := false;
        if options.axis == X {
          passed := absX >= options.threshold;
        } else if options.axis == Y {
          passed := absY >= options.threshold;
        } else {
          passed := Max(absX, absY) >= options.threshold;
        }
        if !passed {
          return Delta(0.0, 0.0);
        }
        thresholdPassed := true;
      }
      if thresholdPassed && options.lockAxisAfterThreshold && options.axis == Both && lockedAxis.None? {
        lockedAxis := Some(if absX > absY then LockX else LockY);
      }
      var effectiveAxis := if lockedAxis.Some? then AsAxis(lockedAxis.value) else options.axis;
      var dx := if effectiveAxis == Y then 0.0 else rawDeltaX;
      var dy := if effectiveAxis == X then 0.0 else rawDeltaY;
      if options.invert == Some(X) || options.invert == Some(Both) {
        dx := -dx;
      }
      if options.invert == Some(Y) || options.invert == Some(Both) {
        dy := -dy;
      }
      return Delta(dx, dy);
    }

    /** `createEventData(e)`: the payload carries the start position and the computed delta. */
    method CreateEventData(e: PointerSample) returns (data: EventData)
      modifies this
      ensures data == EventData(e, old(startX), old(startY),
                DeltaFor(options, old(CurrentGate()), e.clientX - old(startX), e.clientY - old(startY)).x,
                DeltaFor(options, old(CurrentGate()), e.clientX - old(startX), e.clientY - old(startY)).y)
      ensures CurrentGate() == GateAfter(options, old(CurrentGate()),
                Sample(Abs(e.clientX - old(startX)), Abs(e.clientY - old(startY))))
      ensures isDragging == old(isDragging) && activePointerId == old(activePointerId)
      ensures captured == old(captured) && listening == old(listening)
      ensures startX == old(startX) && startY == old(startY)
      ensures deltaX == old(deltaX) && deltaY == old(deltaY) && trace == old(trace)
    {
      var d := ComputeDelta(e.clientX, e.clientY);
      data := EventData(e, startX, startY, d.x, d.y);
    }

    /**
     * `onPointerDown(e)`. `hasTarget` is whether the event has a current
     * target; `startVeto` is whether `onStart` returns `false` for it.
     */
    method PointerDown(e: PointerSample, hasTarget: bool, startVeto: bool)
      requires Valid()
      modifies this
      ensures Valid()
      ensures old(activePointerId).Some? || options.disabled || !hasTarget ==> unchanged(this)
      ensures old(activePointerId).None? && !options.disabled && hasTarget ==>
        && startX == e.clientX && startY == e.clientY
        && trace == old(trace) + (if options.hasOnStart then [OnStart(EventData(e, e.clientX, e.clientY, 0.0, 0.0))] else [])
        && !thresholdPassed && lockedAxis.None? && deltaX == 0.0 && deltaY == 0.0
        && (if options.hasOnStart && startVeto
            then activePointerId.None? && !captured && !listening && isDragging == old(isDragging)
            else activePointerId == Some(e.pointerId) && captured && listening && isDragging)
    {
      if activePointerId.Some? || options.disabled || !hasTarget {
        return;
      }
      startX := e.clientX;
      startY := e.clientY;
      NoMovementFromIdle(options);
      var data := CreateEventData(e);
      if options.hasOnStart {
        trace := trace + [OnStart(data)];
        if startVeto {
          return;
        }
      }
      captured := true;
      activePointerId := Some(e.pointerId);
      isDragging := true;
      listening := true;
    }

    /** `onPointerMove(e)`: only the active pointer of a dragging session moves it. */
    method PointerMove(e: PointerSample)
      requires Valid()
      modifies this
      ensures Valid()
      ensures !old(isDragging) || old(activePointerId) != Some(e.pointerId) ==> unchanged(this)
      ensures old(isDragging) && old(activePointerId) == Some(e.pointerId) ==>
        var d := DeltaFor(options, old(CurrentGate()), e.clientX - old(startX), e.clientY - old(startY));
        && CurrentGate() == GateAfter(options, old(CurrentGate()),
             Sample(Abs(e.clientX - old(startX)), Abs(e.clientY - old(startY))))
        && deltaX == d.x && deltaY == d.y
        && trace == old(trace) + (if options.hasOnMove then [OnMove(EventData(e, old(startX), old(startY), d.x, d.y))] else [])
        && isDragging && activePointerId == old(activePointerId) && captured && listening
        && startX == old(startX) && startY == old(startY)
    {
      if !isDragging || activePointerId != Some(e.pointerId) {
        return;
      }
      var data := CreateEventData(e);
      deltaX := data.deltaX;
      deltaY := data.deltaY;
      if options.hasOnMove {
        trace := trace + [OnMove(data)];
      }
    }

    /** `onPointerUp(e)`, also bound to `pointercancel`. */
    method PointerUp(e: PointerSample)
      requires Valid()
      modifies this
      ensures Valid()
      ensures old(activePointerId) != Some(e.pointerId) ==> unchanged(this)
      ensures old(activePointerId) == Some(e.pointerId) ==>
        var d := DeltaFor(options, old(CurrentGate()), e.clientX - old(startX), e.clientY - old(startY));
        && !isDragging && Idle()
        && trace == old(trace) + (if options.hasOnEnd then [OnEnd(EventData(e, old(startX), old(startY), d.x, d.y))] else [])
    {
      if activePointerId != Some(e.pointerId) {
        return;
      }
      EndDrag(e);
    }

    /** `onLostPointerCapture(e)`: ends the session exactly like a release. */
    method LostPointerCapture(e: PointerSample)
      requires Valid()
      modifies this
      ensures Valid()
      ensures old(activePointerId) != Some(e.pointerId) ==> unchanged(this)
      ensures old(activePointerId) == Some(e.pointerId) ==>
        var d := DeltaFor(options, old(CurrentGate()), e.clientX - old(startX), e.clientY - old(startY));
        && !isDragging && Idle()
        && trace == old(trace) + (if options.hasOnEnd then [OnEnd(EventData(e, old(startX), old(startY), d.x, d.y))] else [])
    {
      if activePointerId != Some(e.pointerId) {
        return;
      }
      EndDrag(e);
    }

    /** `endDrag(e)`: reports the final delta (whether or not the threshold was passed) and cleans up. */
    method EndDrag(e: PointerSample)
      requires Valid()
      modifies this
      ensures Valid()
      ensures !old(isDragging) ==> unchanged(this)
      ensures old(isDragging) ==>
        var d := DeltaFor(options, old(CurrentGate()), e.clientX - old(startX), e.clientY - old(startY));
        && !isDragging && Idle()
        && trace == old(trace) + (if options.hasOnEnd then [OnEnd(EventData(e, old(startX), old(startY), d.x, d.y))] else [])
    {
      if !isDragging {
        return;
      }
      var data := CreateEventData(e);
      deltaX := data.deltaX;
      deltaY := data.deltaY;
      isDragging := false;
      if options.hasOnEnd {
        trace := trace + [OnEnd(data)];
      }
      Cleanup();
    }

    /** `cleanup()`: detaches listeners, releases capture and clears the session, but not `isDragging`. */
    method Cleanup()
      modifies this
      ensures Idle()
      ensures isDragging == old(isDragging) && trace == old(trace)
    {
      listening := false;
      captured := false;
      activePointerId := None;
      thresholdPassed := false;
      lockedAxis := None;
      startX, startY, deltaX, deltaY := 0.0, 0.0, 0.0, 0.0;
    }

    /** The component unmounts: `cleanup()` runs, leaving `isDragging` as it was. */
    method Teardown()
      requires Valid()
      modifies this
      ensures Valid() && Idle()
      ensures isDragging == old(isDragging) && trace == old(trace)
    {
      Cleanup();
    }
  }
}
