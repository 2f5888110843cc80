/**
 * One-shot axis locking of a free drag (`useDragAxisLock`): when enabled and
 * the allowed axis is `"both"`, the first update commits the drag to the
 * dominant axis, and the lock stays until `Reset`.
 */
module DragAxisLock {
  import opened Wrappers
  import opened DragTypes

  /** The axis chosen from one pair of magnitudes: X only when it strictly dominates. */
  function Dominant(s: Sample): (l: LockedAxis)
    ensures l == LockX <==> s.absX > s.absY
  {
    if s.absX > s.absY then LockX else LockY
  }

  /** The lock after one `update(absX, absY)` call, given the current lock. */
  function LockStep(locked: Option<LockedAxis>, axis: DragAxis, enabled: bool, s: Sample): Option<LockedAxis> {
    if !enabled || axis != Both || locked.Some? then locked else Some(Dominant(s))
  }

  /** The lock after a series of `update` calls. */
  function LockAfter(locked: Option<LockedAxis>, axis: DragAxis, enabled: bool, samples: seq<Sample>): Option<LockedAxis>
    decreases |samples|
  {
    if samples == [] then locked
    else LockAfter(LockStep(locked, axis, enabled, samples[0]), axis, enabled, samples[1..])
  }

  /** Once an axis is locked, no further update changes it. */
  lemma {:induction false} LockIsOneShot(locked: Option<LockedAxis>, axis: DragAxis, enabled: bool, samples: seq<Sample>)
    requires locked.Some?
    ensures LockAfter(locked, axis, enabled, samples) == locked
    decreases |samples|
  {
    if samples != [] {
      LockIsOneShot(LockStep(locked, axis, enabled, samples[0]), axis, enabled, samples[1..]);
    }
  }

  /** From an unlocked state, the first update of an enabled free drag decides the lock for good. */
  lemma {:induction false} FirstUpdateDecides(axis: DragAxis, enabled: bool, samples: seq<Sample>)
    requires enabled && axis == Both && |samples| > 0
    ensures LockAfter(None, axis, enabled, samples) == Some(Dominant(samples[0]))
  {
    LockIsOneShot(Some(Dominant(samples[0])), axis, enabled, samples[1..]);
  }

  /** A disabled lock, or a drag restricted to one axis, never locks. */
  lemma {:induction false} NeverLocksUnlessFreeAndEnabled(axis: DragAxis, enabled: bool, samples: seq<Sample>)
    requires !enabled || axis != Both
    ensures LockAfter(None, axis, enabled, samples) == None
    decreases |samples|
  {
    if samples != [] {
      NeverLocksUnlessFreeAndEnabled(axis, enabled, samples[1..]);
    }
  }

  class AxisLock {
    var locked: Option<LockedAxis>

    constructor ()
      ensures locked == None
    {
      locked := None;
    }

    /** `update(absX, absY)`; the `axis` and `enabled` refs are read at call time. */
    method Update(axis: DragAxis, enabled: bool, absX: real, absY: real)
      modifies this
      ensures locked == LockStep(old(locked), axis, enabled, Sample(absX, absY))
      ensures old(locked).Some? ==> locked == old(locked)
    {
      if !enabled || axis != Both || locked.Some? {
        return;
      }
      locked := Some(if absX > absY then LockX else LockY);
    }

    method Reset()
      modifies this
      ensures locked == None
    {
      locked := None;
    }
  }
}
