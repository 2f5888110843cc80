/**
 * Edge-triggered threshold crossing (`useDragThreshold`): once the movement
 * reaches the threshold on the allowed axis, `passed` latches to true until
 * `Reset`. A threshold of zero or less passes on the first check.
 */
module DragThreshold {
  import opened DragTypes

  /** Whether one pair of magnitudes reaches the threshold on the allowed axis. */
  predicate Reached(axis: DragAxis, threshold: real, absX: real, absY: real) {
    (axis == X && absX >= threshold)
    || (axis == Y && absY >= threshold)
    || (axis == Both && Max(absX, absY) >= threshold)
  }

  /** On a free drag, reaching the threshold means either magnitude reaches it. */
  lemma ReachedBothEither(threshold: real, absX: real, absY: real)
    ensures Reached(Both, threshold, absX, absY) <==> absX >= threshold || absY >= threshold
  {
  }

  /** The `passed` flag after one `check(absX, absY)`; `check` returns this same value. */
  function CheckStep(passed: bool, axis: DragAxis, threshold: real, s: Sample): bool {
    passed || threshold <= 0.0 || Reached(axis, threshold, s.absX, s.absY)
  }

  /** The `passed` flag after a series of checks. */
  function PassedAfter(passed: bool, axis: DragAxis, threshold: real, samples: seq<Sample>): bool
    decreases |samples|
  {
    if samples == [] then passed
    else PassedAfter(CheckStep(passed, axis, threshold, samples[0]), axis, threshold, samples[1..])
  }

  /** The flag latches: once passed, later checks keep it passed whatever they see. */
  lemma {:induction false} PassedLatches(axis: DragAxis, threshold: real, samples: seq<Sample>)
    ensures PassedAfter(true, axis, threshold, samples)
    decreases |samples|
  {
    if samples != [] {
      PassedLatches(axis, threshold, samples[1..]);
    }
  }

  /**
   * From a reset state, a series of checks has passed exactly when there was
   * at least one check and either the threshold is not positive or some
   * sample reached it (edge-triggered: falling back below does not undo it).
   */
  lemma {:induction false} PassedAfterIff(axis: DragAxis, threshold: real, samples: seq<Sample>)
    ensures PassedAfter(false, axis, threshold, samples)
        <==> |samples| > 0
             && (threshold <= 0.0
                 || exists k | 0 <= k < |samples| :: Reached(axis, threshold, samples[k].absX, samples[k].absY))
    decreases |samples|
  {
    if samples != [] {
      if CheckStep(false, axis, threshold, samples[0]) {
        PassedLatches(axis, threshold, samples[1..]);
      } else {
        PassedAfterIff(axis, threshold, samples[1..]);
        if exists k | 0 <= k < |samples| :: Reached(axis, threshold, samples[k].absX, samples[k].absY) {
          var k :| 0 <= k < |samples| && Reached(axis, threshold, samples[k].absX, samples[k].absY);
          assert k > 0;
          assert samples[1..][k - 1] == samples[k];
        }
        if exists k | 0 <= k < |samples[1..]| :: Reached(axis, threshold, samples[1..][k].absX, samples[1..][k].absY) {
          var k :| 0 <= k < |samples[1..]| && Reached(axis, threshold, samples[1..][k].absX, samples[1..][k].absY);
          assert samples[k + 1] == samples[1..][k];
        }
      }
    }
  }

  class Threshold {
    var passed: bool

    constructor ()
      ensures !passed
    {
      passed := false;
    }

    /** `check(absX, absY)`; the `axis` and `threshold` refs are read at call time. */
    method Check(axis: DragAxis, threshold: real, absX: real, absY: real) returns (r: bool)
      modifies this
      ensures r == passed
      ensures passed == CheckStep(old(passed), axis, threshold, Sample(absX, absY))
    {
      if passed {
        return true;
      }
      if threshold <= 0.0 {
        passed := true;
        return true;
      }
      if (axis == X && absX >= threshold)
        || (axis == Y && absY >= threshold)
        || (axis == Both && Max(absX, absY) >= threshold)
      {
        passed := true;
        return true;
      }
      return false;
    }

    method Reset()
      modifies this
      ensures !passed
    {
      passed := false;
    }
  }
}
