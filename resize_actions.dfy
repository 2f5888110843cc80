/**
 * `useResizeActions` of vue-ui: collapse, expand and toggle a resizable
 * pane, remembering the last "normal" size so that collapsing an expanded
 * pane and expanding a collapsed one restore it. The reactive inputs
 * (container size, current percent, size limits) are read on every call
 * and are given to each call as a `Layout`; `onChange` is the returned
 * `Option`: the percent emitted, if any.
 */
module ResizeActions {
  import opened Wrappers
  import opened SizeValues
  import Arith

  /** The reactive inputs as one call sees them. */
  datatype Layout = Layout(containerSize: real, currentPercent: real, limits: Limits)
  {
    /** The same layout after the parent applied an emitted percent. */
    function WithCurrent(p: real): Layout {
      this.(currentPercent := p)
    }
  }

  const Epsilon: real := 0.5

  /** `minPercent`: the min size (default "0%") normalised against the limits. */
  function MinPercent(layout: Layout): (p: real)
    ensures 0.0 <= p <= 100.0
  {
    NormalizedInRange(Some(layout.limits.minSize.GetOr(Text("0%", 0.0))), layout.containerSize, layout.limits);
    NormalizedPercent(Some(layout.limits.minSize.GetOr(Text("0%", 0.0))), layout.containerSize, layout.limits)
  }

  /** `maxPercent`: the max size (default "100%") normalised against the limits. */
  function MaxPercent(layout: Layout): (p: real)
    ensures 0.0 <= p <= 100.0
  {
    NormalizedInRange(Some(layout.limits.maxSize.GetOr(Text("100%", 100.0))), layout.containerSize, layout.limits);
    NormalizedPercent(Some(layout.limits.maxSize.GetOr(Text("100%", 100.0))), layout.containerSize, layout.limits)
  }

  predicate IsCollapsed(layout: Layout) {
    layout.currentPercent <= MinPercent(layout) + Epsilon
  }

  predicate IsExpanded(layout: Layout) {
    layout.currentPercent >= MaxPercent(layout) - Epsilon
  }

  /** What one action emits and what it leaves in the memory. */
  datatype Outcome = Outcome(emitted: Option<real>, memory: Option<real>)

  /**
   * `collapse()`: nothing without a container; outside restorable mode the
   * min percent; from an expanded pane with a memory, the memory; from a
   * pane that is not collapsed, the min percent after remembering the
   * current one; from a collapsed pane, nothing.
   */
  function CollapseStep(restorable: bool, memory: Option<real>, layout: Layout): (o: Outcome)
    ensures layout.containerSize == 0.0 ==> o == Outcome(None, memory)
    ensures o.memory != memory ==> o.memory == Some(layout.currentPercent) && o.emitted == Some(MinPercent(layout))
    ensures o.emitted.Some? ==> o.emitted.value == MinPercent(layout) || o.emitted == memory
  {
    if layout.containerSize == 0.0 then Outcome(None, memory)
    else if !restorable then Outcome(Some(MinPercent(layout)), memory)
    else if IsExpanded(layout) && memory.Some? then Outcome(memory, memory)
    else if !IsCollapsed(layout) then Outcome(Some(MinPercent(layout)), Some(layout.currentPercent))
    else Outcome(None, memory)
  }

  /**
   * `expand()`: nothing without a container; outside restorable mode the
   * max percent; from a collapsed pane with a memory, the memory; otherwise
   * the max percent. The memory is never written.
   */
  function ExpandStep(restorable: bool, memory: Option<real>, layout: Layout): (o: Outcome)
    ensures o.memory == memory
    ensures layout.containerSize == 0.0 <==> o.emitted.None?
    ensures o.emitted.Some? ==> o.emitted.value == MaxPercent(layout) || o.emitted == memory
    ensures layout.containerSize != 0.0 && restorable && IsCollapsed(layout) && memory.Some? ==> o.emitted == memory
    ensures layout.containerSize != 0.0 && !(restorable && IsCollapsed(layout) && memory.Some?) ==>
      o.emitted == Some(MaxPercent(layout))
  {
    if layout.containerSize == 0.0 then Outcome(None, memory)
    else if !restorable then Outcome(Some(MaxPercent(layout)), memory)
    else if IsCollapsed(layout) && memory.Some? then Outcome(memory, memory)
    else Outcome(Some(MaxPercent(layout)), memory)
  }

  /** `toggle()`: expand a collapsed pane, collapse any other. */
  function ToggleStep(restorable: bool, memory: Option<real>, layout: Layout): (o: Outcome)
    ensures IsCollapsed(layout) ==> o == ExpandStep(restorable, memory, layout)
    ensures !IsCollapsed(layout) ==> o == CollapseStep(restorable, memory, layout)
  {
    if IsCollapsed(layout) then ExpandStep(restorable, memory, layout)
    else CollapseStep(restorable, memory, layout)
  }

  /** The composable's closure state: the restorable flag and `lastRestoredPercent`. */
  class ResizeActionsState {
    const restorable: bool
    var lastRestoredPercent: Option<real>

    /** `useResizeActions(options)`; `restorable` defaults to true. */
    constructor(restorableOption: Option<bool>)
      ensures restorable == restorableOption.GetOr(true)
      ensures lastRestoredPercent == None
    {
      restorable := restorableOption.GetOr(true);
      lastRestoredPercent := None;
    }

    method Collapse(layout: Layout) returns (emitted: Option<real>)
      modifies this
      ensures Outcome(emitted, lastRestoredPercent) == CollapseStep(restorable, old(lastRestoredPercent), layout)
    {
      emitted := None;
      if layout.containerSize == 0.0 {
        return;
      }
      if !restorable {
        emitted := Some(MinPercent(layout));
        return;
      }
      if IsExpanded(layout) && lastRestoredPercent.Some? {
        emitted := lastRestoredPercent;
        return;
      }
      if !IsCollapsed(layout) {
        lastRestoredPercent := Some(layout.currentPercent);
        emitted := Some(MinPercent(layout));
      }
    }

    method Expand(layout: Layout) returns (emitted: Option<real>)
      modifies this
      ensures Outcome(emitted, lastRestoredPercent) == ExpandStep(restorable, old(lastRestoredPercent), layout)
    {
      emitted := None;
      if layout.containerSize == 0.0 {
        return;
      }
      if !restorable {
        emitted := Some(MaxPercent(layout));
        return;
      }
      if IsCollapsed(layout) && lastRestoredPercent.Some? {
        emitted := lastRestoredPercent;
        return;
      }
      emitted := Some(MaxPercent(layout));
    }

    method Toggle(layout: Layout) returns (emitted: Option<real>)
      modifies this
      ensures Outcome(emitted, lastRestoredPercent) == ToggleStep(restorable, old(lastRestoredPercent), layout)
    {
      if IsCollapsed(layout) {
        emitted := Expand(layout);
        return;
      }
      emitted := Collapse(layout);
    }

    /** `setLastRestoredPercent(value)`: overwrites the memory only. */
    method SetLastRestoredPercent(value: real)
      modifies this
      ensures lastRestoredPercent == Some(value)
    {
      lastRestoredPercent := Some(value);
    }
  }

  /** Outside restorable mode collapse emits min and expand emits max, and neither touches the memory. */
  lemma NonRestorableIgnoresMemory(memory: Option<real>, layout: Layout)
    requires layout.containerSize != 0.0
    ensures CollapseStep(false, memory, layout) == Outcome(Some(MinPercent(layout)), memory)
    ensures ExpandStep(false, memory, layout) == Outcome(Some(MaxPercent(layout)), memory)
  {
  }

  /**
   * The restore round trip: collapsing a pane of normal size emits the min
   * percent, and expanding the pane once it sits there emits the size it
   * had before.
   */
  lemma CollapseThenExpandRestores(memory: Option<real>, layout: Layout)
    requires layout.containerSize != 0.0
    requires !IsCollapsed(layout) && !(IsExpanded(layout) && memory.Some?)
    ensures var c := CollapseStep(true, memory, layout);
      && c.emitted == Some(MinPercent(layout))
      && ExpandStep(true, c.memory, layout.WithCurrent(MinPercent(layout))).emitted == Some(layout.currentPercent)
  {
    var collapsed := layout.WithCurrent(MinPercent(layout));
    assert MinPercent(collapsed) == MinPercent(layout);
    assert IsCollapsed(collapsed);
  }

  /** Collapsing an expanded pane that has a memory restores the memory and keeps it. */
  lemma CollapseFromExpandedRestores(m: real, layout: Layout)
    requires layout.containerSize != 0.0 && IsExpanded(layout)
    ensures CollapseStep(true, Some(m), layout) == Outcome(Some(m), Some(m))
  {
  }

  /** A collapsed pane does not collapse again, and its memory is kept. */
  lemma CollapseWhenCollapsedIsSilent(memory: Option<real>, layout: Layout)
    requires layout.containerSize != 0.0 && IsCollapsed(layout)
    requires !(IsExpanded(layout) && memory.Some?)
    ensures CollapseStep(true, memory, layout) == Outcome(None, memory)
  {
  }

  /**
   * A numeric min size of 0 is falsy, so `normalizeSizeToPercent` puts it
   * at half the container: with no max size the min percent is 50, not 0.
   */
  lemma NumericZeroMinIsHalf(containerSize: real, currentPercent: real)
    requires containerSize > 0.0
    ensures MinPercent(Layout(containerSize, currentPercent, Limits(Some(Number(0.0)), None))) == 50.0
  {
    var limits := Limits(Some(Number(0.0)), None);
    var px := containerSize / 2.0;
    assert BasePx(Some(Number(0.0)), containerSize) == px;
    assert WithLimits(px, limits, containerSize) == px;
    assert ClampIn(px, 0.0, containerSize) == px;
    Arith.PercentOfHalf(containerSize);
  }
}
