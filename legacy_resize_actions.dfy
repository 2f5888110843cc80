/**
 * `useResizeActions` of ui, the older model: collapse always emits the min
 * percent and remembers the current percent unless already collapsed;
 * expand emits the memory when there is one, else the max percent, and
 * never clears it.
 */
module LegacyResizeActions {
  import opened Wrappers
  import ResizeActions

  /** `collapse()`. */
  function CollapseStep(memory: Option<real>, layout: ResizeActions.Layout): (o: ResizeActions.Outcome)
    ensures layout.containerSize == 0.0 ==> o == ResizeActions.Outcome(None, memory)
    ensures layout.containerSize != 0.0 ==> o.emitted == Some(ResizeActions.MinPercent(layout))
    ensures layout.containerSize != 0.0 && !ResizeActions.IsCollapsed(layout) ==> o.memory == Some(layout.currentPercent)
    ensures ResizeActions.IsCollapsed(layout) ==> o.memory == memory
  {
    if layout.containerSize == 0.0 then ResizeActions.Outcome(None, memory)
    else
      var m := if !ResizeActions.IsCollapsed(layout) then Some(layout.currentPercent) else memory;
      ResizeActions.Outcome(Some(ResizeActions.MinPercent(layout)), m)
  }

  /** `expand()`. */
  function ExpandStep(memory: Option<real>, layout: ResizeActions.Layout): (o: ResizeActions.Outcome)
    ensures o.memory == memory
    ensures layout.containerSize == 0.0 ==> o.emitted.None?
    ensures layout.containerSize != 0.0 ==> o.emitted == Some(memory.GetOr(ResizeActions.MaxPercent(layout)))
  {
    if layout.containerSize == 0.0 then ResizeActions.Outcome(None, memory)
    else ResizeActions.Outcome(Some(if memory.Some? then memory.value else ResizeActions.MaxPercent(layout)), memory)
  }

  /** `toggle()`. */
  function ToggleStep(memory: Option<real>, layout: ResizeActions.Layout): (o: ResizeActions.Outcome)
    ensures ResizeActions.IsCollapsed(layout) ==> o == ExpandStep(memory, layout)
    ensures !ResizeActions.IsCollapsed(layout) ==> o == CollapseStep(memory, layout)
  {
    if ResizeActions.IsCollapsed(layout) then ExpandStep(memory, layout) else CollapseStep(memory, layout)
  }

  /** The closure state: `lastExpandedPercent`. */
  class LegacyResizeActionsState {
    var lastExpandedPercent: Option<real>

    constructor()
      ensures lastExpandedPercent == None
    {
      lastExpandedPercent := None;
    }

    method Collapse(layout: ResizeActions.Layout) returns (emitted: Option<real>)
      modifies this
      ensures ResizeActions.Outcome(emitted, lastExpandedPercent) == CollapseStep(old(lastExpandedPercent), layout)
    {
      emitted := None;
      if layout.containerSize == 0.0 {
        return;
      }
      if !ResizeActions.IsCollapsed(layout) {
        lastExpandedPercent := Some(layout.currentPercent);
      }
      emitted := Some(ResizeActions.MinPercent(layout));
    }

    method Expand(layout: ResizeActions.Layout) returns (emitted: Option<real>)
      modifies this
      ensures ResizeActions.Outcome(emitted, lastExpandedPercent) == ExpandStep(old(lastExpandedPercent), layout)
    {
      emitted := None;
      if layout.containerSize == 0.0 {
        return;
      }
      var target := if lastExpandedPercent.Some? then lastExpandedPercent.value else ResizeActions.MaxPercent(layout);
      emitted := Some(target);
    }

    method Toggle(layout: ResizeActions.Layout) returns (emitted: Option<real>)
      modifies this
      ensures ResizeActions.Outcome(emitted, lastExpandedPercent) == ToggleStep(old(lastExpandedPercent), layout)
    {
      if ResizeActions.IsCollapsed(layout) {
        emitted := Expand(layout);
        return;
      }
      emitted := Collapse(layout);
    }
  }

  /** Collapsing a pane of normal size and expanding it again gives back its size. */
  lemma CollapseThenExpandRestores(memory: Option<real>, layout: ResizeActions.Layout)
    requires layout.containerSize != 0.0 && !ResizeActions.IsCollapsed(layout)
    ensures var c := CollapseStep(memory, layout);
      && c.emitted == Some(ResizeActions.MinPercent(layout))
      && ExpandStep(c.memory, layout.WithCurrent(ResizeActions.MinPercent(layout))).emitted == Some(layout.currentPercent)
  {
  }

  /**
   * Once anything was remembered, expand never reaches the max percent
   * again: the memory is never cleared.
   */
  lemma MemoryNeverCleared(m: real, layout: ResizeActions.Layout)
    requires layout.containerSize != 0.0
    ensures ExpandStep(Some(m), layout) == ResizeActions.Outcome(Some(m), Some(m))
    ensures CollapseStep(Some(m), layout).memory.Some?
  {
  }
}
