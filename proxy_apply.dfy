/**
 * `useProxyValue` of the core package (the `apply` generation): the same
 * buffer-in-front-of-source design as the Vue core version, with the
 * commit named `apply` and auto-apply fixed at creation.
 */
module ProxyApply {
  import opened Wrappers

  class AppliedProxy<T(==)> {
    const autoApply: bool
    var source: Option<T>
    var buffer: T
    var isApplied: bool

    /** `isApplied` promises that the source holds exactly the buffer. */
    predicate Coherent()
      reads this
    {
      isApplied ==> source == Some(buffer)
    }

    function Value(): (v: T)
      reads this
      ensures Coherent() ==> v == buffer
      ensures !isApplied || source.None? ==> v == buffer
      ensures isApplied && source.Some? ==> v == source.value
    {
      if !isApplied || source.None? then buffer else source.value
    }

    constructor (source: Option<T>, freshDefault: T, autoApplyOption: Option<bool>)
      ensures this.source == source && autoApply == autoApplyOption.GetOr(true)
      ensures buffer == (if source.Some? then source.value else freshDefault)
      ensures isApplied <==> source.Some?
      ensures Coherent()
    {
      autoApply := autoApplyOption.GetOr(true);
      this.source := source;
      buffer := if source.None? then freshDefault else source.value;
      isApplied := source.Some?;
    }

    method WatchDefined(v: T)
      modifies this
      ensures buffer == v && isApplied && source == old(source)
    {
      buffer := v;
      isApplied := true;
    }

    method WatchUndefined(freshDefault: T)
      modifies this
      ensures buffer == freshDefault && !isApplied && source == old(source)
    {
      buffer := freshDefault;
      isApplied := false;
    }

    /** `apply()`: commits the buffer to a defined source. */
    method Apply()
      modifies this
      ensures old(source).Some? ==> source == Some(old(buffer)) && isApplied && Coherent()
      ensures old(source).None? ==> source == old(source) && isApplied == old(isApplied)
      ensures buffer == old(buffer)
      ensures old(Coherent()) ==> Coherent()
    {
      if source.Some? {
        var changed := source != Some(buffer);
        source := Some(buffer);
        isApplied := true;
        if changed {
          WatchDefined(source.value);
        }
      }
    }

    method SetValue(val: T)
      modifies this
      ensures buffer == val
      ensures autoApply && old(source).Some? ==> source == Some(val) && isApplied
      ensures !(autoApply && old(source).Some?) ==> source == old(source) && !isApplied
      ensures Coherent()
      ensures Value() == val
    {
      buffer := val;
      isApplied := false;
      if autoApply {
        Apply();
      }
    }

    method Reset(freshDefault: T)
      modifies this
      ensures buffer == (if source.Some? then source.value else freshDefault)
      ensures isApplied <==> source.Some?
      ensures source == old(source)
      ensures Coherent()
    {
      buffer := if source.None? then freshDefault else source.value;
      isApplied := source.Some?;
    }

    /** The owner writes the source; the watcher mirrors a changed value into the buffer. */
    method SetSource(v: Option<T>, freshDefault: T)
      modifies this
      ensures source == v
      ensures v == old(source) ==> buffer == old(buffer) && isApplied == old(isApplied)
      ensures v != old(source) && v.Some? ==> buffer == v.value && isApplied
      ensures v != old(source) && v.None? ==> buffer == freshDefault && !isApplied
      ensures v != old(source) ==> Coherent()
      ensures old(Coherent()) ==> Coherent()
    {
      var changed := v != source;
      source := v;
      if changed {
        if v.None? {
          WatchUndefined(freshDefault);
        } else {
          WatchDefined(v.value);
        }
      }
    }

    method WriteBuffer(v: T)
      modifies this
      ensures buffer == v && source == old(source) && isApplied == old(isApplied)
      ensures isApplied && source.Some? ==> Value() == source.value
      ensures !isApplied || source.None? ==> Value() == v
    {
      buffer := v;
    }
  }
}
