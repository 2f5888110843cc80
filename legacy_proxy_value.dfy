/**
 * The first `useProxyValue` of the core package. `apply` writes the buffer
 * to a defined source without touching `isApplied`; only the watcher sets
 * it, and the watcher leaves it alone when the source becomes undefined.
 * The default is a plain value fixed at creation.
 */
module LegacyProxyValue {
  import opened Wrappers

  class LegacyProxy<T(==)> {
    const autoApply: bool
    const defaultValue: T
    var source: Option<T>
    var buffer: T
    var isApplied: bool

    /** What this generation does keep: an applied flag with a defined source means the buffer is the source. */
    predicate WeaklyCoherent()
      reads this
    {
      isApplied && source.Some? ==> source == Some(buffer)
    }

    function Value(): (v: T)
      reads this
      ensures WeaklyCoherent() ==> v == buffer
      ensures !isApplied || source.None? ==> v == buffer
      ensures isApplied && source.Some? ==> v == source.value
    {
      if !isApplied || source.None? then buffer else source.value
    }

    constructor (source: Option<T>, defaultValue: T, autoApplyOption: Option<bool>)
      ensures this.source == source && this.defaultValue == defaultValue
      ensures autoApply == autoApplyOption.GetOr(true)
      ensures buffer == (if source.Some? then source.value else defaultValue)
      ensures isApplied <==> source.Some?
      ensures WeaklyCoherent()
    {
      autoApply := autoApplyOption.GetOr(true);
      this.defaultValue := defaultValue;
      this.source := source;
      buffer := if source.None? then defaultValue else source.value;
      isApplied := source.Some?;
    }

    /** The watcher: a defined value is mirrored and marks the buffer applied; undefined only reloads the default. */
    method Watch(v: Option<T>)
      modifies this
      ensures v.Some? ==> buffer == v.value && isApplied
      ensures v.None? ==> buffer == defaultValue && isApplied == old(isApplied)
      ensures source == old(source)
    {
      if v.None? {
        buffer := defaultValue;
      } else {
        buffer := v.value;
        isApplied := true;
      }
    }

    /** `apply()`: the write triggers the watcher only when it changes the source. */
    method Apply()
      modifies this
      ensures old(source).Some? ==> source == Some(old(buffer)) && buffer == old(buffer)
      ensures old(source).Some? && old(source) != Some(old(buffer)) ==> isApplied
      ensures old(source).Some? && old(source) == Some(old(buffer)) ==> isApplied == old(isApplied)
      ensures old(source).None? ==> unchanged(this)
      ensures old(WeaklyCoherent()) ==> WeaklyCoherent()
    {
      if source.Some? {
        var changed := source != Some(buffer);
        source := Some(buffer);
        if changed {
          Watch(source);
        }
      }
    }

    method SetValue(val: T)
      modifies this
      ensures buffer == val
      ensures autoApply && old(source).Some? ==> source == Some(val)
      ensures autoApply && old(source).Some? && old(source) != Some(val) ==> isApplied
      ensures !(autoApply && old(source).Some? && old(source) != Some(val)) ==> !isApplied
      ensures !(autoApply && old(source).Some?) ==> source == old(source)
      ensures WeaklyCoherent()
      ensures Value() == val
    {
      buffer := val;
      isApplied := false;
      if autoApply {
        Apply();
      }
    }

    /** `reset()`, internal to the composable (it is not returned to callers). */
    method Reset()
      modifies this
      ensures buffer == (if source.Some? then source.value else defaultValue)
      ensures isApplied <==> source.Some?
      ensures source == old(source)
      ensures WeaklyCoherent()
    {
      buffer := if source.None? then defaultValue else source.value;
      isApplied := source.Some?;
    }

    /** The owner writes the source; the watcher runs when the value changes. */
    method SetSource(v: Option<T>)
      modifies this
      ensures source == v
      ensures v == old(source) ==> buffer == old(buffer) && isApplied == old(isApplied)
      ensures v != old(source) && v.Some? ==> buffer == v.value && isApplied
      ensures v != old(source) && v.None? ==> buffer == defaultValue && isApplied == old(isApplied)
      ensures old(WeaklyCoherent()) ==> WeaklyCoherent()
    {
      var changed := v != source;
      source := v;
      if changed {
        Watch(v);
      }
    }

    method WriteBuffer(v: T)
      modifies this
      ensures buffer == v && source == old(source) && isApplied == old(isApplied)
      ensures isApplied && source.Some? ==> Value() == source.value
      ensures !isApplied || source.None? ==> Value() == v
    {
      buffer := v;
    }
  }

  /**
   * The applied flag outlives its source: after the source is cleared the
   * composable still reports the buffer as applied, although nothing is
   * committed and `apply` will do nothing.
   */
  method StaleAppliedFlag() returns (applied: bool, sourceDefined: bool)
    ensures applied && !sourceDefined
  {
    var p := new LegacyProxy<int>(Some(1), 0, None);
    p.SetSource(None);
    applied, sourceDefined := p.isApplied, p.source.Some?;
  }
}
