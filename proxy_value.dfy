/**
 * `useProxyValue` of the Vue core package: a local buffer in front of an
 * optional source value. Writes go to the buffer and are committed to the
 * source by `sync` (automatically while auto-sync is on); external changes
 * of the source are mirrored into the buffer by a watcher. A source of
 * `None` stands for `undefined`; the default value is resolved by the
 * caller of each operation that needs it (it may come from a getter).
 *
 * Vue runs a watcher only when the watched value changes; the model runs
 * the watcher synchronously right after each write that changes the source.
 */
module ProxyValue {
  import opened Wrappers

  class SyncedProxy<T(==)> {
    var source: Option<T>
    var buffer: T
    var isSynced: bool
    var autoSync: bool

    /** `isSynced` promises that the source holds exactly the buffer. */
    predicate Coherent()
      reads this
    {
      isSynced ==> source == Some(buffer)
    }

    /** The getter of `value`: the source while synced and defined, the buffer otherwise. */
    function Value(): (v: T)
      reads this
      ensures Coherent() ==> v == buffer
      ensures !isSynced || source.None? ==> v == buffer
      ensures isSynced && source.Some? ==> v == source.value
    {
      if !isSynced || source.None? then buffer else source.value
    }

    /** `useProxyValue(source, default, { autoSync })`; an absent `autoSync` option means on. */
    constructor (source: Option<T>, freshDefault: T, autoSyncOption: Option<bool>)
      ensures this.source == source && autoSync == autoSyncOption.GetOr(true)
      ensures buffer == (if source.Some? then source.value else freshDefault)
      ensures isSynced <==> source.Some?
      ensures Coherent()
    {
      this.source := source;
      autoSync := autoSyncOption.GetOr(true);
      buffer := if source.None? then freshDefault else source.value;
      isSynced := source.Some?;
    }

    /** The watcher's reaction to a defined source value. */
    method WatchDefined(v: T)
      modifies this
      ensures buffer == v && isSynced
      ensures source == old(source) && autoSync == old(autoSync)
    {
      buffer := v;
      isSynced := true;
    }

    /** The watcher's reaction to an undefined source value. */
    method WatchUndefined(freshDefault: T)
      modifies this
      ensures buffer == freshDefault && !isSynced
      ensures source == old(source) && autoSync == old(autoSync)
    {
      buffer := freshDefault;
      isSynced := false;
    }

    /**
     * `sync()`: commits the buffer to a defined source; nothing happens
     * while the source is undefined. The watcher run caused by the commit
     * leaves the state as the commit made it.
     */
    method Sync()
      modifies this
      ensures old(source).Some? ==> source == Some(old(buffer)) && isSynced
      ensures old(source).None? ==> source == old(source) && isSynced == old(isSynced)
      ensures buffer == old(buffer) && autoSync == old(autoSync)
      ensures old(source).Some? ==> Coherent()
      ensures old(Coherent()) ==> Coherent()
    {
      if source.Some? {
        var changed := source != Some(buffer);
        source := Some(buffer);
        isSynced := true;
        if changed {
          WatchDefined(source.value);
        }
      }
    }

    /** The setter of `value`: stage the value and commit it when auto-sync is on. */
    method SetValue(val: T)
      modifies this
      ensures buffer == val && autoSync == old(autoSync)
      ensures autoSync && old(source).Some? ==> source == Some(val) && isSynced
      ensures !(autoSync && old(source).Some?) ==> source == old(source) && !isSynced
      ensures Coherent()
      ensures Value() == val
    {
      buffer := val;
      isSynced := false;
      if autoSync {
        Sync();
      }
    }

    /** `reset()`: discard the staged value, reloading the buffer from the source or the default. */
    method Reset(freshDefault: T)
      modifies this
      ensures buffer == (if source.Some? then source.value else freshDefault)
      ensures isSynced <==> source.Some?
      ensures source == old(source) && autoSync == old(autoSync)
      ensures Coherent()
    {
      buffer := if source.None? then freshDefault else source.value;
      isSynced := source.Some?;
    }

    method EnableAutoSync()
      modifies this
      ensures autoSync
      ensures source == old(source) && buffer == old(buffer) && isSynced == old(isSynced)
    {
      autoSync := true;
    }

    method DisableAutoSync()
      modifies this
      ensures !autoSync
      ensures source == old(source) && buffer == old(buffer) && isSynced == old(isSynced)
    {
      autoSync := false;
    }

    /** The owner writes the source; the watcher mirrors a changed value into the buffer. */
    method SetSource(v: Option<T>, freshDefault: T)
      modifies this
      ensures source == v && autoSync == old(autoSync)
      ensures v == old(source) ==> buffer == old(buffer) && isSynced == old(isSynced)
      ensures v != old(source) && v.Some? ==> buffer == v.value && isSynced
      ensures v != old(source) && v.None? ==> buffer == freshDefault && !isSynced
      ensures v != old(source) ==> Coherent()
      ensures old(Coherent()) ==> Coherent()
    {
      var changed := v != source;
      source := v;
      if changed {
        if v.None? {
          WatchUndefined(freshDefault);
        } else {
          WatchDefined(v.value);
        }
      }
    }

    /** A direct write to the exposed `buffer` ref: nothing else changes, so a synced proxy with a defined source still reads the source. */
    method WriteBuffer(v: T)
      modifies this
      ensures buffer == v
      ensures source == old(source) && isSynced == old(isSynced) && autoSync == old(autoSync)
      ensures isSynced && source.Some? ==> Value() == source.value
      ensures !isSynced || source.None? ==> Value() == v
    {
      buffer := v;
    }
  }
}
