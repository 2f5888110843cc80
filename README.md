# js-lab core logic in Dafny

This project models the deterministic core of the js-lab monorepo (the
`js-core`, `core`, `vue-core`, `ui` and `vue-ui` packages) and proves
properties of the model. It covers these pieces:

- **Pointer drags.**
  - The `usePointerDrag` building blocks:
    - the axis lock;
    - the threshold latch;
    - the delta calculator;
    - the direction classifier;
    - the velocity tracker.
  - Three pointer-session orchestrators:
    - the Vue core `usePointerDrag`, which gates the deltas by the threshold, locks the axis and inverts it;
    - the older `usePointerDrag` of the core package;
    - the resize-container `useResizeDrag` of the UI package.
- **The typed `Emitter`.** It keeps insertion-ordered handlers per event type. An emit walks a snapshot and removes `once` handlers after they run.
- **Three generations of `useProxyValue`.** Each keeps a staged buffer in front of an optional source, with a synced/applied flag.
- **`withTryCatch`.** Both result families:
  - "safe": a fallback only attaches recovery data to the failure;
  - "common": a fallback turns the failure into a success.
- **Array and object utilities.**
  - `range`/`rangeArray`, `zip`/`zipArray`;
  - the Fisher–Yates `shuffle`/`shuffleArray`;
  - both dot-path `get` functions.
- **Arithmetic.**
  - `clamp`, `toPercentage`, `getAspectRatio`;
  - both `scaleByAspectRatio` families.
- **Pane sizing.**
  - `sizeValueToPx`, `normalizeSizeToPercent`, `clampPercentWithLimits`;
  - the split-pane `useResizeSizes`, the resize-container `useResizeValue`;
  - both collapse/expand/restore `useResizeActions` state machines.
- **`createUUIDV4`.** The `getRandomValues` branch and the `Math.random` template fallback.

Conventions of the model:

- **Composables that keep state in refs or closure variables are classes.** Their methods state the new state in terms of specification functions. Callbacks are recorded in a `trace` field or returned as an `Option`.
- **Vue watchers are explicit.** They are methods that run synchronously right after the write that changes the watched source, and only when the value changes, as Vue does.
- **Option refs are fixed for the lifetime of an instance.** They are `const` fields, except where a building block reads them on every call; there they are method parameters.
- **Numbers.** Coordinates, percents, ratios and velocities are `real`. `range` works on `int`. UUID bytes are `bv8`.
- **JavaScript values.** They are a small datatype: `undefined`, `null`, booleans, numbers, strings, arrays and plain objects.
- **Strings read by `parseFloat`.** They carry the number `parseFloat` reads from them.
- **`Math.random`.** It is replaced by an explicit sequence (or stream) of draws in [0, 1).

Where the intent described for the library and its code differ, the model follows the code:

- the Vue core `usePointerDrag` calls `onEnd` whenever a drag ends, whether or not the threshold was passed;
- it calls `onMove` below the threshold with zero deltas;
- a threshold of 0 never sets `thresholdPassed`, so the axis never locks.

`useResizeActions` (vue-ui) and `useResizeSizes` (vue-core) import a `normalizeSizeToPercent` that is not part of this model. They use the UI package's `normalizeSizeToPercent` and `sizeValueToPx`, which the vue-core tests of that function agree with. Likewise `clampPercentWithLimits` (vue-core) imports the `sizeValueToPx` of vue-core's SplitPane utilities, which is not part of this model; `SizeValues.ClampPercentWithLimits` uses the UI package's `sizeValueToPx`, which the vue-core tests of that function agree with. The two `toPercentage` files (js-core and vue-core) have the same code and are modelled once, by `Arith.ToPercentage`.

## Model

| member | source | states |
|---|---|---|
| DragAxisLock.Dominant | packages/vue-core/src/composables/usePointerDrag/use/useDragAxisLock.ts:32 | the lock is "x" exactly when absX > absY; ties go to "y" |
| DragAxisLock.LockIsOneShot | packages/vue-core/src/composables/usePointerDrag/use/useDragAxisLock.ts:31 | once locked, any series of updates leaves the lock unchanged |
| DragAxisLock.FirstUpdateDecides | packages/vue-core/src/composables/usePointerDrag/use/useDragAxisLock.ts:30-33 | from unlocked, an enabled free drag is locked for good to the dominant axis of its first update |
| DragAxisLock.NeverLocksUnlessFreeAndEnabled | packages/vue-core/src/composables/usePointerDrag/use/useDragAxisLock.ts:31 | a disabled lock, or an axis other than "both", never locks |
| DragAxisLock.AxisLock.constructor | packages/vue-core/src/composables/usePointerDrag/use/useDragAxisLock.ts:28 | starts unlocked |
| DragAxisLock.AxisLock.Update | packages/vue-core/src/composables/usePointerDrag/use/useDragAxisLock.ts:30-33 | the new lock is one lock step from the old; an existing lock is kept |
| DragAxisLock.AxisLock.Reset | packages/vue-core/src/composables/usePointerDrag/use/useDragAxisLock.ts:35-37 | clears the lock |
| DragThreshold.ReachedBothEither | packages/vue-core/src/composables/usePointerDrag/use/useDragThreshold.ts:42 | on "both", reaching the threshold means either magnitude reaches it (inclusive) |
| DragThreshold.PassedLatches | packages/vue-core/src/composables/usePointerDrag/use/useDragThreshold.ts:33 | once passed, every later check keeps it passed whatever the deltas |
| DragThreshold.PassedAfterIff | packages/vue-core/src/composables/usePointerDrag/use/useDragThreshold.ts:32-49 | from reset, a series of checks has passed iff there was a check and either the threshold is <= 0 or some sample reached it on the configured axis |
| DragThreshold.Threshold.constructor | packages/vue-core/src/composables/usePointerDrag/use/useDragThreshold.ts:30 | starts not passed |
| DragThreshold.Threshold.Check | packages/vue-core/src/composables/usePointerDrag/use/useDragThreshold.ts:32-49 | returns the new `passed`, which is one check step from the old |
| DragThreshold.Threshold.Reset | packages/vue-core/src/composables/usePointerDrag/use/useDragThreshold.ts:51-53 | clears `passed` |
| DragDelta.Effective | packages/vue-core/src/composables/usePointerDrag/use/useDragDelta.ts:44-50 | the locked axis overrides the configured one; effective "y" zeroes x and "x" zeroes y; exactly the inverted components are negated |
| DragDelta.InvertBothNegates | packages/vue-core/src/composables/usePointerDrag/use/useDragDelta.ts:49-50 | inverting "both" is the componentwise negation of not inverting |
| DragDelta.MagnitudesPreserved | packages/vue-core/src/composables/usePointerDrag/use/useDragDelta.ts:46-55 | each effective component's magnitude is 0 or the raw magnitude |
| DragDelta.DragDeltaCell.constructor | packages/vue-core/src/composables/usePointerDrag/use/useDragDelta.ts:33-38 | all six values start at 0 |
| DragDelta.DragDeltaCell.Update | packages/vue-core/src/composables/usePointerDrag/use/useDragDelta.ts:40-56 | raw = client - start whatever the settings, abs = abs(raw), delta = the effective delta |
| DragDelta.DragDeltaCell.Reset | packages/vue-core/src/composables/usePointerDrag/use/useDragDelta.ts:58-65 | zeroes all six values |
| DragDirection.Classify | packages/vue-core/src/composables/usePointerDrag/use/useDragDirection.ts:26-30 | right iff dx > 0, left iff dx < 0, bottom/top only when dx = 0, null iff both are 0 |
| DragDirection.DirectionTracker.constructor | packages/vue-core/src/composables/usePointerDrag/use/useDragDirection.ts:24 | starts null |
| DragDirection.DirectionTracker.Update | packages/vue-core/src/composables/usePointerDrag/use/useDragDirection.ts:26-30 | the direction is the classification of the latest arguments only |
| DragDirection.DirectionTracker.Reset | packages/vue-core/src/composables/usePointerDrag/use/useDragDirection.ts:32-34 | sets the direction to null |
| DragVelocity.Velocity.constructor | packages/vue-core/src/composables/usePointerDrag/use/useDragVelocity.ts:21-26 | zero velocity and no baseline |
| DragVelocity.Velocity.Update | packages/vue-core/src/composables/usePointerDrag/use/useDragVelocity.ts:28-45 | the first sample only records the baseline; a sample with dt <= 0 changes nothing; otherwise v = change / dt and the baseline moves; accepted timestamps strictly increase |
| DragVelocity.Velocity.Reset | packages/vue-core/src/composables/usePointerDrag/use/useDragVelocity.ts:47-53 | restores the initial state exactly |
| PointerDrag.Normalize | packages/vue-core/src/composables/usePointerDrag/usePointerDrag.ts:10-20 | the threshold is max(0, t); invert true gives "both" and false/absent gives none; the axis defaults to "both"; flags are true only when given true |
| PointerDrag.BelowThresholdReportsZero | packages/vue-core/src/composables/usePointerDrag/usePointerDrag.ts:125-138 | below a positive, unpassed threshold the delta is (0, 0) and nothing latches |
| PointerDrag.CrossingLatchesAndLocks | packages/vue-core/src/composables/usePointerDrag/usePointerDrag.ts:125-150 | the first crossing latches the threshold and, with lock-after-threshold on a free drag, locks the dominant axis |
| PointerDrag.ZeroThresholdNeverLocks | packages/vue-core/src/composables/usePointerDrag/usePointerDrag.ts:125-150 | with threshold 0 the passed flag is never set, so no axis lock ever happens |
| PointerDrag.PassedGateStaysPassed | packages/vue-core/src/composables/usePointerDrag/usePointerDrag.ts:125-150 | a passed gate is never held back again, stays passed and keeps a locked axis |
| PointerDrag.LockedGateIsStable | packages/vue-core/src/composables/usePointerDrag/usePointerDrag.ts:125-150 | a passed and locked gate never changes again in the session |
| PointerDrag.NoMovementFromIdle | packages/vue-core/src/composables/usePointerDrag/usePointerDrag.ts:54-141 | the delta of the press itself is (0, 0) and leaves the gate idle |
| PointerDrag.PointerDragSession.constructor | packages/vue-core/src/composables/usePointerDrag/usePointerDrag.ts:10-34 | normalised options, idle session, not dragging, empty trace |
| PointerDrag.PointerDragSession.ComputeDelta | packages/vue-core/src/composables/usePointerDrag/usePointerDrag.ts:118-167 | returns the gated effective delta and advances the threshold/lock gate; nothing else changes |
| PointerDrag.PointerDragSession.CreateEventData | packages/vue-core/src/composables/usePointerDrag/usePointerDrag.ts:106-116 | the payload carries the event, the start and the computed delta |
| PointerDrag.PointerDragSession.PointerDown | packages/vue-core/src/composables/usePointerDrag/usePointerDrag.ts:45-72 | ignored when a pointer is active, disabled or without target; otherwise it records the start and reports onStart with a zero delta; a veto leaves no active pointer, else the session starts |
| PointerDrag.PointerDragSession.PointerMove | packages/vue-core/src/composables/usePointerDrag/usePointerDrag.ts:74-82 | only the active pointer of a dragging session moves it; it stores and reports the gated delta |
| PointerDrag.PointerDragSession.PointerUp | packages/vue-core/src/composables/usePointerDrag/usePointerDrag.ts:84-87 | another pointer id changes nothing; the active one ends the drag with onEnd and an idle session |
| PointerDrag.PointerDragSession.LostPointerCapture | packages/vue-core/src/composables/usePointerDrag/usePointerDrag.ts:89-92 | same as a release of the active pointer |
| PointerDrag.PointerDragSession.EndDrag | packages/vue-core/src/composables/usePointerDrag/usePointerDrag.ts:94-104 | does nothing unless dragging; otherwise it stops dragging, reports onEnd with the final delta once and cleans up |
| PointerDrag.PointerDragSession.Cleanup | packages/vue-core/src/composables/usePointerDrag/usePointerDrag.ts:169-192 | clears pointer, capture, listeners, gate, start and delta, but not `isDragging` |
| PointerDrag.PointerDragSession.Teardown | packages/vue-core/src/composables/usePointerDrag/usePointerDrag.ts:39 | unmounting runs cleanup and keeps the session invariants |
| LegacyPointerDrag.LegacyDragSession.constructor | packages/core/src/composables/usePointerDrag/usePointerDrag.ts:7-9 | not dragging, no pointer |
| LegacyPointerDrag.LegacyDragSession.PointerDown | packages/core/src/composables/usePointerDrag/usePointerDrag.ts:11-29 | disabled or targetless presses change nothing; otherwise the new pointer always takes over and onStart is reported |
| LegacyPointerDrag.LegacyDragSession.PointerMove | packages/core/src/composables/usePointerDrag/usePointerDrag.ts:31-36 | onMove is forwarded iff dragging with the active pointer id |
| LegacyPointerDrag.LegacyDragSession.PointerUp | packages/core/src/composables/usePointerDrag/usePointerDrag.ts:38-41 | another id changes nothing; the active id ends the session, so onEnd fires once |
| LegacyPointerDrag.LegacyDragSession.LostPointerCapture | packages/core/src/composables/usePointerDrag/usePointerDrag.ts:43-46 | same as a release of the active pointer |
| LegacyPointerDrag.LegacyDragSession.EndDrag | packages/core/src/composables/usePointerDrag/usePointerDrag.ts:48-56 | ends unconditionally: not dragging, no pointer, onEnd reported |
| LegacyPointerDrag.LegacyDragSession.Cleanup | packages/core/src/composables/usePointerDrag/usePointerDrag.ts:58-72 | detaches the listeners and forgets the captured element only |
| ResizeDrag.Along | packages/ui/src/components/ResizeContainer/use/useResizeDrag.ts:31-33 | a vertical handle follows clientX, a horizontal one clientY |
| ResizeDrag.ResizeDragHandle.constructor | packages/ui/src/components/ResizeContainer/use/useResizeDrag.ts:11-15 | not dragging, zero start and delta |
| ResizeDrag.ResizeDragHandle.PointerDown | packages/ui/src/components/ResizeContainer/use/useResizeDrag.ts:17-38 | disabled or targetless presses change nothing; otherwise the delta resets to 0 and the start is the coordinate along the axis |
| ResizeDrag.ResizeDragHandle.PointerMove | packages/ui/src/components/ResizeContainer/use/useResizeDrag.ts:40-53 | while dragging with a matching (or no) active id, delta = current - start; otherwise nothing changes |
| ResizeDrag.ResizeDragHandle.PointerUp | packages/ui/src/components/ResizeContainer/use/useResizeDrag.ts:55-62 | an acceptable id stops dragging and clears the pointer, keeping the last delta |
| ResizeDrag.ResizeDragHandle.LostPointerCapture | packages/ui/src/components/ResizeContainer/use/useResizeDrag.ts:64-70 | same as a release |
| ResizeDrag.ResizeDragHandle.Cleanup | packages/ui/src/components/ResizeContainer/use/useResizeDrag.ts:72-85 | detaches the listeners and clears the pointer; delta and start are kept |
| Events.Settle | packages/js-core/src/emitter/Emitter.ts:145-148 | a type whose handler list becomes empty is removed; other types are untouched |
| Events.Register | packages/js-core/src/emitter/Emitter.ts:166-184 | a handler already registered for the type leaves the store as it is; otherwise it is appended with its once flag |
| Events.WithoutSpec | packages/js-core/src/emitter/Emitter.ts:143 | the deleted handler is gone and every other entry stays |
| Events.KeepRecurring | packages/js-core/src/emitter/Emitter.ts:109-116 | after an emit exactly the `on` entries remain, in order |
| Events.WithoutKeepsDistinct | packages/js-core/src/emitter/Emitter.ts:143 | deleting a handler keeps the handler list free of duplicates |
| Events.SecondEmitSkipsOnce | packages/js-core/src/emitter/Emitter.ts:102-117 | an emit right after an emit invokes only the recurring handlers, in order |
| Events.DuplicateRegistrationIgnored | packages/js-core/src/emitter/Emitter.ts:173-175 | registering again keeps the first registration and its once flag |
| Events.Emitter.constructor | packages/js-core/src/emitter/Emitter.ts:53-69 | registers the initial entries in order (plain: once = false; object: once ?? false; absent: skipped) |
| Events.Emitter.RegisterHandler | packages/js-core/src/emitter/Emitter.ts:166-184 | the store becomes `Register(old store)`, keeps its invariant, and the cleanup is off(type, handler) |
| Events.Emitter.On | packages/js-core/src/emitter/Emitter.ts:78-80 | a recurring registration |
| Events.Emitter.Once | packages/js-core/src/emitter/Emitter.ts:91-93 | a once registration |
| Events.Emitter.Off | packages/js-core/src/emitter/Emitter.ts:134-153 | an unknown type changes nothing; off(type) drops the type; off(type, h) deletes only h and drops an emptied type |
| Events.Emitter.RunCleanup | packages/js-core/src/emitter/Emitter.ts:169-171 | the returned cleanup is exactly off(type, handler) |
| Events.Emitter.Clear | packages/js-core/src/emitter/Emitter.ts:158-160 | empties the store |
| Events.Emitter.Emit | packages/js-core/src/emitter/Emitter.ts:102-117 | invokes the snapshot's handlers in registration order; afterwards only its recurring handlers remain; an unknown type does nothing |
| ProxyValue.SyncedProxy.Value | packages/vue-core/src/composables/useProxyValue/useProxyValue.ts:134-140 | the source when synced and the source is defined, the buffer otherwise; so while coherent it is the buffer |
| ProxyValue.SyncedProxy.constructor | packages/vue-core/src/composables/useProxyValue/useProxyValue.ts:126-131 | buffer = source if defined else the default; synced iff the source is defined; autoSync defaults to true |
| ProxyValue.SyncedProxy.WatchDefined | packages/vue-core/src/composables/useProxyValue/useProxyValue.ts:165-168 | a defined source value becomes the buffer and marks it synced |
| ProxyValue.SyncedProxy.WatchUndefined | packages/vue-core/src/composables/useProxyValue/useProxyValue.ts:162-164 | an undefined source reloads the default and marks it unsynced |
| ProxyValue.SyncedProxy.Sync | packages/vue-core/src/composables/useProxyValue/useProxyValue.ts:193-198 | a defined source receives the buffer and is synced; an undefined source changes nothing |
| ProxyValue.SyncedProxy.SetValue | packages/vue-core/src/composables/useProxyValue/useProxyValue.ts:141-147 | stages the value, unsynced unless auto-sync commits it to a defined source; the value read afterwards is the one written |
| ProxyValue.SyncedProxy.Reset | packages/vue-core/src/composables/useProxyValue/useProxyValue.ts:177-183 | the buffer reloads from the source or a fresh default; synced iff the source is defined |
| ProxyValue.SyncedProxy.EnableAutoSync | packages/vue-core/src/composables/useProxyValue/useProxyValue.ts:185-187 | only turns the flag on |
| ProxyValue.SyncedProxy.DisableAutoSync | packages/vue-core/src/composables/useProxyValue/useProxyValue.ts:189-191 | only turns the flag off |
| ProxyValue.SyncedProxy.SetSource | packages/vue-core/src/composables/useProxyValue/useProxyValue.ts:161-169 | an external change of the source runs the watcher; the "synced means source = buffer" invariant is kept |
| ProxyValue.SyncedProxy.WriteBuffer | packages/vue-core/src/composables/useProxyValue/useProxyValue.ts:205 | a direct write to the exposed buffer changes only the buffer; a synced proxy with a defined source still reads the source, any other reads the new buffer |
| ProxyApply.AppliedProxy.Value | packages/core/src/composables/useProxyValue/useProxyValue.ts:90-96 | the source when applied and the source is defined, the buffer otherwise; so while coherent it is the buffer |
| ProxyApply.AppliedProxy.constructor | packages/core/src/composables/useProxyValue/useProxyValue.ts:82-87 | buffer = source if defined else the default; applied iff defined; autoApply defaults to true and is fixed |
| ProxyApply.AppliedProxy.WatchDefined | packages/core/src/composables/useProxyValue/useProxyValue.ts:121-124 | a defined source value becomes the buffer and marks it applied |
| ProxyApply.AppliedProxy.WatchUndefined | packages/core/src/composables/useProxyValue/useProxyValue.ts:118-120 | an undefined source reloads the default and marks it unapplied |
| ProxyApply.AppliedProxy.Apply | packages/core/src/composables/useProxyValue/useProxyValue.ts:141-146 | copies the buffer to a defined source and sets applied; an undefined source changes nothing |
| ProxyApply.AppliedProxy.SetValue | packages/core/src/composables/useProxyValue/useProxyValue.ts:97-103 | stages the value and applies it iff autoApply and the source is defined |
| ProxyApply.AppliedProxy.Reset | packages/core/src/composables/useProxyValue/useProxyValue.ts:133-139 | the buffer reloads from the source or the default; applied iff defined |
| ProxyApply.AppliedProxy.SetSource | packages/core/src/composables/useProxyValue/useProxyValue.ts:117-125 | an external change runs the watcher: undefined clears `isApplied`, and the coherence invariant is kept |
| ProxyApply.AppliedProxy.WriteBuffer | packages/core/src/composables/useProxyValue/useProxyValue.ts:153 | a direct buffer write changes only the buffer; an applied proxy with a defined source still reads the source, any other reads the new buffer |
| LegacyProxyValue.LegacyProxy.Value | packages/core/src/composables/useProxyValue.ts:32-38 | the source when applied and the source is defined, the buffer otherwise; so while weakly coherent it is the buffer |
| LegacyProxyValue.LegacyProxy.constructor | packages/core/src/composables/useProxyValue.ts:27-29 | buffer = source if defined else the plain default; applied iff defined |
| LegacyProxyValue.LegacyProxy.Watch | packages/core/src/composables/useProxyValue.ts:59-66 | a defined value is mirrored and sets applied; undefined reloads the default and leaves the flag as it was |
| LegacyProxyValue.LegacyProxy.Apply | packages/core/src/composables/useProxyValue.ts:76-80 | copies the buffer to a defined source; only the watcher (on an actual change) sets the flag |
| LegacyProxyValue.LegacyProxy.SetValue | packages/core/src/composables/useProxyValue.ts:39-45 | stages the value, clears the flag, and auto-applies to a defined source |
| LegacyProxyValue.LegacyProxy.Reset | packages/core/src/composables/useProxyValue.ts:68-74 | the internal reset reloads from the source or the default; applied iff defined |
| LegacyProxyValue.LegacyProxy.SetSource | packages/core/src/composables/useProxyValue.ts:59-66 | an external change runs the watcher; the weak coherence is kept |
| LegacyProxyValue.LegacyProxy.WriteBuffer | packages/core/src/composables/useProxyValue.ts:87 | a direct buffer write changes only the buffer; an applied proxy with a defined source still reads the source, any other reads the new buffer |
| LegacyProxyValue.StaleAppliedFlag | packages/core/src/composables/useProxyValue.ts:59-62 | after the source is cleared the composable still reports `isApplied` |
| SafeTryCatch.ResolveFailureResult | packages/js-core/src/safe/withTryCatch/helpers.ts:14-35 | always ok = false with the mapped error; `data` is present exactly when a fallback key is present, being the value or the function of the mapped error |
| SafeTryCatch.InvokeCallbacks | packages/js-core/src/safe/withTryCatch/helpers.ts:44-55 | onSuccess only for a success, onError only for a failure, each with the result's payload; onFinally is last whenever given |
| SafeTryCatch.WithTryCatchSync | packages/js-core/src/safe/withTryCatch/withTryCatchSync.ts:111-127 | ok iff fn returned; a throw gives the resolved failure; fn runs first and the callbacks of the final result come last |
| SafeTryCatch.WithTryCatch | packages/js-core/src/safe/withTryCatch/withTryCatch.ts:114-130 | ok iff the awaited fn resolved; a rejection gives the resolved failure |
| SafeTryCatch.FallbackKeepsFailure | packages/js-core/src/safe/withTryCatch/helpers.ts:20-51 | with a fallback, a throw stays a failure carrying the recovery data, and onError (not onSuccess) sees it |
| SafeTryCatch.AsyncMatchesSync | packages/js-core/src/safe/withTryCatch/withTryCatch.ts:120-127 | the async wrapper's result and calls equal the sync wrapper's for the same outcome |
| CommonTryCatch.ResolveErrorResult | packages/js-core/src/common/withTryCatch/helpers.ts:14-28 | a success iff a fallback key is present, with the fallback value or function of the mapped error; otherwise the mapped error |
| CommonTryCatch.InvokeCallbacks | packages/js-core/src/common/withTryCatch/helpers.ts:37-48 | onSuccess only for a success, onError only for a failure; onFinally last whenever given |
| CommonTryCatch.WithTryCatchSync | packages/js-core/src/common/withTryCatch/withTryCatchSync.ts:64-80 | fails iff fn threw and there is no fallback key; a throw gives the resolved error result |
| CommonTryCatch.WithTryCatch | packages/js-core/src/common/withTryCatch/withTryCatch.ts:46-74 | fails iff fn threw and the fallback is absent or `undefined`; otherwise the fallback data or the resolved value |
| CommonTryCatch.WrappersAgreeExceptUndefinedFallback | packages/js-core/src/common/withTryCatch/withTryCatch.ts:57-61 | the two common wrappers agree iff it is not a throw with a `fallback` key set to `undefined` |
| CommonTryCatch.FallbackRecovers | packages/js-core/src/common/withTryCatch/helpers.ts:20-45 | with a fallback key, a throw becomes a success reported to onSuccess and onError never runs |
| Ranges.RangeSpec | packages/js-core/src/array/range.ts:41-49 | element k is start + k * step; the length is ceil((stop - start) / step) or 0 |
| Ranges.RangeStaysBeforeStop | packages/js-core/src/array/range.ts:41-49 | every element lies strictly before the stop in the direction of travel, and the next one would not |
| Ranges.Range | packages/js-core/src/array/range.ts:25-52 | step 0 throws "range: step must not be 0"; one argument counts from 0; otherwise the elements of the range specification |
| Ranges.RangeArray | packages/js-core/src/array/rangeArray.ts:52-87 | the same contract as `range`, with its own error message |
| Ranges.Fill | packages/js-core/src/array/range.ts:41-49 | the counting loop produces exactly the range specification |
| Zip.Paired | packages/js-core/src/array/zip.ts:53-57 | length min(abs a, abs b); entry k is (a[k], b[k]) |
| Zip.MappedPairs | packages/js-core/src/array/zip.ts:43-48 | length min(abs a, abs b); entry k is mapper(a[k], b[k]) |
| Zip.UnzipPaired | packages/js-core/src/array/zip.ts:41-57 | unzipping the pairs gives both inputs cut to the shorter length |
| Zip.MappedIsMapOverPairs | packages/js-core/src/array/zip.ts:43-57 | the mapped result is the mapper applied to each pair |
| Zip.ZipArrays | packages/js-core/src/array/zip.ts:36-60 | pairs without a mapper, mapped values with one; the mapper is called once per index, in index order |
| Zip.ZipArray | packages/js-core/src/array/zipArray.ts:40-58 | the same contract as `zip` |
| Shuffle.Pick | packages/js-core/src/array/shuffle.ts:21 | floor(r * (i + 1)) lies in [0, i], so every swap is in bounds |
| Shuffle.Swap | packages/js-core/src/array/shuffle.ts:22 | exchanges the elements at positions i and j, keeping the length |
| Shuffle.SwapPermutes | packages/js-core/src/array/shuffle.ts:22 | a swap keeps the multiset |
| Shuffle.ShuffleFromPermutes | packages/js-core/src/array/shuffle.ts:20-23 | the loop's result is a permutation of its input |
| Shuffle.ShuffledPermutes | packages/js-core/src/array/shuffle.ts:17-26 | the shuffle is a permutation of the input |
| Shuffle.SelfPicksKeepOrder | packages/js-core/src/array/shuffleArray.ts:17-20 | when every draw picks the position itself, the output equals the input |
| Shuffle.ShortInputsUnchanged | packages/js-core/src/array/shuffle.ts:20 | inputs of length 0 or 1 come back unchanged |
| Shuffle.FisherYates | packages/js-core/src/array/shuffle.ts:20-23 | the in-place loop leaves the array equal to the shuffle of its old contents |
| Shuffle.ShuffleCopy | packages/js-core/src/array/shuffle.ts:17-26 | shuffles a copy: the shuffle of the input, a permutation of it; the input is a value and is not changed |
| Shuffle.ShuffleArray | packages/js-core/src/array/shuffleArray.ts:14-23 | the same contract on a spread copy |
| ObjectGet.Split | packages/js-core/src/object/get.ts:94-95 | always at least one segment |
| ObjectGet.SplitPiecesDotFree | packages/js-core/src/object/get.ts:94-95 | no segment contains a dot |
| ObjectGet.JoinSplit | packages/js-core/src/object/get.ts:94-95 | splitting then joining gives back the path |
| ObjectGet.SplitAround | packages/js-core/src/object/get.ts:94-95 | splitting p + "." + q gives the segments of p then those of q |
| ObjectGet.SplitNoDot | packages/js-core/src/object/get.ts:94-95 | a dot-free key is a single segment |
| ObjectGet.DecimalString | packages/js-core/src/object/get.ts:98-107 | the canonical decimal string of an index: digits, no leading zero |
| ObjectGet.DecimalValue | packages/js-core/src/object/get.ts:107 | the decimal string of n denotes n |
| ObjectGet.ParseIndexIff | packages/js-core/src/object/get.ts:90-107 | a key names array index n exactly when it is the canonical decimal string of n |
| ObjectGet.Get | packages/js-core/src/object/get.ts:89-120 | the lookup result unless it is `undefined`, and then the default; null, 0, false and "" come through |
| ObjectGet.NonObjectStepUndefined | packages/js-core/src/object/get.ts:98-100 | stepping from a primitive gives `undefined` |
| ObjectGet.UndefinedAbsorbs | packages/js-core/src/object/get.ts:98-100 | once `undefined`, every later segment stays `undefined` |
| ObjectGet.WalkAppend | packages/js-core/src/object/get.ts:96-117 | the reduce over a concatenation is the reduce over each part in turn |
| ObjectGet.LookupComposes | packages/js-core/src/object/get.ts:94-117 | get(o, p + "." + q) = get(get(o, p), q) |
| ObjectGet.SingleKeyOnObject | packages/js-core/src/object/get.ts:110-114 | a single segment on an object is a direct key lookup |
| ObjectGet.ArrayKeyIff | packages/js-core/src/object/get.ts:102-108 | on arrays, a key resolves to items[n] iff it is the canonical decimal string of an index n below the length; every other key gives `undefined` |
| ObjectGet.ArrayIndexLookup | packages/js-core/src/object/get.ts:102-108 | get(array, String(n)) is the n-th element |
| ObjectGet.DefaultIffUndefined | packages/js-core/src/object/get.ts:119 | the default is returned iff the lookup is `undefined` (for a default distinct from the found value) |
| LegacyGet.Get | packages/core/src/utils/get.ts:49-76 | the lookup unless it is `undefined`, and then the default |
| LegacyGet.ArrayStepUndefined | packages/core/src/utils/get.ts:58-64 | every step into an array yields `undefined`, whatever the key |
| LegacyGet.StepAgreesOffArrays | packages/core/src/utils/get.ts:54-70 | off arrays, a step is the same as in the js-core `get` |
| LegacyGet.UndefinedAbsorbs | packages/core/src/utils/get.ts:54-56 | once `undefined`, every later segment stays `undefined` |
| LegacyGet.WalkAgreesWithoutArrays | packages/core/src/utils/get.ts:50-73 | a walk that never meets an array agrees with the js-core `get` |
| LegacyGet.IndexIntoArrayMissed | packages/core/src/utils/get.ts:58-64 | get([1], "0") is `undefined` here but 1 in the js-core version |
| Arith.Clamp | packages/js-core/src/math/clamp.ts:22-28 | throws "clamp: min must be <= max" iff min > max; otherwise the result is in [min, max], the value itself when inside, min below and max above |
| Arith.ClampIdempotent | packages/js-core/src/math/clamp.ts:27 | clamping twice is clamping once |
| Arith.ToPercentage | packages/js-core/src/math/toPercentage.ts:18-24 | throws "toPercentage: base must not be 0" iff base = 0; otherwise result * base = value * 100 |
| Arith.PercentRoundTrip | packages/vue-core/src/utils/math/toPercentage.ts:16-22 | toPercentage(v, b) * b / 100 = v |
| Arith.PercentOfBaseAndZero | packages/js-core/src/math/toPercentage.ts:23 | toPercentage(b, b) = 100 and toPercentage(0, b) = 0 |
| Arith.PercentLinear | packages/vue-core/src/utils/math/toPercentage.ts:21 | linear in the value for a fixed base |
| Arith.AspectRatio | packages/js-core/src/common/getAspectRatio/getAspectRatio.ts:23-27 | a non-positive width is reported first, then a non-positive height; otherwise a positive r with r * height = width |
| Arith.AspectRatioScaleInvariant | packages/js-core/src/common/getAspectRatio/getAspectRatio.ts:26 | scaling both sides by k > 0 keeps the ratio |
| Arith.PercentOfHalf | packages/js-core/src/math/toPercentage.ts:23 | half the base is 50 percent |
| Arith.PercentWithinBase | packages/js-core/src/math/toPercentage.ts:23 | a value in [0, base] is in [0, 100] percent |
| Scale.CheckPositive | packages/js-core/src/math/scaleByAspectRatio/helpers.ts:10-12 | reports the named value exactly when it is not positive |
| Scale.ScaleToWidth | packages/js-core/src/math/scaleByAspectRatio/helpers.ts:5-21 | the width, height and new width are checked in that order; the result is round(newWidth) by round(newWidth * h / w) |
| Scale.ScaleToHeight | packages/js-core/src/math/scaleByAspectRatio/helpers.ts:23-39 | the same checks; the result is round(newHeight * w / h) by round(newHeight) |
| Scale.ScaleByAspectRatio | packages/js-core/src/math/scaleByAspectRatio/scaleByAspectRatio.ts:48-72 | source sides first, then exactly one target, then that target's sign; dispatches to the matching helper |
| Scale.ScaleDimensions | packages/js-core/src/math/scaleByAspectRatio/scaleByAspectRatio.ts:48-72 | succeeds iff both sides are positive and exactly one positive target is given |
| Scale.ScaleSize | packages/js-core/src/common/scaleByAspectRatio/scaleByAspectRatio.ts:41-65 | the same success condition for the `size` variant |
| Scale.VersionsAgree | packages/js-core/src/common/scaleByAspectRatio/helpers.ts:5-39 | both families succeed together and compute the same size |
| Scale.WidthKeepsRatio | packages/js-core/src/math/scaleByAspectRatio/helpers.ts:14-15 | without rounding, scaling to a width keeps the aspect ratio |
| Scale.HeightKeepsRatio | packages/js-core/src/math/scaleByAspectRatio/helpers.ts:32-33 | without rounding, scaling to a height keeps the aspect ratio |
| Scale.ScaleToOwnWidth | packages/js-core/src/math/scaleByAspectRatio/helpers.ts:14-20 | without rounding, scaling to the own width returns the original size |
| Uuid.HexDigit | packages/js-core/src/crypto/createUUIDV4/createUUIDV4.ts:43 | a nibble prints as one lower-case hex digit |
| Uuid.HexValueOfDigit | packages/js-core/src/crypto/createUUIDV4/createUUIDV4.ts:43 | reading the digit back gives the nibble |
| Uuid.ByteHex | packages/js-core/src/crypto/createUUIDV4/createUUIDV4.ts:43 | a byte prints as exactly two lower-case hex digits (zero-padded) |
| Uuid.Hex | packages/js-core/src/crypto/createUUIDV4/createUUIDV4.ts:43 | two lower-case hex digits per byte |
| Uuid.HexAt | packages/js-core/src/crypto/createUUIDV4/createUUIDV4.ts:43 | byte k prints its high nibble at 2k and its low nibble at 2k + 1 |
| Uuid.UnhexHex | packages/js-core/src/crypto/createUUIDV4/createUUIDV4.ts:43 | decoding the hex gives back the bytes |
| Uuid.Masked | packages/js-core/src/crypto/createUUIDV4/createUUIDV4.ts:40-41 | 16 bytes in, 16 bytes out |
| Uuid.MaskKeepsRandomBits | packages/js-core/src/crypto/createUUIDV4/createUUIDV4.ts:40-41 | only the high nibble of byte 6 and the top two bits of byte 8 change |
| Uuid.Dashed | packages/js-core/src/crypto/createUUIDV4/createUUIDV4.ts:45-51 | 32 hex digits become 36 characters |
| Uuid.DashedAt | packages/js-core/src/crypto/createUUIDV4/createUUIDV4.ts:45-51 | dashes at 8, 13, 18 and 23; every other position is the next hex digit in order |
| Uuid.UndashDashed | packages/js-core/src/crypto/createUUIDV4/createUUIDV4.ts:45-51 | removing the dashes gives back the hex |
| Uuid.MaskedIsV4 | packages/js-core/src/crypto/createUUIDV4/createUUIDV4.ts:40-51 | the output is 8-4-4-4-12 lower-case hex with '4' at 14 (RFC 4122 section 4.1.3) and 8, 9, a or b at 19 (section 4.1.1) |
| Uuid.FromRandomBytes | packages/js-core/src/crypto/createUUIDV4/createUUIDV4.ts:35-51 | the dashed hex of the masked bytes: a version 4 string that decodes back to the masked bytes |
| Uuid.Nibble | packages/js-core/src/crypto/createUUIDV4/createUUIDV4.ts:56 | (r * 16) rounded down is a nibble |
| Uuid.Fill | packages/js-core/src/crypto/createUUIDV4/createUUIDV4.ts:55-59 | the replacement keeps the template's length |
| Uuid.FillAt | packages/js-core/src/crypto/createUUIDV4/createUUIDV4.ts:55-59 | other characters come through; 'x' becomes a hex digit and 'y' one of 8, 9, a, b |
| Uuid.TemplateLayout | packages/js-core/src/crypto/createUUIDV4/createUUIDV4.ts:55 | the template has placeholders, dashes at 8/13/18/23, '4' at 14 and 'y' at 19 |
| Uuid.FillV4 | packages/js-core/src/crypto/createUUIDV4/createUUIDV4.ts:55-59 | filling such a template gives the version 4 shape |
| Uuid.FallbackIsV4 | packages/js-core/src/crypto/createUUIDV4/createUUIDV4.ts:55-59 | the fallback has the same version 4 shape as the byte branch |
| Uuid.FromMathRandom | packages/js-core/src/crypto/createUUIDV4/createUUIDV4.ts:55-59 | the fallback output is a version 4 string |
| SizeValues.SizeValueToPx | packages/ui/src/components/ResizeContainer/utils/sizeValueToPx.ts:5-20 | a number unchanged (even negative); "%" a share of the container, checked before "px"; "px" the parsed number; anything else 0 |
| SizeValues.PercentTextRoundTrip | packages/vue-ui/src/components/ResizeContainer/utils/sizeValueToPx.ts:11-14 | a "%" string read against a non-zero container gives back its percentage |
| SizeValues.SuffixesExclusive | packages/vue-ui/src/components/ResizeContainer/utils/sizeValueToPx.ts:11-19 | no string ends in both "%" and "px", so the order of the tests never matters |
| SizeValues.WithLimits | packages/ui/src/components/ResizeContainer/utils/normalizeSizeToPercent.ts:23-31 | a max limit bounds the result; a lone min limit bounds it below; no limits leave it |
| SizeValues.ClampIn | packages/ui/src/components/ResizeContainer/utils/normalizeSizeToPercent.ts:33 | the clamp cannot throw and keeps in-range values |
| SizeValues.NormalizeSizeToPercent | packages/ui/src/components/ResizeContainer/utils/normalizeSizeToPercent.ts:11-39 | the step-by-step computation equals the normalisation specification and lies in [0, 100] |
| SizeValues.NormalizedInRange | packages/ui/src/components/ResizeContainer/utils/normalizeSizeToPercent.ts:16-38 | always in [0, 100]; a container <= 0 gives 0 |
| SizeValues.FalsyIsHalf | packages/ui/src/components/ResizeContainer/utils/normalizeSizeToPercent.ts:21 | undefined, 0 and "" fall back to half the container: 50 percent without limits |
| SizeValues.PixelsAsShare | packages/ui/src/components/ResizeContainer/utils/normalizeSizeToPercent.ts:21-36 | px value v in (0, container] without limits gives v / container * 100 |
| SizeValues.MaxLimitWins | packages/ui/src/components/ResizeContainer/utils/normalizeSizeToPercent.ts:23-31 | the max limit is applied after the min, so it wins when they conflict |
| SizeValues.ClampPercentWithLimits | packages/vue-core/src/components/SplitPane/utils/clampPercentWithLimits.ts:6-33 | the step-by-step computation equals the limited-percent specification and lies in [0, 100] |
| SizeValues.NoContainerIgnoresLimits | packages/vue-core/src/components/SplitPane/utils/clampPercentWithLimits.ts:14-18 | a container <= 0 gives clamp(percent, 0, 100), ignoring the limits |
| SizeValues.OversizedMinCapped | packages/vue-core/src/components/SplitPane/utils/clampPercentWithLimits.ts:20-32 | a min limit above the container is capped at 100 |
| SizeValues.WithinLimitsUnchanged | packages/vue-core/src/components/SplitPane/utils/clampPercentWithLimits.ts:14-32 | a percent inside [0, 100] and both limits comes back unchanged |
| SizeValues.PercentMaxLimitWins | packages/vue-core/src/components/SplitPane/utils/clampPercentWithLimits.ts:20-30 | the max limit is applied after the min, so it wins when they conflict |
| SplitPaneSizes.AlphaPercent | packages/vue-core/src/components/SplitPane/use/useResizeSizes.ts:27-31 | alpha origin: the origin percent; beta origin: what is left of 100 |
| SplitPaneSizes.ResizeSizes | packages/vue-core/src/components/SplitPane/use/useResizeSizes.ts:15-51 | alpha + beta = 100; both styles have flexGrow 0 and the matching basis |
| SplitPaneSizes.OriginSideGetsPercent | packages/vue-core/src/components/SplitPane/use/useResizeSizes.ts:16-33 | the origin side gets the normalised percent and both percents lie in [0, 100] |
| SplitPaneSizes.SwappingOriginSwapsPanes | packages/vue-core/src/components/SplitPane/use/useResizeSizes.ts:27-33 | swapping the origin swaps the two percents |
| ResizeValue.DeltaPercent | packages/vue-core/src/components/ResizeContainer/use/useResizeValue.ts:17-22 | 0 unless dragging in a non-zero container (so base 0 is never used); else delta * container = px * 100 |
| ResizeValue.SignedDeltaPercent | packages/vue-core/src/components/ResizeContainer/use/useResizeValue.ts:25-29 | the beta origin negates the delta |
| ResizeValue.ResizeValueState.constructor | packages/vue-core/src/components/ResizeContainer/use/useResizeValue.ts:14 | the start percent is 0 |
| ResizeValue.ResizeValueState.NextPercent | packages/vue-core/src/components/ResizeContainer/use/useResizeValue.ts:32-34 | the start when not dragging or with no container; otherwise the start moved by plus or minus px / container * 100 by origin |
| ResizeValue.ResizeValueState.SetStartPercent | packages/vue-core/src/components/ResizeContainer/use/useResizeValue.ts:37-39 | replaces only the start percent |
| ResizeValue.OriginsMoveOppositely | packages/vue-core/src/components/ResizeContainer/use/useResizeValue.ts:25-29 | the two origins move the percent by opposite amounts |
| ResizeActions.MinPercent | packages/vue-ui/src/components/ResizeContainer/use/useResizeActions.ts:35-44 | the min size (default "0%") normalised against the limits; always in [0, 100] |
| ResizeActions.MaxPercent | packages/vue-ui/src/components/ResizeContainer/use/useResizeActions.ts:46-55 | the max size (default "100%") normalised against the limits; always in [0, 100] |
| ResizeActions.CollapseStep | packages/vue-ui/src/components/ResizeContainer/use/useResizeActions.ts:65-83 | nothing without a container; the memory changes only to the current percent, while emitting the min; anything emitted is the min or the memory |
| ResizeActions.ExpandStep | packages/vue-ui/src/components/ResizeContainer/use/useResizeActions.ts:85-100 | emits iff there is a container; from a collapsed pane in restorable mode with a memory, emits the memory; otherwise emits the max; never writes the memory |
| ResizeActions.ToggleStep | packages/vue-ui/src/components/ResizeContainer/use/useResizeActions.ts:102-109 | expand when collapsed, collapse otherwise |
| ResizeActions.ResizeActionsState.constructor | packages/vue-ui/src/components/ResizeContainer/use/useResizeActions.ts:30-33 | restorable defaults to true; no memory |
| ResizeActions.ResizeActionsState.Collapse | packages/vue-ui/src/components/ResizeContainer/use/useResizeActions.ts:65-83 | emits and remembers what the collapse step says |
| ResizeActions.ResizeActionsState.Expand | packages/vue-ui/src/components/ResizeContainer/use/useResizeActions.ts:85-100 | emits and remembers what the expand step says |
| ResizeActions.ResizeActionsState.Toggle | packages/vue-ui/src/components/ResizeContainer/use/useResizeActions.ts:102-109 | emits and remembers what the toggle step says |
| ResizeActions.ResizeActionsState.SetLastRestoredPercent | packages/vue-ui/src/components/ResizeContainer/use/useResizeActions.ts:111-113 | overwrites only the memory |
| ResizeActions.NonRestorableIgnoresMemory | packages/vue-ui/src/components/ResizeContainer/use/useResizeActions.ts:68-91 | outside restorable mode collapse emits the min and expand the max, memory untouched |
| ResizeActions.CollapseThenExpandRestores | packages/vue-ui/src/components/ResizeContainer/use/useResizeActions.ts:79-97 | collapsing a normal pane emits the min, and expanding it from there emits the size it had |
| ResizeActions.CollapseFromExpandedRestores | packages/vue-ui/src/components/ResizeContainer/use/useResizeActions.ts:74-77 | collapsing an expanded pane with a memory emits the memory and keeps it |
| ResizeActions.CollapseWhenCollapsedIsSilent | packages/vue-ui/src/components/ResizeContainer/use/useResizeActions.ts:79-82 | a collapsed pane emits nothing on collapse and keeps its memory |
| ResizeActions.NumericZeroMinIsHalf | packages/vue-ui/src/components/ResizeContainer/use/useResizeActions.ts:35-44 | a numeric min size of 0 is falsy in the normalisation, so with no max the min percent is 50 |
| LegacyResizeActions.CollapseStep | packages/ui/src/components/ResizeContainer/use/useResizeActions.ts:50-58 | nothing without a container; otherwise always emits the min, remembering the current percent unless already collapsed |
| LegacyResizeActions.ExpandStep | packages/ui/src/components/ResizeContainer/use/useResizeActions.ts:60-69 | with a container, emits the memory if any, else the max; never writes the memory |
| LegacyResizeActions.ToggleStep | packages/ui/src/components/ResizeContainer/use/useResizeActions.ts:71-78 | expand when collapsed, collapse otherwise |
| LegacyResizeActions.LegacyResizeActionsState.constructor | packages/ui/src/components/ResizeContainer/use/useResizeActions.ts:18 | no memory |
| LegacyResizeActions.LegacyResizeActionsState.Collapse | packages/ui/src/components/ResizeContainer/use/useResizeActions.ts:50-58 | emits and remembers what the collapse step says |
| LegacyResizeActions.LegacyResizeActionsState.Expand | packages/ui/src/components/ResizeContainer/use/useResizeActions.ts:60-69 | emits what the expand step says |
| LegacyResizeActions.LegacyResizeActionsState.Toggle | packages/ui/src/components/ResizeContainer/use/useResizeActions.ts:71-78 | emits and remembers what the toggle step says |
| LegacyResizeActions.CollapseThenExpandRestores | packages/ui/src/components/ResizeContainer/use/useResizeActions.ts:53-68 | collapsing a normal pane and expanding again gives back its size |
| LegacyResizeActions.MemoryNeverCleared | packages/ui/src/components/ResizeContainer/use/useResizeActions.ts:54-66 | once remembered, expand keeps emitting the memory and nothing clears it |

## Left out

- `withAbortable`, `useStableLoading`, the Preloader controller, and the debounced parts of `useProxyValue` (`debouncedValue`, `syncDebounced`, `applyDebounced`): they are about timers and asynchronous interleaving.
- DOM and browser plumbing is reduced to flags:
  - pointer capture is `captured`;
  - the window and lost-capture listeners are `listening`;
  - an event's `currentTarget` is `hasTarget`.
  - `preventDefault` is not modelled.
- `shrinkImage*`, `scaleImageByAspectRatio`, `loadImage`, `isInteractiveElement`, `useElementOverflow` and `useScrollable` are not part of this model: they are canvas, image and DOM code.
- The `crypto.randomUUID` branch of `createUUIDV4` is a call into the platform and is not modelled.
- The `getRandomValues` branch: the 16 random bytes are a parameter.
- Vue wiring is not part of this model:
  - the ResizeContainer and SplitPane `useController`;
  - the vue-ui `useResizeDrag` wrapper;
  - `createEmitter`;
  - `parseJSONSafe`, which only adds `JSON.parse`;
  - `getRandomNumber`.
- The `is-what` type guards and the `_helpers_` asserts are not part of this model. The model uses their meaning directly: `isObject`, `isArray`, `isFunction`, `isUndefined`, and "positive" for `assertPositiveFinite`.
- IEEE-754 behaviour is not modelled: NaN, the infinities, -0, rounding error and non-integer `range` steps. This is why `Scale.CheckPositive` and `Arith.AspectRatio` check only positivity.
- `Number(key)`, `parseFloat` and `String(n)` are not modelled. Index keys are decimal-digit strings, and a size string carries its parsed number.
- `ObjectGet.Step` does not model inherited properties such as `"length"` or prototype methods. Array keys other than in-range canonical indices give `undefined`, which is what those keys give in the source.
- `Events.Emitter.Emit`: handlers are trace entries, so a handler that calls `on`, `off`, `once`, `emit` or `clear` on the same emitter during an emit is not modelled. In the source the loop walks a snapshot copied before the first call, so a handler registered during the emit is not invoked by it, and one removed during it is still invoked. Each once handler is followed by `off(type, handler)`, so a once handler that registers itself again while it runs is removed again right after it returns.
- Exceptions thrown by user callbacks (`onStart`, `onMove`, `onEnd`, `mapError`, a fallback function, the emitter's handlers) are not modelled. Callbacks are trace entries.
- Reactivity of option refs is not modelled: the drag orchestrators' options, `restorable`, `orientation` and `disabled` are fixed per instance.
- `DragVelocity.Velocity.Update`: the cell is not used by the Vue core orchestrator. Its contract states its whole new state but has no partner function.
- `Shuffle.ShuffleCopy` and `Shuffle.ShuffleArray` take the draws of `Math.random` as a sequence with one draw per loop step.
- `Uuid.FromMathRandom`: the fallback's `Math.random` calls are an unbounded stream of draws, not a fixed count.

## Findings

| source | as written | input that shows it | evidently intended | confidence | as-written member | corrected member |
|---|---|---|---|---|---|---|
| packages/core/src/utils/get.ts:58-64 | the array branch returns `undefined` when `isIndex(key)` holds, and otherwise reads `acc[Number(key)]` (`acc[NaN]`), so every step into an array gives `undefined` | `get([1], "0")` gives `undefined` | `get([1], "0")` gives `1` (the negated test of the js-core `get`) | high (not executed) | LegacyGet.IndexIntoArrayMissed | ObjectGet.ArrayIndexLookup |
| packages/core/src/composables/useProxyValue.ts:59-62 | the watcher reloads the default when the source becomes `undefined` but leaves `isApplied` as it was | source 1, then set to `undefined`: `isApplied` stays true although nothing is committed | `isApplied` becomes false, as in the later `useProxyValue` of the core package | medium (not executed) | LegacyProxyValue.StaleAppliedFlag | ProxyApply.AppliedProxy.SetSource |
