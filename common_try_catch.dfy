/**
 * The "common" `withTryCatch` family: a fallback converts a failure into a
 * success carrying the recovery data. The synchronous wrapper detects the
 * fallback by the presence of the `fallback` key; the asynchronous
 * options-object wrapper by the key's value not being `undefined`.
 */
module CommonTryCatch {
  import opened Wrappers
  import opened JsValues
  import opened TryCatchOptions

  /** `{ ok: true, data }` (`Succeeded`) or `{ ok: false, error }` (`Failed`). */
  datatype CommonResult = Succeeded(data: JsValue) | Failed(error: JsValue)

  datatype Run = Run(result: CommonResult, calls: seq<Call>)

  /** `resolveErrorResult(e, options)`: recovered exactly when a `fallback` key is present. */
  function ResolveErrorResult(thrown: JsValue, o: Options): (r: CommonResult)
    ensures r.Succeeded? <==> o.fallback.FallbackKey?
    ensures r.Succeeded? ==> r.data == FallbackValue(o.fallback.fallback, MapError(thrown, o))
    ensures r.Failed? ==> r.error == MapError(thrown, o)
  {
    var error := MapError(thrown, o);
    if o.fallback.FallbackKey? then Succeeded(FallbackValue(o.fallback.fallback, error)) else Failed(error)
  }

  /** `invokeCallbacks(result, options)`: `onSuccess` or `onError`, then `onFinally`. */
  function InvokeCallbacks(r: CommonResult, o: Options): (calls: seq<Call>)
    ensures r.Succeeded? && o.hasOnSuccess ==> |calls| > 0 && calls[0] == CallOnSuccess(r.data)
    ensures r.Failed? && o.hasOnError ==> |calls| > 0 && calls[0] == CallOnError(r.error)
    ensures forall c | c in calls :: !c.CallOnSuccess? || r.Succeeded?
    ensures forall c | c in calls :: !c.CallOnError? || r.Failed?
    ensures o.hasOnFinally <==> |calls| > 0 && calls[|calls| - 1] == CallOnFinally
  {
    (if r.Succeeded? then (if o.hasOnSuccess then [CallOnSuccess(r.data)] else [])
     else (if o.hasOnError then [CallOnError(r.error)] else []))
      + FinallyCalls(o)
  }

  function ResolveCalls(thrown: JsValue, o: Options, usesFallback: bool): seq<Call> {
    MapErrorCalls(thrown, o)
      + (if usesFallback && o.fallback.FallbackKey? then FallbackCalls(o.fallback.fallback, MapError(thrown, o)) else [])
  }

  /** `withTryCatchSync(fn, options)`, given how `fn()` finishes. */
  function WithTryCatchSync(fn: Outcome, o: Options): (run: Run)
    ensures run.result.Failed? <==> fn.Threw? && o.fallback.NoFallbackKey?
    ensures fn.Returned? ==> run.result == Succeeded(fn.value)
    ensures fn.Threw? ==> run.result == ResolveErrorResult(fn.thrown, o)
    ensures |run.calls| > 0 && run.calls[0] == CallFn
  {
    var result := if fn.Returned? then Succeeded(fn.value) else ResolveErrorResult(fn.thrown, o);
    var resolution := if fn.Returned? then [] else ResolveCalls(fn.thrown, o, o.fallback.FallbackKey?);
    Run(result, [CallFn] + resolution + InvokeCallbacks(result, o))
  }

  /** The asynchronous wrapper's fallback test: a `fallback` whose value is not `undefined`. */
  predicate UsesFallback(o: Options) {
    o.fallback.FallbackKey? && !(o.fallback.fallback.FallbackData? && o.fallback.fallback.data == Undefined)
  }

  /** `withTryCatch({ fn, ...options })`, given how the awaited `fn()` settles. */
  function WithTryCatch(settled: Outcome, o: Options): (run: Run)
    ensures run.result.Failed? <==> settled.Threw? && !UsesFallback(o)
    ensures settled.Returned? ==> run.result == Succeeded(settled.value)
    ensures settled.Threw? && UsesFallback(o) ==>
      run.result == Succeeded(FallbackValue(o.fallback.fallback, MapError(settled.thrown, o)))
    ensures settled.Threw? && !UsesFallback(o) ==> run.result == Failed(MapError(settled.thrown, o))
    ensures |run.calls| > 0 && run.calls[0] == CallFn
  {
    var result :=
      if settled.Returned? then Succeeded(settled.value)
      else
        var error := MapError(settled.thrown, o);
        if UsesFallback(o) then Succeeded(FallbackValue(o.fallback.fallback, error)) else Failed(error);
    var resolution := if settled.Returned? then [] else ResolveCalls(settled.thrown, o, UsesFallback(o));
    Run(result, [CallFn] + resolution + InvokeCallbacks(result, o))
  }

  /**
   * The two wrappers give the same result for the same outcome except in
   * one case: a thrown error with a `fallback` key explicitly set to
   * `undefined`, which the synchronous wrapper recovers as `Succeeded(undefined)`
   * and the asynchronous one reports as an error.
   */
  lemma WrappersAgreeExceptUndefinedFallback(outcome: Outcome, o: Options)
    ensures WithTryCatch(outcome, o).result == WithTryCatchSync(outcome, o).result
        <==> !(outcome.Threw? && o.fallback.FallbackKey? && !UsesFallback(o))
  {
  }

  /** With a fallback, a failure of the synchronous wrapper reaches `onSuccess` and never `onError`. */
  lemma FallbackRecovers(thrown: JsValue, o: Options)
    requires o.fallback.FallbackKey? && o.hasOnSuccess
    ensures var run := WithTryCatchSync(Threw(thrown), o);
      && run.result == Succeeded(FallbackValue(o.fallback.fallback, MapError(thrown, o)))
      && CallOnSuccess(run.result.data) in run.calls
      && forall c | c in run.calls :: !c.CallOnError?
  {
    var run := WithTryCatchSync(Threw(thrown), o);
    var resolution := ResolveCalls(thrown, o, true);
    var tail := InvokeCallbacks(run.result, o);
    assert run.calls == [CallFn] + resolution + tail;
    assert tail[0] in run.calls;
    forall c | c in run.calls ensures !c.CallOnError? {
      assert c in [CallFn] || c in resolution || c in tail;
    }
  }
}
