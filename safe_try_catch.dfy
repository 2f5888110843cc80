/**
 * The "safe" `withTryCatch` family: a thrown error is never turned into a
 * success. A fallback only attaches recovery `data` to the failure.
 */
module SafeTryCatch {
  import opened Wrappers
  import opened JsValues
  import opened TryCatchOptions

  /** `{ ok: true, data }` or `{ ok: false, error, data? }`. */
  datatype SafeResult = Success(data: JsValue) | Failure(error: JsValue, recovery: Option<JsValue>) {
    predicate Ok() {
      Success?
    }
  }

  /** The result together with the calls made while producing and reporting it. */
  datatype Run = Run(result: SafeResult, calls: seq<Call>)

  /** `resolveFailureResult(e, options)`: always a failure; `data` exactly when a `fallback` key is present. */
  function ResolveFailureResult(thrown: JsValue, o: Options): (r: SafeResult)
    ensures !r.Ok() && r.error == MapError(thrown, o)
    ensures r.recovery.Some? <==> o.fallback.FallbackKey?
    ensures o.fallback.FallbackKey? ==> r.recovery == Some(FallbackValue(o.fallback.fallback, MapError(thrown, o)))
  {
    var error := MapError(thrown, o);
    if o.fallback.FallbackKey? then Failure(error, Some(FallbackValue(o.fallback.fallback, error)))
    else Failure(error, None)
  }

  function ResolveFailureCalls(thrown: JsValue, o: Options): seq<Call> {
    MapErrorCalls(thrown, o)
      + (if o.fallback.FallbackKey? then FallbackCalls(o.fallback.fallback, MapError(thrown, o)) else [])
  }

  /**
   * `invokeCallbacks(result, options)`: `onSuccess` with the data of a
   * success, `onError` with the error of any failure (fallback or not),
   * then `onFinally`.
   */
  function InvokeCallbacks(r: SafeResult, o: Options): (calls: seq<Call>)
    ensures r.Ok() && o.hasOnSuccess ==> |calls| > 0 && calls[0] == CallOnSuccess(r.data)
    ensures !r.Ok() && o.hasOnError ==> |calls| > 0 && calls[0] == CallOnError(r.error)
    ensures forall c | c in calls :: !c.CallOnSuccess? || r.Ok()
    ensures forall c | c in calls :: !c.CallOnError? || !r.Ok()
    ensures o.hasOnFinally <==> |calls| > 0 && calls[|calls| - 1] == CallOnFinally
    ensures |calls| <= 2
  {
    (if r.Success? then (if o.hasOnSuccess then [CallOnSuccess(r.data)] else [])
     else (if o.hasOnError then [CallOnError(r.error)] else []))
      + FinallyCalls(o)
  }

  /** `withTryCatchSync(fn, options)`, given how `fn()` finishes. */
  function WithTryCatchSync(fn: Outcome, o: Options): (run: Run)
    ensures run.result.Ok() <==> fn.Returned?
    ensures fn.Returned? ==> run.result == Success(fn.value)
    ensures fn.Threw? ==> run.result == ResolveFailureResult(fn.thrown, o)
    ensures |run.calls| > |InvokeCallbacks(run.result, o)| && run.calls[0] == CallFn
    ensures run.calls[|run.calls| - |InvokeCallbacks(run.result, o)|..] == InvokeCallbacks(run.result, o)
  {
    var result := if fn.Returned? then Success(fn.value) else ResolveFailureResult(fn.thrown, o);
    var resolution := if fn.Returned? then [] else ResolveFailureCalls(fn.thrown, o);
    Run(result, [CallFn] + resolution + InvokeCallbacks(result, o))
  }

  /** `withTryCatch(fn, options)`, given how the awaited `fn()` settles (a rejection is a throw). */
  function WithTryCatch(settled: Outcome, o: Options): (run: Run)
    ensures run.result.Ok() <==> settled.Returned?
    ensures settled.Returned? ==> run.result == Success(settled.value)
    ensures settled.Threw? ==> run.result == ResolveFailureResult(settled.thrown, o)
    ensures |run.calls| > 0 && run.calls[0] == CallFn
  {
    var result := if settled.Returned? then Success(settled.value) else ResolveFailureResult(settled.thrown, o);
    var resolution := if settled.Returned? then [] else ResolveFailureCalls(settled.thrown, o);
    Run(result, [CallFn] + resolution + InvokeCallbacks(result, o))
  }

  /** A fallback never turns a failure into a success, and `onError` still sees the mapped error. */
  lemma FallbackKeepsFailure(thrown: JsValue, o: Options)
    requires o.fallback.FallbackKey? && o.hasOnError
    ensures var run := WithTryCatchSync(Threw(thrown), o);
      && !run.result.Ok()
      && run.result.recovery == Some(FallbackValue(o.fallback.fallback, MapError(thrown, o)))
      && CallOnError(MapError(thrown, o)) in run.calls
      && forall c | c in run.calls :: !c.CallOnSuccess?
  {
    var run := WithTryCatchSync(Threw(thrown), o);
    var before := [CallFn] + ResolveFailureCalls(thrown, o);
    var tail := InvokeCallbacks(run.result, o);
    assert run.calls == before + tail;
    assert forall c | c in before :: !c.CallOnSuccess?;
    assert tail[0] in run.calls;
  }

  /** The asynchronous wrapper reports exactly what the synchronous one reports for the same outcome. */
  lemma AsyncMatchesSync(outcome: Outcome, o: Options)
    ensures WithTryCatch(outcome, o) == WithTryCatchSync(outcome, o)
  {
  }
}
