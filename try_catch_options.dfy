/**
 * The vocabulary shared by both `withTryCatch` families: the outcome of the
 * wrapped function, the options object, and the trace of the calls the
 * wrapper makes. An absent callback is never called.
 */
module TryCatchOptions {
  import opened Wrappers
  import opened JsValues

  /** How the wrapped function (or its awaited promise) finished. */
  datatype Outcome = Returned(value: JsValue) | Threw(thrown: JsValue)

  /** A fallback: a plain value, or a function of the mapped error. */
  datatype Fallback = FallbackData(data: JsValue) | FallbackFn(f: JsValue -> JsValue)

  /** Whether the options object has an own `fallback` key, and its value. */
  datatype FallbackOption = NoFallbackKey | FallbackKey(fallback: Fallback)

  datatype Options = Options(
    mapError: Option<JsValue -> JsValue>,
    fallback: FallbackOption,
    hasOnSuccess: bool,
    hasOnError: bool,
    hasOnFinally: bool)

  /** A call made by the wrapper, in the order it happens. */
  datatype Call =
    | CallFn
    | CallMapError(thrown: JsValue)
    | CallFallback(error: JsValue)
    | CallOnSuccess(data: JsValue)
    | CallOnError(error: JsValue)
    | CallOnFinally

  /** The error handed on: `mapError(e)` when a mapper is given, else the thrown value itself. */
  function MapError(thrown: JsValue, o: Options): JsValue {
    if o.mapError.Some? then o.mapError.value(thrown) else thrown
  }

  function MapErrorCalls(thrown: JsValue, o: Options): seq<Call> {
    if o.mapError.Some? then [CallMapError(thrown)] else []
  }

  /** The recovery data of a fallback: its value, or the function applied to the mapped error. */
  function FallbackValue(f: Fallback, error: JsValue): JsValue {
    match f
    case FallbackData(v) => v
    case FallbackFn(g) => g(error)
  }

  function FallbackCalls(f: Fallback, error: JsValue): seq<Call> {
    if f.FallbackFn? then [CallFallback(error)] else []
  }

  /** The `onFinally` call, when given; it always comes last. */
  function FinallyCalls(o: Options): seq<Call> {
    if o.hasOnFinally then [CallOnFinally] else []
  }
}
