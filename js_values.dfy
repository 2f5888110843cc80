/** JavaScript values as the object-path and try/catch utilities see them. */
module JsValues {
  /**
   * A JavaScript value. Arrays and plain objects are the values for which
   * `typeof` is `"object"` and which are not `null`; an object is its own
   * enumerable string keys (prototype members are not modelled).
   */
  datatype JsValue =
    | Undefined
    | Null
    | Bool(b: bool)
    | Num(n: real)
    | Str(s: string)
    | Arr(items: seq<JsValue>)
    | Obj(fields: map<string, JsValue>)

  /** `isObject` of the `is-what` helpers: a non-null value of type `"object"`, arrays included. */
  predicate IsObject(v: JsValue) {
    v.Arr? || v.Obj?
  }
}
