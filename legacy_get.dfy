/**
 * The older `get` of the core package. It walks the path like the js-core
 * `get`, but its array branch tests `isIndex(key)` the wrong way round:
 * an index key yields `undefined`, and any other key is read as
 * `acc[Number(key)]`, which for a non-numeric key is `acc[NaN]`, also
 * `undefined`. Every step into an array therefore yields `undefined`.
 *
 * The path split and the index parsing are those of `ObjectGet`; the
 * `is-what` helpers of the core package are not part of this model and are
 * taken to agree with those of js-core.
 */
module LegacyGet {
  import opened JsValues
  import ObjectGet

  /**
   * `isIndex(key)`, narrowed to canonical digit strings. The original test,
   * non-empty and `Number(key)` not NaN, also holds for keys such as "1.5",
   * "-1", "01", "1e3" or "0x1f". The narrowing changes no result: every
   * branch of an array step yields `undefined` (`ArrayStepUndefined`).
   */
  predicate IsIndex(key: string) {
    key != "" && ObjectGet.ParseIndex(key).Some?
  }

  /**
   * One step of the `reduce` callback, array branch as written. The first
   * test is `!(key in acc)` for index keys; a key such as "length" or an
   * inherited method name is `in` the array and reaches `acc[NaN]` instead.
   * Both give `undefined`.
   */
  function Step(acc: JsValue, key: string): JsValue {
    match acc
    case Arr(items) =>
      var index := ObjectGet.ParseIndex(key);
      if !(index.Some? && index.value < |items|) then Undefined  // missing index, "length", ...
      else if IsIndex(key) then Undefined                        // inverted test
      else Undefined                                             // acc[NaN]
    case Obj(fields) => if key in fields then fields[key] else Undefined
    case _ => Undefined
  }

  function Walk(v: JsValue, keys: seq<string>): JsValue
    decreases |keys|
  {
    if |keys| == 0 then v else Walk(Step(v, keys[0]), keys[1..])
  }

  function Lookup(obj: JsValue, path: string): JsValue {
    Walk(obj, ObjectGet.Split(path))
  }

  /** `get(obj, path, defaultValue)`: the default replaces only `undefined`. */
  function Get(obj: JsValue, path: string, defaultValue: JsValue): (r: JsValue)
    ensures Lookup(obj, path) != Undefined ==> r == Lookup(obj, path)
    ensures r == Undefined ==> defaultValue == Undefined
    ensures r == Lookup(obj, path) || r == defaultValue
  {
    var result := Lookup(obj, path);
    if result == Undefined then defaultValue else result
  }

  /** Every step into an array yields `undefined`, whatever the key. */
  lemma ArrayStepUndefined(items: seq<JsValue>, key: string)
    ensures Step(Arr(items), key) == Undefined
  {
  }

  /** Off arrays the two versions take the same step. */
  lemma StepAgreesOffArrays(acc: JsValue, key: string)
    requires !acc.Arr?
    ensures Step(acc, key) == ObjectGet.Step(acc, key)
  {
  }

  /** `undefined` absorbs every later segment here too. */
  lemma {:induction false} UndefinedAbsorbs(keys: seq<string>)
    ensures Walk(Undefined, keys) == Undefined
    decreases |keys|
  {
    if |keys| > 0 {
      UndefinedAbsorbs(keys[1..]);
    }
  }

  /**
   * A walk that only passes through objects and primitives resolves as in
   * js-core: the two versions differ only where the path enters an array.
   */
  lemma {:induction false} WalkAgreesWithoutArrays(v: JsValue, keys: seq<string>)
    requires forall k | 0 <= k <= |keys| :: !ObjectGet.Walk(v, keys[..k]).Arr?
    ensures Walk(v, keys) == ObjectGet.Walk(v, keys)
    decreases |keys|
  {
    if |keys| > 0 {
      assert keys[..0] == [];
      assert !v.Arr?;
      StepAgreesOffArrays(v, keys[0]);
      var next := ObjectGet.Step(v, keys[0]);
      forall k | 0 <= k <= |keys[1..]|
        ensures !ObjectGet.Walk(next, keys[1..][..k]).Arr?
      {
        assert keys[..k + 1][0] == keys[0];
        assert keys[..k + 1][1..] == keys[1..][..k];
        assert ObjectGet.Walk(v, keys[..k + 1]) == ObjectGet.Walk(next, keys[1..][..k]);
      }
      WalkAgreesWithoutArrays(next, keys[1..]);
    }
  }

  /**
   * The discrepancy on a concrete input: `get([1], "0")` is `undefined`
   * here but `1` in js-core.
   */
  lemma IndexIntoArrayMissed()
    ensures Lookup(Arr([Num(1.0)]), "0") == Undefined
    ensures ObjectGet.Lookup(Arr([Num(1.0)]), "0") == Num(1.0)
  {
    ObjectGet.ArrayIndexLookup([Num(1.0)], 0);
    ObjectGet.SplitNoDot("0");
    assert Walk(Arr([Num(1.0)]), ["0"]) == Walk(Step(Arr([Num(1.0)]), "0"), ["0"][1..]);
    assert ["0"][1..] == [];
  }
}
