/**
 * `get(obj, path, defaultValue?)` of js-core: reads a nested value along a
 * dot-separated path. The path is split on every "."; each segment steps
 * into an object by key or into an array by a decimal index, and any other
 * step yields `undefined`. The default replaces an `undefined` result only.
 *
 * Array keys: `key in array` holds exactly for the canonical decimal
 * strings of the present indices ("0", "1", ..., no leading zeros), and for
 * those `isIndex` holds, so a step into an array resolves exactly for them.
 * `Number(key)` parsing is modelled by `ParseIndex` on decimal-digit strings.
 */
module ObjectGet {
  import opened Wrappers
  import opened JsValues

  // ---------------------------------------------------------------------
  // `path.split(".")`
  // ---------------------------------------------------------------------

  /** `path.split(".")`: the maximal dot-free pieces, empty ones included. */
  function Split(path: string): (segs: seq<string>)
    ensures |segs| >= 1
    decreases |path|
  {
    if |path| == 0 then [""]
    else
      var rest := Split(path[1..]);
      if path[0] == '.' then [""] + rest
      else [[path[0]] + rest[0]] + rest[1..]
  }

  /** No piece of a split contains a dot. */
  lemma {:induction false} SplitPiecesDotFree(path: string)
    ensures forall k | 0 <= k < |Split(path)| :: '.' !in Split(path)[k]
    decreases |path|
  {
    if |path| > 0 {
      SplitPiecesDotFree(path[1..]);
      var rest := Split(path[1..]);
      if path[0] != '.' {
        assert '.' !in [path[0]] + rest[0];
      }
    }
  }

  /** `segs.join(".")`, the inverse of `Split`. */
  function Join(segs: seq<string>): (path: string)
    requires |segs| >= 1
    decreases |segs|
  {
    if |segs| == 1 then segs[0] else segs[0] + "." + Join(segs[1..])
  }

  /** Splitting then joining gives back the path. */
  lemma {:induction false} JoinSplit(path: string)
    ensures Join(Split(path)) == path
    decreases |path|
  {
    if |path| > 0 {
      var rest := Split(path[1..]);
      JoinSplit(path[1..]);
      if path[0] == '.' {
        assert Split(path) == [""] + rest;
        assert Split(path)[1..] == rest;
      } else {
        var segs := Split(path);
        assert segs == [[path[0]] + rest[0]] + rest[1..];
        if |rest| == 1 {
          assert Join(segs) == [path[0]] + rest[0];
        } else {
          assert segs[1..] == rest[1..];
          assert Join(rest) == rest[0] + "." + Join(rest[1..]);
          assert Join(segs) == [path[0]] + rest[0] + "." + Join(rest[1..]);
        }
        assert path == [path[0]] + path[1..];
      }
    }
  }

  /** One unfolding of `Split` on a path with a known first character. */
  lemma SplitCons(c: char, s: string)
    ensures Split([c] + s) == if c == '.' then [""] + Split(s) else [[c] + Split(s)[0]] + Split(s)[1..]
  {
    assert ([c] + s)[1..] == s;
  }

  /** An empty first piece in front of a concatenation belongs to its left part. */
  lemma PrependEmptyPiece(left: seq<string>, right: seq<string>)
    ensures [""] + (left + right) == [""] + left + right
  {
  }

  /** The inductive step of `SplitAround` for a leading dot. */
  lemma SplitAroundDotStep(t: string, q: string)
    requires Split(t + "." + q) == Split(t) + Split(q)
    ensures Split(['.'] + t + "." + q) == Split(['.'] + t) + Split(q)
  {
    var inner := t + "." + q;
    assert ['.'] + t + "." + q == ['.'] + inner;
    SplitCons('.', inner);
    SplitCons('.', t);
    PrependEmptyPiece(Split(t), Split(q));
  }

  /** Extending the first piece of a concatenation extends the first piece of its left part. */
  lemma ExtendFirstPiece(c: char, left: seq<string>, right: seq<string>)
    requires |left| >= 1
    ensures [[c] + (left + right)[0]] + (left + right)[1..] == [[c] + left[0]] + left[1..] + right
  {
    assert (left + right)[0] == left[0];
    assert (left + right)[1..] == left[1..] + right;
  }

  /** The inductive step of `SplitAround` for a leading character other than a dot. */
  lemma SplitAroundCharStep(c: char, t: string, q: string)
    requires c != '.'
    requires Split(t + "." + q) == Split(t) + Split(q)
    ensures Split([c] + t + "." + q) == Split([c] + t) + Split(q)
  {
    var inner := t + "." + q;
    assert [c] + t + "." + q == [c] + inner;
    SplitCons(c, inner);
    SplitCons(c, t);
    ExtendFirstPiece(c, Split(t), Split(q));
  }

  /** A dot between two paths splits into the pieces of each, side by side. */
  lemma {:induction false} SplitAround(p: string, q: string)
    ensures Split(p + "." + q) == Split(p) + Split(q)
    decreases |p|
  {
    if |p| == 0 {
      assert p + "." + q == ['.'] + q;
      SplitCons('.', q);
    } else {
      SplitAround(p[1..], q);
      if p[0] == '.' {
        SplitAroundDotStep(p[1..], q);
      } else {
        SplitAroundCharStep(p[0], p[1..], q);
      }
      assert [p[0]] + p[1..] == p;
    }
  }

  /** A path without a dot is a single segment. */
  lemma {:induction false} SplitNoDot(key: string)
    requires '.' !in key
    ensures Split(key) == [key]
    decreases |key|
  {
    if |key| > 0 {
      assert '.' !in key[1..] by {
        forall k | 0 <= k < |key[1..]| ensures key[1..][k] != '.' {
          assert key[1..][k] == key[k + 1];
        }
      }
      SplitNoDot(key[1..]);
      assert [key[0]] + key[1..] == key;
    }
  }

  // ---------------------------------------------------------------------
  // Decimal index keys
  // ---------------------------------------------------------------------

  predicate IsDigit(c: char) {
    '0' <= c <= '9'
  }

  function DigitValue(c: char): (d: nat)
    requires IsDigit(c)
    ensures d < 10
  {
    (c as int) - ('0' as int)
  }

  function DigitChar(d: nat): (c: char)
    requires d < 10
    ensures IsDigit(c) && DigitValue(c) == d
  {
    (('0' as int) + d) as char
  }

  /** The canonical decimal string of an index, as `String(n)` writes it. */
  function DecimalString(n: nat): (s: string)
    ensures |s| >= 1 && (forall k | 0 <= k < |s| :: IsDigit(s[k]))
    ensures |s| > 1 ==> s[0] != '0'
    decreases n
  {
    if n < 10 then [DigitChar(n)] else DecimalString(n / 10) + [DigitChar(n % 10)]
  }

  predicate AllDigits(s: string) {
    forall k | 0 <= k < |s| :: IsDigit(s[k])
  }

  /** The number a string of decimal digits denotes. */
  function DigitsValue(s: string): nat
    requires AllDigits(s)
    decreases |s|
  {
    if |s| == 0 then 0 else DigitsValue(s[..|s| - 1]) * 10 + DigitValue(s[|s| - 1])
  }

  /**
   * The index a key names when it is a property key of an array: a
   * non-empty digit string without a leading zero.
   */
  function ParseIndex(key: string): (r: Option<nat>)
    ensures r.Some? ==> |key| >= 1 && AllDigits(key)
  {
    if |key| == 0 || !AllDigits(key) || (|key| > 1 && key[0] == '0') then None
    else Some(DigitsValue(key))
  }

  /** A digit string with a non-zero first digit denotes a positive number. */
  lemma {:induction false} LeadingDigitPositive(s: string)
    requires |s| >= 1 && AllDigits(s) && s[0] != '0'
    ensures DigitsValue(s) > 0
    decreases |s|
  {
    if |s| > 1 {
      LeadingDigitPositive(s[..|s| - 1]);
    }
  }

  /** A canonical digit string is the decimal string of its value. */
  lemma {:induction false} CanonicalDigits(s: string)
    requires |s| >= 1 && AllDigits(s) && (|s| > 1 ==> s[0] != '0')
    ensures DecimalString(DigitsValue(s)) == s
    decreases |s|
  {
    var init := s[..|s| - 1];
    if |s| > 1 {
      CanonicalDigits(init);
      LeadingDigitPositive(init);
      var n := DigitsValue(s);
      assert n / 10 == DigitsValue(init) && n % 10 == DigitValue(s[|s| - 1]);
      assert DigitChar(DigitValue(s[|s| - 1])) == s[|s| - 1];
      assert s == init + [s[|s| - 1]];
    } else {
      assert DigitChar(DigitValue(s[0])) == s[0];
    }
  }

  /** The decimal string of n denotes n. */
  lemma {:induction false} DecimalValue(n: nat)
    ensures DigitsValue(DecimalString(n)) == n
    decreases n
  {
    if n >= 10 {
      DecimalValue(n / 10);
      var s := DecimalString(n);
      assert s[..|s| - 1] == DecimalString(n / 10);
    }
  }

  /** `ParseIndex` accepts exactly the canonical decimal strings, and inverts `DecimalString`. */
  lemma ParseIndexIff(key: string, n: nat)
    ensures ParseIndex(key) == Some(n) <==> key == DecimalString(n)
  {
    if key == DecimalString(n) {
      DecimalValue(n);
    }
    if ParseIndex(key) == Some(n) {
      CanonicalDigits(key);
    }
  }

  // ---------------------------------------------------------------------
  // The traversal
  // ---------------------------------------------------------------------

  /** One step of the `reduce` callback. */
  function Step(acc: JsValue, key: string): JsValue {
    match acc
    case Arr(items) =>
      var index := ParseIndex(key);
      if index.Some? && index.value < |items| then items[index.value] else Undefined
    case Obj(fields) => if key in fields then fields[key] else Undefined
    case _ => Undefined
  }

  /** The `reduce` over the segments, from the left. */
  function Walk(v: JsValue, keys: seq<string>): JsValue
    decreases |keys|
  {
    if |keys| == 0 then v else Walk(Step(v, keys[0]), keys[1..])
  }

  /** The value the path resolves to, before the default is applied. */
  function Lookup(obj: JsValue, path: string): JsValue {
    Walk(obj, Split(path))
  }

  /**
   * `get(obj, path, defaultValue)`; an omitted default is `Undefined`. The
   * default is returned only in place of `undefined`: `null`, `0`, `false`
   * and `""` come back as they are.
   */
  function Get(obj: JsValue, path: string, defaultValue: JsValue): (r: JsValue)
    ensures Lookup(obj, path) != Undefined ==> r == Lookup(obj, path)
    ensures r == Undefined ==> defaultValue == Undefined
    ensures r == Lookup(obj, path) || r == defaultValue
  {
    var result := Lookup(obj, path);
    if result == Undefined then defaultValue else result
  }

  // ---------------------------------------------------------------------
  // Properties
  // ---------------------------------------------------------------------

  /** Stepping from a value that is neither an array nor an object gives `undefined`. */
  lemma NonObjectStepUndefined(acc: JsValue, key: string)
    requires !IsObject(acc)
    ensures Step(acc, key) == Undefined
  {
  }

  /** Once `undefined`, the walk stays `undefined` for every remaining segment. */
  lemma {:induction false} UndefinedAbsorbs(keys: seq<string>)
    ensures Walk(Undefined, keys) == Undefined
    decreases |keys|
  {
    if |keys| > 0 {
      UndefinedAbsorbs(keys[1..]);
    }
  }

  /** Walking two segment lists in a row is walking their concatenation. */
  lemma {:induction false} WalkAppend(v: JsValue, a: seq<string>, b: seq<string>)
    ensures Walk(v, a + b) == Walk(Walk(v, a), b)
    decreases |a|
  {
    if |a| == 0 {
      assert a + b == b;
    } else {
      assert (a + b)[0] == a[0];
      assert (a + b)[1..] == a[1..] + b;
      WalkAppend(Step(v, a[0]), a[1..], b);
    }
  }

  /** `get(o, p + "." + q)` is `get(get(o, p), q)`. */
  lemma LookupComposes(obj: JsValue, p: string, q: string)
    ensures Lookup(obj, p + "." + q) == Lookup(Lookup(obj, p), q)
  {
    SplitAround(p, q);
    WalkAppend(obj, Split(p), Split(q));
  }

  /** A single segment on an object is a direct key lookup. */
  lemma SingleKeyOnObject(fields: map<string, JsValue>, key: string)
    requires '.' !in key
    ensures Lookup(Obj(fields), key) == if key in fields then fields[key] else Undefined
  {
    SplitNoDot(key);
    assert Walk(Obj(fields), [key]) == Walk(Step(Obj(fields), key), [key][1..]);
    assert [key][1..] == [];
  }

  /**
   * On an array, a single segment resolves exactly when it is the decimal
   * string of a present index, and then to that element.
   */
  lemma ArrayKeyIff(items: seq<JsValue>, key: string)
    ensures forall n: nat | n < |items| && key == DecimalString(n) :: Step(Arr(items), key) == items[n]
    ensures (forall n: nat | n < |items| :: key != DecimalString(n)) ==> Step(Arr(items), key) == Undefined
  {
    var index := ParseIndex(key);
    if index.Some? {
      ParseIndexIff(key, index.value);
    }
    forall n: nat | n < |items| && key == DecimalString(n)
      ensures Step(Arr(items), key) == items[n]
    {
      ParseIndexIff(key, n);
    }
  }

  /** `get(array, String(n))` is the n-th element. */
  lemma ArrayIndexLookup(items: seq<JsValue>, n: nat)
    requires n < |items|
    ensures Lookup(Arr(items), DecimalString(n)) == items[n]
  {
    var key := DecimalString(n);
    SplitNoDot(key);
    ParseIndexIff(key, n);
    assert Walk(Arr(items), [key]) == Walk(Step(Arr(items), key), [key][1..]);
    assert [key][1..] == [];
  }

  /** The default is used exactly when the lookup yields `undefined`. */
  lemma DefaultIffUndefined(obj: JsValue, path: string, defaultValue: JsValue)
    requires defaultValue != Lookup(obj, path)
    ensures Get(obj, path, defaultValue) == defaultValue <==> Lookup(obj, path) == Undefined
  {
  }
}
