/**
 * `zip` and `zipArray`: pair two arrays element-wise up to the shorter
 * length, or combine each pair with a mapper. The inputs are not changed.
 */
module Zip {
  import opened Wrappers

  /** The result: the pairs, or the mapped values when a mapper is given. */
  datatype Zipped<T, U, R> = Pairs(pairs: seq<(T, U)>) | Mapped(values: seq<R>)

  function Min(a: nat, b: nat): (m: nat)
    ensures m <= a && m <= b && (m == a || m == b)
  {
    if a <= b then a else b
  }

  /** The pairs of equal positions, up to the shorter input. */
  function Paired<T, U>(xs: seq<T>, ys: seq<U>): (r: seq<(T, U)>)
    ensures |r| == Min(|xs|, |ys|)
    ensures forall k | 0 <= k < |r| :: r[k] == (xs[k], ys[k])
  {
    seq(Min(|xs|, |ys|), k requires 0 <= k < Min(|xs|, |ys|) => (xs[k], ys[k]))
  }

  /** The mapper applied to each pair of equal positions. */
  function MappedPairs<T, U, R>(xs: seq<T>, ys: seq<U>, f: (T, U) -> R): (r: seq<R>)
    ensures |r| == Min(|xs|, |ys|)
    ensures forall k | 0 <= k < |r| :: r[k] == f(xs[k], ys[k])
  {
    seq(Min(|xs|, |ys|), k requires 0 <= k < Min(|xs|, |ys|) => f(xs[k], ys[k]))
  }

  function Firsts<T, U>(ps: seq<(T, U)>): (r: seq<T>)
    ensures |r| == |ps| && forall k | 0 <= k < |ps| :: r[k] == ps[k].0
  {
    seq(|ps|, k requires 0 <= k < |ps| => ps[k].0)
  }

  function Seconds<T, U>(ps: seq<(T, U)>): (r: seq<U>)
    ensures |r| == |ps| && forall k | 0 <= k < |ps| :: r[k] == ps[k].1
  {
    seq(|ps|, k requires 0 <= k < |ps| => ps[k].1)
  }

  /** Unzipping the pairs gives back both inputs cut to the shorter length. */
  lemma UnzipPaired<T, U>(xs: seq<T>, ys: seq<U>)
    ensures Firsts(Paired(xs, ys)) == xs[..Min(|xs|, |ys|)]
    ensures Seconds(Paired(xs, ys)) == ys[..Min(|xs|, |ys|)]
    ensures |xs| == |ys| ==> Firsts(Paired(xs, ys)) == xs && Seconds(Paired(xs, ys)) == ys
  {
  }

  /** Mapping is pairing followed by the mapper on each pair. */
  lemma MappedIsMapOverPairs<T, U, R>(xs: seq<T>, ys: seq<U>, f: (T, U) -> R)
    ensures forall k | 0 <= k < |Paired(xs, ys)| ::
      MappedPairs(xs, ys, f)[k] == f(Paired(xs, ys)[k].0, Paired(xs, ys)[k].1)
  {
  }

  /**
   * `zip(arrayOne, arrayTwo, mapper?)`. Also returns the arguments of the
   * mapper calls, in call order.
   */
  method ZipArrays<T, U, R>(arrayOne: seq<T>, arrayTwo: seq<U>, mapper: Option<(T, U) -> R>)
    returns (z: Zipped<T, U, R>, calls: seq<(T, U)>)
    ensures mapper.None? ==> z == Pairs(Paired(arrayOne, arrayTwo)) && calls == []
    ensures mapper.Some? ==> z == Mapped(MappedPairs(arrayOne, arrayTwo, mapper.value))
    ensures mapper.Some? ==> calls == Paired(arrayOne, arrayTwo)
  {
    var length := Min(|arrayOne|, |arrayTwo|);
    calls := [];
    if mapper.Some? {
      var result: seq<R> := [];
      for i := 0 to length
        invariant |result| == i && |calls| == i
        invariant forall k | 0 <= k < i :: result[k] == mapper.value(arrayOne[k], arrayTwo[k])
        invariant forall k | 0 <= k < i :: calls[k] == (arrayOne[k], arrayTwo[k])
      {
        calls := calls + [(arrayOne[i], arrayTwo[i])];
        result := result + [mapper.value(arrayOne[i], arrayTwo[i])];
      }
      return Mapped(result), calls;
    }
    var pairs: seq<(T, U)> := [];
    for i := 0 to length
      invariant |pairs| == i
      invariant forall k | 0 <= k < i :: pairs[k] == (arrayOne[k], arrayTwo[k])
    {
      pairs := pairs + [(arrayOne[i], arrayTwo[i])];
    }
    return Pairs(pairs), calls;
  }

  /** `zipArray(arrayOne, arrayTwo, mapper?)`: one loop that maps or pairs each position. */
  method ZipArray<T, U, R>(arrayOne: seq<T>, arrayTwo: seq<U>, mapper: Option<(T, U) -> R>)
    returns (z: Zipped<T, U, R>, calls: seq<(T, U)>)
    ensures mapper.None? ==> z == Pairs(Paired(arrayOne, arrayTwo)) && calls == []
    ensures mapper.Some? ==> z == Mapped(MappedPairs(arrayOne, arrayTwo, mapper.value))
    ensures mapper.Some? ==> calls == Paired(arrayOne, arrayTwo)
  {
    var length := Min(|arrayOne|, |arrayTwo|);
    var pairs: seq<(T, U)> := [];
    var values: seq<R> := [];
    calls := [];
    for i := 0 to length
      invariant mapper.None? ==> |pairs| == i && calls == []
      invariant mapper.Some? ==> |values| == i && |calls| == i
      invariant mapper.None? ==> forall k | 0 <= k < i :: pairs[k] == (arrayOne[k], arrayTwo[k])
      invariant mapper.Some? ==> forall k | 0 <= k < i :: values[k] == mapper.value(arrayOne[k], arrayTwo[k])
      invariant mapper.Some? ==> forall k | 0 <= k < i :: calls[k] == (arrayOne[k], arrayTwo[k])
    {
      var a := arrayOne[i];
      var b := arrayTwo[i];
      if mapper.Some? {
        calls := calls + [(a, b)];
        values := values + [mapper.value(a, b)];
      } else {
        pairs := pairs + [(a, b)];
      }
    }
    if mapper.Some? {
      return Mapped(values), calls;
    }
    return Pairs(pairs), calls;
  }
}
