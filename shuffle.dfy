/**
 * `shuffle` and `shuffleArray`: a Fisher-Yates shuffle of a copy of the
 * input. `Math.random()` is replaced by a sequence of draws in [0, 1),
 * consumed in call order: the draw for position i (from the last position
 * down to 1) is `draws[n - 1 - i]` for an input of length n.
 */
module Shuffle {
  /** A draw in [0, 1) scaled by i + 1 stays in [0, i + 1). */
  lemma {:induction false} ScaledDrawBelow(r: real, i: nat)
    requires 0.0 <= r < 1.0
    ensures 0.0 <= r * (i + 1) as real < (i + 1) as real
    decreases i
  {
    if i > 0 {
      ScaledDrawBelow(r, i - 1);
      assert r * (i + 1) as real == r * i as real + r;
    }
  }

  /** `Math.floor(r * (i + 1))`: the partner index for position i. */
  function Pick(r: real, i: nat): (j: int)
    requires 0.0 <= r < 1.0
    ensures 0 <= j <= i
  {
    ScaledDrawBelow(r, i);
    (r * (i + 1) as real).Floor
  }

  predicate ValidDraws(draws: seq<real>, n: nat) {
    |draws| >= n - 1 && forall k | 0 <= k < |draws| :: 0.0 <= draws[k] < 1.0
  }

  function Swap<T>(s: seq<T>, i: nat, j: nat): (r: seq<T>)
    requires i < |s| && j < |s|
    ensures |r| == |s| && r[i] == s[j] && r[j] == s[i]
  {
    s[i := s[j]][j := s[i]]
  }

  /** The sequence after the shuffle steps for positions i, i - 1, ..., 1. */
  function ShuffleFrom<T>(s: seq<T>, draws: seq<real>, i: int): (r: seq<T>)
    requires i < |s| && ValidDraws(draws, |s|)
    ensures |r| == |s|
    decreases i
  {
    if i <= 0 then s
    else ShuffleFrom(Swap(s, i, Pick(draws[|s| - 1 - i], i)), draws, i - 1)
  }

  /** The shuffle of a whole input. */
  function Shuffled<T>(s: seq<T>, draws: seq<real>): (r: seq<T>)
    requires ValidDraws(draws, |s|)
    ensures |r| == |s|
  {
    ShuffleFrom(s, draws, |s| - 1)
  }

  /** One swap keeps the elements and their multiplicities. */
  lemma SwapPermutes<T>(s: seq<T>, i: nat, j: nat)
    requires i < |s| && j < |s|
    ensures multiset(Swap(s, i, j)) == multiset(s)
  {
    var u := s[i := s[j]];
    assert multiset(u) == multiset(s) - multiset{s[i]} + multiset{s[j]};
    assert u[j] == s[j];
    assert multiset(u[j := s[i]]) == multiset(u) - multiset{s[j]} + multiset{s[i]};
  }

  /** The shuffle is a permutation: same elements, same multiplicities. */
  lemma {:induction false} ShuffleFromPermutes<T>(s: seq<T>, draws: seq<real>, i: int)
    requires i < |s| && ValidDraws(draws, |s|)
    ensures multiset(ShuffleFrom(s, draws, i)) == multiset(s)
    decreases i
  {
    if i > 0 {
      var j := Pick(draws[|s| - 1 - i], i);
      SwapPermutes(s, i, j);
      ShuffleFromPermutes(Swap(s, i, j), draws, i - 1);
    }
  }

  lemma ShuffledPermutes<T>(s: seq<T>, draws: seq<real>)
    requires ValidDraws(draws, |s|)
    ensures multiset(Shuffled(s, draws)) == multiset(s)
  {
    ShuffleFromPermutes(s, draws, |s| - 1);
  }

  /** The draw for position p of an input of length n picks p itself. */
  predicate PicksSelf(n: nat, draws: seq<real>, p: nat)
    requires 1 <= p < n && ValidDraws(draws, n)
  {
    Pick(draws[n - 1 - p], p) == p
  }

  /** When every draw picks the position itself, no element moves. */
  lemma {:induction false} SelfPicksKeepOrder<T>(s: seq<T>, draws: seq<real>, i: int)
    requires i < |s| && ValidDraws(draws, |s|)
    requires forall p | 1 <= p <= i :: PicksSelf(|s|, draws, p)
    ensures ShuffleFrom(s, draws, i) == s
    decreases i
  {
    if i > 0 {
      assert PicksSelf(|s|, draws, i);
      assert Swap(s, i, i) == s;
      SelfPicksKeepOrder(s, draws, i - 1);
    }
  }

  /** Inputs of length 0 or 1 come back unchanged, whatever the draws. */
  lemma ShortInputsUnchanged<T>(s: seq<T>, draws: seq<real>)
    requires |s| <= 1 && ValidDraws(draws, |s|)
    ensures Shuffled(s, draws) == s
  {
  }

  /** One step of the shuffle: position i is swapped with its pick, then the steps below i follow. */
  lemma ShuffleStep<T>(s: seq<T>, draws: seq<real>, i: nat)
    requires 0 < i < |s| && ValidDraws(draws, |s|)
    ensures ShuffleFrom(s, draws, i) == ShuffleFrom(Swap(s, i, Pick(draws[|s| - 1 - i], i)), draws, i - 1)
  {
  }

  /** The in-place loop: for i from the last index down to 1, swap a[i] with a[Pick(draw, i)]. */
  method FisherYates<T>(a: array<T>, draws: seq<real>)
    requires ValidDraws(draws, a.Length)
    modifies a
    ensures a[..] == Shuffled(old(a[..]), draws)
  {
    var n := a.Length;
    var i := n - 1;
    while i > 0
      invariant i < n
      invariant ShuffleFrom(a[..], draws, i) == Shuffled(old(a[..]), draws)
      decreases i
    {
      var j := Pick(draws[n - 1 - i], i);
      ghost var before := a[..];
      a[i], a[j] := a[j], a[i];
      assert a[..] == Swap(before, i, j);
      ShuffleStep(before, draws, i);
      i := i - 1;
    }
  }

  /** `shuffle(array)`: shuffles a copy; the input is left as it was. */
  method ShuffleCopy<T>(input: seq<T>, draws: seq<real>) returns (r: seq<T>)
    requires ValidDraws(draws, |input|)
    ensures r == Shuffled(input, draws)
    ensures multiset(r) == multiset(input)
  {
    var result := new T[|input|](k requires 0 <= k < |input| => input[k]);
    assert result[..] == input;
    FisherYates(result, draws);
    ShuffledPermutes(input, draws);
    return result[..];
  }

  /** `shuffleArray(array)`: the same algorithm on a spread copy of the input. */
  method ShuffleArray<T>(input: seq<T>, draws: seq<real>) returns (r: seq<T>)
    requires ValidDraws(draws, |input|)
    ensures r == Shuffled(input, draws)
    ensures multiset(r) == multiset(input)
  {
    var result := new T[|input|](k requires 0 <= k < |input| => input[k]);
    assert result[..] == input;
    FisherYates(result, draws);
    ShuffledPermutes(input, draws);
    return result[..];
  }
}
