/** Fisher–Yates shuffle of a copied array (`shuffleArray` in scripts.js).
    The random draw `Math.floor(Math.random() * (i + 1))` taken at loop step `i`
    is supplied by the caller as `draws[i]`, a number in `[0, i]`. */
module Shuffle {

  /** `draws` holds one admissible random draw per loop step: `draws[i] <= i`. */
  predicate ValidDraws(draws: seq<nat>, n: nat)
  {
    |draws| == n && forall i :: 0 <= i < n ==> draws[i] <= i
  }

  /** No value occurs twice in `s`. */
  predicate Distinct<T(==)>(s: seq<T>)
  {
    forall i, j :: 0 <= i < j < |s| ==> s[i] != s[j]
  }

  /** Exchanges the elements at positions `i` and `j`. */
  function Swap<T>(a: seq<T>, i: nat, j: nat): seq<T>
    requires i < |a| && j < |a|
  {
    a[i := a[j]][j := a[i]]
  }

  lemma SwapPermutes<T>(a: seq<T>, i: nat, j: nat)
    requires i < |a| && j < |a|
    ensures multiset(Swap(a, i, j)) == multiset(a)
  {
    if i != j {
      calc {
        multiset(Swap(a, i, j));
        multiset(a[i := a[j]]) - multiset{a[i := a[j]][j]} + multiset{a[i]};
        multiset(a) - multiset{a[i]} + multiset{a[j]} - multiset{a[j]} + multiset{a[i]};
        multiset(a);
      }
    }
  }

  /** The loop steps `i, i - 1, ..., 1` of the shuffle, applied to `a`. */
  function ShuffleFrom<T>(a: seq<T>, draws: seq<nat>, i: int): (r: seq<T>)
    requires ValidDraws(draws, |a|) && i < |a|
    ensures |r| == |a|
    decreases i
  {
    if i <= 0 then a else ShuffleFrom(Swap(a, i, draws[i]), draws, i - 1)
  }

  /** The array `shuffleArray(a)` returns when the random draws are `draws`. */
  function Shuffled<T>(a: seq<T>, draws: seq<nat>): (r: seq<T>)
    requires ValidDraws(draws, |a|)
    ensures |r| == |a|
  {
    ShuffleFrom(a, draws, |a| - 1)
  }

  lemma {:induction false} ShuffleFromPermutes<T>(a: seq<T>, draws: seq<nat>, i: int)
    requires ValidDraws(draws, |a|) && i < |a|
    ensures multiset(ShuffleFrom(a, draws, i)) == multiset(a)
    decreases i
  {
    if i > 0 {
      SwapPermutes(a, i, draws[i]);
      ShuffleFromPermutes(Swap(a, i, draws[i]), draws, i - 1);
    }
  }

  /** Whatever the draws, the shuffle returns a permutation of its input. */
  lemma ShuffledPermutes<T>(a: seq<T>, draws: seq<nat>)
    requires ValidDraws(draws, |a|)
    ensures |Shuffled(a, draws)| == |a| && multiset(Shuffled(a, draws)) == multiset(a)
  {
    ShuffleFromPermutes(a, draws, |a| - 1);
  }

  /** `shuffleArray`: copies `arr` (its `slice()`) into a fresh array and swaps
      in place from the last position down to position 1. The argument is a
      value, so the caller's sequence cannot change. */
  method ShuffleArray<T>(arr: seq<T>, draws: seq<nat>) returns (r: seq<T>)
    requires ValidDraws(draws, |arr|)
    ensures r == Shuffled(arr, draws)
  {
    var a := new T[|arr|](k requires 0 <= k < |arr| => arr[k]);
    assert a[..] == arr;
    var i := a.Length - 1;
    while i > 0
      invariant -1 <= i < a.Length == |arr|
      invariant ShuffleFrom(a[..], draws, i) == Shuffled(arr, draws)
    {
      var j := draws[i];
      ghost var before := a[..];
      a[i], a[j] := a[j], a[i];
      assert a[..] == Swap(before, i, j);
      i := i - 1;
    }
    r := a[..];
  }

  /** No value repeats if and only if every multiplicity is at most 1. */
  lemma {:induction false} DistinctMultiset<T>(s: seq<T>)
    ensures Distinct(s) <==> forall x :: multiset(s)[x] <= 1
  {
    if s != [] {
      var init, last := s[..|s| - 1], s[|s| - 1];
      assert s == init + [last];
      assert multiset(s) == multiset(init) + multiset{last};
      DistinctMultiset(init);
      if Distinct(s) {
        assert forall k :: 0 <= k < |init| ==> init[k] == s[k] != s[|s| - 1];
        assert last !in init;
      } else {
        var i, j :| 0 <= i < j < |s| && s[i] == s[j];
        if j < |s| - 1 {
          assert init[i] == init[j];
          var x :| multiset(init)[x] > 1;
          assert multiset(s)[x] > 1;
        } else {
          assert init[i] == last && last in multiset(init);
          assert multiset(s)[last] == multiset(init)[last] + 1;
        }
      }
    }
  }

  /** A permutation of a sequence without duplicates has none either. */
  lemma DistinctPermutation<T>(a: seq<T>, b: seq<T>)
    requires Distinct(a) && multiset(a) == multiset(b)
    ensures Distinct(b)
  {
    DistinctMultiset(a);
    DistinctMultiset(b);
  }

  /** The first `count` elements of a shuffle of a sequence without
      duplicates: `count` different values, all taken from `a`. */
  lemma ShuffledPrefix<T>(a: seq<T>, draws: seq<nat>, count: nat)
    requires ValidDraws(draws, |a|) && Distinct(a) && count <= |a|
    ensures |Shuffled(a, draws)[..count]| == count && Distinct(Shuffled(a, draws)[..count])
    ensures forall x :: x in Shuffled(a, draws)[..count] ==> x in a
  {
    var shuffled := Shuffled(a, draws);
    ShuffledPermutes(a, draws);
    DistinctPermutation(a, shuffled);
    assert forall x :: x in shuffled[..count] ==> x in multiset(shuffled);
  }
}
