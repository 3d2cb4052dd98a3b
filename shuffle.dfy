/**
 * The shuffle utility the stages call. Its implementation is not part of
 * this model; what the stages rely on is that it returns a permutation of
 * its argument, so it is modelled as an arbitrary choice among all the
 * permutations (no uniform distribution is modelled).
 */
module Shuffle {
  /** `r` holds exactly the elements of `s`, each as often, in any order. */
  ghost predicate IsPermutation<T>(r: seq<T>, s: seq<T>) {
    multiset(r) == multiset(s)
  }

  /** Returns some permutation of `s`; `s` itself is a value and is not changed. */
  method Shuffle<T(==)>(s: seq<T>) returns (r: seq<T>)
    ensures IsPermutation(r, s)
  {
    r :| multiset(r) == multiset(s);
  }
}
