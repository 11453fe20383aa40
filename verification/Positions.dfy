/** Counting positions in a sequence: the vocabulary for saying what a read returns without saying how. */
module Positions {
  /** The positions before `n` that meet `p`. */
  ghost function Hits<T>(p: T -> bool, s: seq<T>, n: nat): set<nat>
    requires n <= |s|
  {
    set i | 0 <= i < n && p(s[i])
  }

  /** Position `i` meets `p`, and exactly `k` positions before it do. */
  ghost predicate Nth<T>(p: T -> bool, s: seq<T>, k: int, i: nat) { i < |s| && p(s[i]) && |Hits(p, s, i)| == k }

  /** Hit number `k` is `x`. */
  ghost predicate HitIs<T>(p: T -> bool, s: seq<T>, k: int, x: T) { exists i: nat :: Nth(p, s, k, i) && s[i] == x }

  lemma HitsStep<T>(p: T -> bool, s: seq<T>, n: nat)
    requires 0 < n <= |s|
    ensures |Hits(p, s, n)| == |Hits(p, s, n - 1)| + if p(s[n - 1]) then 1 else 0
  {
    var before := Hits(p, s, n - 1);
    assert n - 1 !in before;
    assert Hits(p, s, n) == if p(s[n - 1]) then before + {n - 1} else before;
  }
}
