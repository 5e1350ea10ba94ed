/** Sequences with the same elements in another order. */
module Permutations {

  /** s without its element at i. */
  function Without<T>(s: seq<T>, i: nat): seq<T>
    requires i < |s|
  {
    s[..i] + s[i + 1..]
  }

  lemma WithoutMultiset<T>(s: seq<T>, i: nat)
    requires i < |s|
    ensures multiset(s) == multiset(Without(s, i)) + multiset{s[i]}
  {
    assert s == s[..i] + [s[i]] + s[i + 1..];
  }

  lemma WithoutBeforeLast<T>(s: seq<T>, i: nat)
    requires i < |s| - 1
    ensures Without(s, i) == Without(s[..|s| - 1], i) + [s[|s| - 1]]
  {
  }

  lemma SameLength<T>(s: seq<T>, t: seq<T>)
    requires multiset(s) == multiset(t)
    ensures |s| == |t|
  {
    assert |multiset(s)| == |s| && |multiset(t)| == |t|;
  }

  /** Where t has the last element of s; without it both are still permutations. */
  lemma MatchLast<T>(s: seq<T>, t: seq<T>) returns (i: nat)
    requires multiset(s) == multiset(t) && s != []
    ensures i < |t| && t[i] == s[|s| - 1] && multiset(s[..|s| - 1]) == multiset(Without(t, i))
  {
    var n := |s| - 1;
    assert s[n] in multiset(t);
    i :| 0 <= i < |t| && t[i] == s[n];
    WithoutMultiset(t, i);
    WithoutMultiset(s, n);
    assert Without(s, n) == s[..n];
    assert multiset(s[..n]) == multiset(s) - multiset{s[n]};
    assert multiset(Without(t, i)) == multiset(t) - multiset{t[i]};
  }
}
