/** Finite sums of integers and of reals, peeled from the end. */
module Sums {

  function Sum(s: seq<int>): int {
    if s == [] then 0 else Sum(s[..|s| - 1]) + s[|s| - 1]
  }

  function SumR(s: seq<real>): real {
    if s == [] then 0.0 else SumR(s[..|s| - 1]) + s[|s| - 1]
  }

  lemma {:induction false} SumAppend(s: seq<int>, x: int)
    ensures Sum(s + [x]) == Sum(s) + x
  {
    assert (s + [x])[..|s|] == s;
  }

  lemma {:induction false} SumUpdate(s: seq<int>, i: nat, x: int)
    requires i < |s|
    ensures Sum(s[i := x]) == Sum(s) - s[i] + x
  {
    var n := |s| - 1;
    if i == n {
      assert s[i := x][..n] == s[..n];
    } else {
      assert s[i := x][..n] == s[..n][i := x];
      SumUpdate(s[..n], i, x);
    }
  }

  lemma {:induction false} SumMonotone(s: seq<int>, t: seq<int>)
    requires |s| == |t| && forall i :: 0 <= i < |s| ==> s[i] <= t[i]
    ensures Sum(s) <= Sum(t)
  {
    if s != [] {
      SumMonotone(s[..|s| - 1], t[..|t| - 1]);
    }
  }

  /** Columns that balance row by row balance in total. */
  lemma {:induction false} SumsBalance(s: seq<int>, t: seq<int>, u: seq<int>, v: seq<int>, w: seq<int>)
    requires |s| == |t| == |u| == |v| == |w|
    requires forall i :: 0 <= i < |s| ==> s[i] + t[i] == u[i] + v[i] + w[i]
    ensures Sum(s) + Sum(t) == Sum(u) + Sum(v) + Sum(w)
  {
    if s != [] {
      var n := |s| - 1;
      SumsBalance(s[..n], t[..n], u[..n], v[..n], w[..n]);
    }
  }

  lemma {:induction false} SumRAppend(s: seq<real>, x: real)
    ensures SumR(s + [x]) == SumR(s) + x
  {
    assert (s + [x])[..|s|] == s;
  }

  lemma {:induction false} SumRUpdate(s: seq<real>, i: nat, x: real)
    requires i < |s|
    ensures SumR(s[i := x]) == SumR(s) - s[i] + x
  {
    var n := |s| - 1;
    if i == n {
      assert s[i := x][..n] == s[..n];
    } else {
      assert s[i := x][..n] == s[..n][i := x];
      SumRUpdate(s[..n], i, x);
    }
  }

  lemma {:induction false} SumRMonotone(s: seq<real>, t: seq<real>)
    requires |s| == |t| && forall i :: 0 <= i < |s| ==> s[i] <= t[i]
    ensures SumR(s) <= SumR(t)
  {
    if s != [] {
      SumRMonotone(s[..|s| - 1], t[..|t| - 1]);
    }
  }

  lemma {:induction false} SumRNonNegative(s: seq<real>)
    requires forall i :: 0 <= i < |s| ==> s[i] >= 0.0
    ensures SumR(s) >= 0.0
  {
    if s != [] {
      SumRNonNegative(s[..|s| - 1]);
    }
  }

  lemma {:induction false} SumOfZeros(n: nat)
    ensures Sum(seq(n, _ => 0)) == 0
  {
    if n > 0 {
      SumOfZeros(n - 1);
      assert seq(n, _ => 0)[..n - 1] == seq(n - 1, _ => 0);
    }
  }

  lemma {:induction false} SumROfZeros(n: nat)
    ensures SumR(seq(n, _ => 0.0)) == 0.0
  {
    if n > 0 {
      SumROfZeros(n - 1);
      assert seq(n, _ => 0.0)[..n - 1] == seq(n - 1, _ => 0.0);
    }
  }

  /** Columns that add up row by row add up in total. */
  lemma {:induction false} SumRPlus(s: seq<real>, t: seq<real>, u: seq<real>)
    requires |s| == |t| == |u| && forall i :: 0 <= i < |s| ==> s[i] == t[i] + u[i]
    ensures SumR(s) == SumR(t) + SumR(u)
  {
    if s != [] {
      var n := |s| - 1;
      SumRPlus(s[..n], t[..n], u[..n]);
    }
  }
}
