/** Sequences of reals as vectors, with Dot as the inner product. */
module Vectors {
  import opened Sums

  /** Sum of x[i] * y[i] for i < k. */
  function Dot(x: seq<real>, y: seq<real>, k: nat): real
    requires k <= |x| && k <= |y|
  {
    if k == 0 then 0.0 else Dot(x, y, k - 1) + x[k - 1] * y[k - 1]
  }

  function Plus(u: seq<real>, v: seq<real>): seq<real>
    requires |u| == |v|
  {
    seq(|u|, i requires 0 <= i < |u| => u[i] + v[i])
  }

  function Scale(s: real, u: seq<real>): seq<real> {
    seq(|u|, i requires 0 <= i < |u| => s * u[i])
  }

  function Ones(n: nat): seq<real> {
    seq(n, _ => 1.0)
  }

  lemma {:induction false} DotPlus(x: seq<real>, u: seq<real>, v: seq<real>, k: nat)
    requires k <= |x| == |u| == |v|
    ensures Dot(x, Plus(u, v), k) == Dot(x, u, k) + Dot(x, v, k)
  {
    if k > 0 {
      DotPlus(x, u, v, k - 1);
    }
  }

  lemma {:induction false} DotScale(x: seq<real>, s: real, u: seq<real>, k: nat)
    requires k <= |x| == |u|
    ensures Dot(x, Scale(s, u), k) == s * Dot(x, u, k)
  {
    if k > 0 {
      DotScale(x, s, u, k - 1);
    }
  }

  lemma {:induction false} DotCommutes(x: seq<real>, y: seq<real>, k: nat)
    requires k <= |x| == |y|
    ensures Dot(x, y, k) == Dot(y, x, k)
  {
    if k > 0 {
      DotCommutes(x, y, k - 1);
    }
  }

  lemma {:induction false} DotOnes(y: seq<real>, k: nat)
    requires k <= |y|
    ensures Dot(Ones(|y|), y, k) == SumR(y[..k])
  {
    if k > 0 {
      DotOnes(y, k - 1);
      assert y[..k][..k - 1] == y[..k - 1];
    }
  }

  lemma OnesDotOnes(n: nat, k: nat)
    requires k <= n
    ensures Dot(Ones(n), Ones(n), k) == k as real
  {
  }

  lemma {:induction false} DotZero(x: seq<real>, z: seq<real>, k: nat)
    requires k <= |x| == |z| && forall i :: 0 <= i < |z| ==> z[i] == 0.0
    ensures Dot(x, z, k) == 0.0
  {
    if k > 0 {
      DotZero(x, z, k - 1);
    }
  }

  /** Each term of a dot product agrees in sign; one positive term makes it positive. */
  lemma {:induction false} DotSign(x: seq<real>, z: seq<real>, k: nat)
    requires k <= |x| == |z|
    requires forall i :: 0 <= i < k ==> x[i] * z[i] >= 0.0
    ensures Dot(x, z, k) >= 0.0
    ensures (exists i :: 0 <= i < k && x[i] * z[i] > 0.0) ==> Dot(x, z, k) > 0.0
  {
    if k > 0 {
      DotSign(x, z, k - 1);
    }
  }

  lemma DotNegated(x: seq<real>, p: real, u: seq<real>)
    requires |x| == |u|
    ensures Dot(x, Scale(-p, u), |x|) == -Dot(x, Scale(p, u), |x|)
  {
    DotScale(x, p, u, |x|);
    DotScale(x, -p, u, |x|);
  }

  lemma DotVanishes(x: seq<real>, q: real, v: seq<real>)
    requires |x| == |v| && Dot(x, v, |x|) == 0.0
    ensures Dot(x, Scale(q, v), |x|) == 0.0
  {
    DotScale(x, q, v, |x|);
  }

  lemma DotUnshifted(x: seq<real>, y: seq<real>, q: real)
    requires |x| == |y| && Dot(x, Ones(|y|), |x|) == 0.0
    ensures Dot(x, Plus(y, Scale(q, Ones(|y|))), |x|) == Dot(x, y, |x|)
  {
    DotPlus(x, y, Scale(q, Ones(|y|)), |x|);
    DotScale(x, q, Ones(|y|), |x|);
  }

  /** Dot of x with y + p * u + q * v, term by term. */
  lemma DotCombination(x: seq<real>, y: seq<real>, p: real, u: seq<real>, q: real, v: seq<real>)
    requires |x| == |y| == |u| == |v|
    ensures Dot(x, Plus(y, Plus(Scale(p, u), Scale(q, v))), |x|)
      == Dot(x, y, |x|) + Dot(x, Scale(p, u), |x|) + Dot(x, Scale(q, v), |x|)
  {
    DotPlus(x, y, Plus(Scale(p, u), Scale(q, v)), |x|);
    DotPlus(x, Scale(p, u), Scale(q, v), |x|);
  }

  lemma SquareNonNegative(d: seq<real>, k: nat)
    requires k <= |d|
    ensures Dot(d, d, k) >= 0.0
  {
    DotSign(d, d, k);
  }

  /** Adding d to r, with r orthogonal to d, never shortens it. */
  lemma OrthogonalAddition(r: seq<real>, d: seq<real>)
    requires |r| == |d| && Dot(r, d, |r|) == 0.0
    ensures Dot(r, r, |r|) <= Dot(Plus(r, d), Plus(r, d), |r|)
  {
    var n, f := |r|, Plus(r, d);
    DotPlus(f, r, d, n);
    DotCommutes(f, r, n);
    DotCommutes(f, d, n);
    DotPlus(r, r, d, n);
    DotPlus(d, r, d, n);
    DotCommutes(d, r, n);
    SquareNonNegative(d, n);
  }

  /** The component of y along x is p * x: no product but the scaled vector appears. */
  ghost predicate Component(p: real, x: seq<real>, y: seq<real>)
    requires |x| == |y|
  {
    Dot(x, Scale(p, x), |x|) == Dot(x, y, |x|)
  }

  /** Taking from y its component along x, and any multiple of a v orthogonal to x,
      leaves something orthogonal to x. */
  lemma ProjectionLeavesOrthogonal(x: seq<real>, y: seq<real>, p: real, v: seq<real>, q: real)
    requires |x| == |y| == |v| && Component(p, x, y) && Dot(x, v, |x|) == 0.0
    ensures Dot(x, Plus(y, Plus(Scale(-p, x), Scale(-q, v))), |x|) == 0.0
    ensures Dot(x, Plus(y, Plus(Scale(-q, v), Scale(-p, x))), |x|) == 0.0
  {
    DotCombination(x, y, -p, x, -q, v);
    DotCombination(x, y, -q, v, -p, x);
    DotNegated(x, p, x);
    DotVanishes(x, -q, v);
  }
}
