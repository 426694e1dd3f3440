/** Real vectors and matrices: the numpy arrays of the optimizer, over exact reals. */
module Vectors {

  type Vector = seq<real>

  /** A matrix as its rows; `M[i][j]` is numpy's `M[i][j]`. */
  type Matrix = seq<seq<real>>

  ghost predicate IsMatrix(M: Matrix, m: nat, n: nat) {
    |M| == m && forall i :: 0 <= i < m ==> |M[i]| == n
  }

  /** The rows of a two-dimensional array. */
  function Rows(a: array2<real>): (M: Matrix)
    reads a
    ensures IsMatrix(M, a.Length0, a.Length1)
    ensures forall i, j :: 0 <= i < a.Length0 && 0 <= j < a.Length1 ==> M[i][j] == a[i, j]
  {
    seq(a.Length0, i requires 0 <= i < a.Length0 reads a =>
      seq(a.Length1, j requires 0 <= j < a.Length1 reads a => a[i, j]))
  }

  /** Two `m` by `n` matrices with the same entries are equal. */
  lemma SameEntries(A: Matrix, N: Matrix, m: nat, n: nat)
    requires IsMatrix(A, m, n) && IsMatrix(N, m, n)
    requires forall p, q :: 0 <= p < m && 0 <= q < n ==> A[p][q] == N[p][q]
    ensures A == N
  {
    forall p | 0 <= p < m ensures A[p] == N[p] {
      assert forall q :: 0 <= q < n ==> A[p][q] == N[p][q];
    }
  }

  /** The dot product, summed from the first index upwards as the source's loops do. */
  function Dot(u: Vector, v: Vector): real
    requires |u| == |v|
    decreases |u|
  {
    if |u| == 0 then 0.0 else Dot(u[..|u| - 1], v[..|v| - 1]) + u[|u| - 1] * v[|v| - 1]
  }

  /** One more term of a running dot product. */
  lemma DotStep(u: Vector, v: Vector, k: nat)
    requires |u| == |v| && k < |u|
    ensures Dot(u[..k + 1], v[..k + 1]) == Dot(u[..k], v[..k]) + u[k] * v[k]
  {
    assert u[..k + 1][..k] == u[..k];
    assert v[..k + 1][..k] == v[..k];
  }

  lemma DotAll(u: Vector, v: Vector)
    requires |u| == |v|
    ensures Dot(u[..|u|], v[..|v|]) == Dot(u, v)
  {
    assert u[..|u|] == u;
    assert v[..|v|] == v;
  }

  lemma DotSymmetric(u: Vector, v: Vector)
    requires |u| == |v|
    ensures Dot(u, v) == Dot(v, u)
    decreases |u|
  {
    if |u| > 0 {
      DotSymmetric(u[..|u| - 1], v[..|v| - 1]);
    }
  }

  /** The sum of squares of a vector. */
  function SumSquares(v: Vector): real {
    Dot(v, v)
  }

  /** A sum of squares is never negative, and it is zero exactly when every entry is. */
  lemma {:induction false} SumSquaresZeroIff(v: Vector)
    ensures SumSquares(v) >= 0.0
    ensures SumSquares(v) == 0.0 <==> forall i :: 0 <= i < |v| ==> v[i] == 0.0
    decreases |v|
  {
    if |v| > 0 {
      var w := v[..|v| - 1];
      SumSquaresZeroIff(w);
      var x := v[|v| - 1];
      assert SumSquares(v) == SumSquares(w) + x * x;
      SquareNonNegative(x);
      NonNegativeSum(SumSquares(w), x * x);
      if SumSquares(v) == 0.0 {
        ZeroSquare(x);
        forall i | 0 <= i < |v| ensures v[i] == 0.0 {
          if i < |v| - 1 { assert v[i] == w[i]; }
        }
      }
      if forall i :: 0 <= i < |v| ==> v[i] == 0.0 {
        assert forall i :: 0 <= i < |w| ==> w[i] == v[i];
      }
    }
  }

  lemma SquareNonNegative(x: real)
    ensures x * x >= 0.0
  {
    if x < 0.0 {
      assert x * x == (-x) * (-x);
    }
  }

  /** Two non-negative terms add up to zero only when both are zero. */
  lemma NonNegativeSum(a: real, b: real)
    requires a >= 0.0 && b >= 0.0
    ensures a + b >= 0.0
    ensures a + b == 0.0 ==> a == 0.0 && b == 0.0
  {
  }

  lemma MulCancel(x: real, y: real)
    requires x != 0.0 && x * y == 0.0
    ensures y == 0.0
  {
    assert y == x * y / x;
  }

  lemma ZeroSquare(x: real)
    requires x * x == 0.0
    ensures x == 0.0
  {
    if x != 0.0 {
      MulCancel(x, x);
    }
  }

  /** `u + c * v`, entry by entry. */
  function AddScaled(u: Vector, c: real, v: Vector): (r: Vector)
    requires |u| == |v|
    ensures |r| == |u| && forall j :: 0 <= j < |u| ==> r[j] == u[j] + c * v[j]
  {
    seq(|u|, j requires 0 <= j < |u| => u[j] + c * v[j])
  }

  /** `u - v`, entry by entry. */
  function Sub(u: Vector, v: Vector): (r: Vector)
    requires |u| == |v|
    ensures |r| == |u| && forall j :: 0 <= j < |u| ==> r[j] == u[j] - v[j]
  {
    AddScaled(u, -1.0, v)
  }

  /** The dot product is linear in its first argument. */
  lemma {:induction false} DotAddScaled(u: Vector, c: real, v: Vector, w: Vector)
    requires |u| == |v| == |w|
    ensures Dot(AddScaled(u, c, v), w) == Dot(u, w) + c * Dot(v, w)
    decreases |u|
  {
    if |u| > 0 {
      var k := |u| - 1;
      var r, p := AddScaled(u, c, v), AddScaled(u[..k], c, v[..k]);
      assert |r[..k]| == |p|;
      assert forall j :: 0 <= j < k ==> r[..k][j] == p[j];
      assert r[..k] == p;
      DotAddScaled(u[..k], c, v[..k], w[..k]);
    }
  }

  /** numpy's elementwise product `beta * scale`. */
  function Mul(u: Vector, v: Vector): (r: Vector)
    requires |u| == |v|
    ensures |r| == |u| && forall j :: 0 <= j < |u| ==> r[j] == u[j] * v[j]
  {
    seq(|u|, j requires 0 <= j < |u| => u[j] * v[j])
  }

  predicate NonZero(v: Vector) {
    forall j :: 0 <= j < |v| ==> v[j] != 0.0
  }

  /** numpy's elementwise quotient `beta / scale`. */
  function Div(u: Vector, v: Vector): (r: Vector)
    requires |u| == |v| && NonZero(v)
    ensures |r| == |u| && forall j :: 0 <= j < |u| ==> r[j] == u[j] / v[j]
  {
    seq(|u|, j requires 0 <= j < |u| => u[j] / v[j])
  }

  /** Scaling to physical values and back is the identity when no scale is zero. */
  lemma ScaleRoundTrip(u: Vector, scale: Vector)
    requires |u| == |scale| && NonZero(scale)
    ensures Mul(Div(u, scale), scale) == u
    ensures Div(Mul(u, scale), scale) == u
  {
    var d, p := Div(u, scale), Mul(u, scale);
    forall j | 0 <= j < |u| ensures Mul(d, scale)[j] == u[j] && Div(p, scale)[j] == u[j] {
      assert d[j] * scale[j] == u[j] / scale[j] * scale[j] == u[j];
      assert p[j] / scale[j] == u[j] * scale[j] / scale[j] == u[j];
    }
  }

  /** numpy's `c * v` for a scalar `c`. */
  function Scale(c: real, v: Vector): (r: Vector)
    ensures |r| == |v| && forall j :: 0 <= j < |v| ==> r[j] == c * v[j]
  {
    seq(|v|, j requires 0 <= j < |v| => c * v[j])
  }

  /** `np.ones(k)`. */
  function Ones(k: nat): (r: Vector)
    ensures |r| == k && forall j :: 0 <= j < k ==> r[j] == 1.0
  {
    seq(k, j => 1.0)
  }
}
