/** The Broyden rank-one secant update of the approximate Jacobian, shared by
    both optimizers. */
module Broyden {
  import opened Vectors
  import opened Norms

  /** The correction vector `(t - B s) / sTs` of the update. */
  function Correction(B: Matrix, t: Vector, s: Vector): (u: Vector)
    requires |B| == |t| && forall i :: 0 <= i < |B| ==> |B[i]| == |s|
    requires SumSquares(s) != 0.0
    ensures |u| == |t|
  {
    seq(|t|, i requires 0 <= i < |t| => (t[i] - Dot(B[i], s)) / SumSquares(s))
  }

  /** `B + u s^T`: row `i` gains `u[i] * s`. */
  function RankOneAdded(B: Matrix, u: Vector, s: Vector): (R: Matrix)
    requires |B| == |u| && forall i :: 0 <= i < |B| ==> |B[i]| == |s|
    ensures IsMatrix(R, |u|, |s|)
  {
    seq(|u|, i requires 0 <= i < |u| => AddScaled(B[i], u[i], s))
  }

  /** The matrix after the update, `B + ((t - B s) / sTs) s^T`. */
  function BroydenUpdated(B: Matrix, t: Vector, s: Vector): (R: Matrix)
    requires |B| == |t| && forall i :: 0 <= i < |B| ==> |B[i]| == |s|
    requires SumSquares(s) != 0.0
    ensures IsMatrix(R, |t|, |s|)
  {
    RankOneAdded(B, Correction(B, t, s), s)
  }

  /** The secant equation: the updated matrix maps the step `s` exactly onto
      the change of residuals `t`. */
  lemma SecantEquation(B: Matrix, t: Vector, s: Vector)
    requires |B| == |t| && forall i :: 0 <= i < |B| ==> |B[i]| == |s|
    requires SumSquares(s) != 0.0
    ensures forall i :: 0 <= i < |t| ==> Dot(BroydenUpdated(B, t, s)[i], s) == t[i]
  {
    forall i | 0 <= i < |t| ensures Dot(BroydenUpdated(B, t, s)[i], s) == t[i] {
      SecantRow(B, t, s, i);
    }
  }

  lemma SecantRow(B: Matrix, t: Vector, s: Vector, i: nat)
    requires |B| == |t| && forall i :: 0 <= i < |B| ==> |B[i]| == |s|
    requires SumSquares(s) != 0.0
    requires i < |t|
    ensures Dot(BroydenUpdated(B, t, s)[i], s) == t[i]
  {
    var row, ui := UpdatedRow(B, t, s, i);
    ScaledRowDot(row, B[i], ui, s);
  }

  /** Row `i` of the updated matrix, and its correction factor. */
  lemma UpdatedRow(B: Matrix, t: Vector, s: Vector, i: nat) returns (row: Vector, ui: real)
    requires |B| == |t| && forall i :: 0 <= i < |B| ==> |B[i]| == |s|
    requires SumSquares(s) != 0.0
    requires i < |t|
    ensures row == BroydenUpdated(B, t, s)[i] && row == AddScaled(B[i], ui, s)
    ensures ui * Dot(s, s) == t[i] - Dot(B[i], s)
  {
    ui := Correction(B, t, s)[i];
    row := BroydenUpdated(B, t, s)[i];
    CorrectionCancels(ui, Dot(B[i], s), SumSquares(s), t[i]);
  }

  /** A row plus `c` times `s`, multiplied by `s`. */
  lemma ScaledRowDot(row: Vector, b: Vector, c: real, s: Vector)
    requires |b| == |s| && row == AddScaled(b, c, s)
    ensures Dot(row, s) == Dot(b, s) + c * Dot(s, s)
  {
    DotAddScaled(b, c, s, s);
  }

  /** With `u = (target - d) / ss`, `u * ss` is `target - d`. */
  lemma CorrectionCancels(u: real, d: real, ss: real, target: real)
    requires ss != 0.0 && u == (target - d) / ss
    ensures u * ss == target - d
  {
  }

  /** Entry `(i, j)` moves by `u[i] * s[j]` only, so a column whose step
      component is zero is left as it was. */
  lemma ZeroStepColumnUnchanged(B: Matrix, t: Vector, s: Vector, j: nat)
    requires |B| == |t| && forall i :: 0 <= i < |B| ==> |B[i]| == |s|
    requires SumSquares(s) != 0.0
    requires j < |s| && s[j] == 0.0
    ensures forall i :: 0 <= i < |t| ==> BroydenUpdated(B, t, s)[i][j] == B[i][j]
  {
  }

  /** A matrix that already satisfies the secant equation is not changed. */
  lemma {:induction false} SecantFixedPoint(B: Matrix, t: Vector, s: Vector)
    requires |B| == |t| && forall i :: 0 <= i < |B| ==> |B[i]| == |s|
    requires SumSquares(s) != 0.0
    requires forall i :: 0 <= i < |t| ==> Dot(B[i], s) == t[i]
    ensures BroydenUpdated(B, t, s) == B
  {
    var R, u := BroydenUpdated(B, t, s), Correction(B, t, s);
    forall i | 0 <= i < |t| ensures R[i] == B[i] {
      assert u[i] == 0.0;
      assert forall j :: 0 <= j < |s| ==> R[i][j] == B[i][j];
    }
  }

  /** The first pass of `broydenUpdate`: the product `B s`, accumulated
      column by column. */
  method Product(B: array2<real>, s: Vector) returns (bs: Vector)
    requires B.Length1 == |s|
    ensures |bs| == B.Length0
    ensures forall i :: 0 <= i < B.Length0 ==> bs[i] == Dot(Rows(B)[i], s)
  {
    ghost var M := Rows(B);
    var m, n := B.Length0, |s|;
    bs := seq(m, _ => 0.0);
    for j := 0 to n
      invariant |bs| == m
      invariant forall i :: 0 <= i < m ==> bs[i] == Dot(M[i][..j], s[..j])
    {
      for i := 0 to m
        invariant |bs| == m
        invariant forall k :: 0 <= k < i ==> bs[k] == Dot(M[k][..j + 1], s[..j + 1])
        invariant forall k :: i <= k < m ==> bs[k] == Dot(M[k][..j], s[..j])
      {
        DotStep(M[i], s, j);
        bs := bs[i := bs[i] + B[i, j] * s[j]];
      }
    }
    forall i | 0 <= i < m ensures bs[i] == Dot(M[i], s) {
      DotAll(M[i], s);
    }
  }

  /** The last pass of `broydenUpdate`: entry `(i, j)` gains `u[i] * s[j]`. */
  method AddRankOne(B: array2<real>, u: Vector, s: Vector)
    requires B.Length0 == |u| && B.Length1 == |s|
    modifies B
    ensures Rows(B) == RankOneAdded(old(Rows(B)), u, s)
  {
    ghost var M := Rows(B);
    ghost var R := RankOneAdded(M, u, s);
    var m, n := |u|, |s|;
    for j := 0 to n
      invariant forall i, k :: 0 <= i < m && 0 <= k < n ==>
        B[i, k] == if k < j then R[i][k] else M[i][k]
    {
      for i := 0 to m
        invariant forall l, k :: 0 <= l < m && 0 <= k < n ==>
          B[l, k] == if k < j || (k == j && l < i) then R[l][k] else M[l][k]
      {
        assert R[i] == AddScaled(M[i], u[i], s);
        B[i, j] := B[i, j] + u[i] * s[j];
      }
    }
    SameEntries(Rows(B), R, m, n);
  }

  /** `broydenUpdate(broydenMatrix, dependent, objective)`, updating the array
      in place. The sum `sTs` must be nonzero; numpy would otherwise fill the
      matrix with inf and NaN. */
  method BroydenUpdate(B: array2<real>, t: Vector, s: Vector)
    requires B.Length0 == |t| && B.Length1 == |s|
    requires SumSquares(s) != 0.0
    modifies B
    ensures Rows(B) == BroydenUpdated(old(Rows(B)), t, s)
  {
    ghost var M := Rows(B);
    ghost var u := Correction(M, t, s);
    var update := Product(B, s);
    var sMag := FunctionalNorm(s);
    // Compute (t - B s) / sTs.
    var m := |t|;
    for i := 0 to m
      invariant |update| == m
      invariant forall k :: 0 <= k < i ==> update[k] == u[k]
      invariant forall k :: i <= k < m ==> update[k] == Dot(M[k], s)
    {
      update := update[i := (t[i] - update[i]) / sMag];
    }
    assert update == u;
    AddRankOne(B, update, s);
  }
}
