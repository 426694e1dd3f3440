/** `functionalNorm` and the residual vectors whose norm the optimizers take. */
module Norms {
  import opened Common
  import opened Vectors

  /** `functionalNorm(residual)`: the running sum of squared residuals. */
  method FunctionalNorm(residual: Vector) returns (norm: real)
    ensures norm == SumSquares(residual)
    ensures norm >= 0.0
    ensures norm == 0.0 <==> forall i :: 0 <= i < |residual| ==> residual[i] == 0.0
  {
    norm := 0.0;
    for i := 0 to |residual|
      invariant norm == Dot(residual[..i], residual[..i])
    {
      DotStep(residual, residual, i);
      norm := norm + residual[i] * residual[i];
    }
    DotAll(residual, residual);
    SumSquaresZeroIff(residual);
  }

  /** The factor `rscale` of the newer optimizer, applied to the residual and
      divided out again before the norm is taken. */
  const Rscale: real := 1000000.0

  /** `rscale * (f - y) / abs(y)`: the residual the newer optimizer keeps for
      the Broyden update and the direction step. */
  function ScaledResidual(f: Vector, y: Vector): (r: Vector)
    requires |f| == |y| && NonZero(y)
    ensures |r| == |y|
  {
    seq(|y|, i requires 0 <= i < |y| => Rscale * (f[i] - y[i]) / Abs(y[i]))
  }

  /** `r / rscale`, entry by entry. */
  function Unscaled(r: Vector): (v: Vector)
    ensures |v| == |r|
  {
    seq(|r|, i requires 0 <= i < |r| => r[i] / Rscale)
  }

  /** The relative deviation of each computed value from its reference. */
  function RelativeResidual(f: Vector, y: Vector): (r: Vector)
    requires |f| == |y| && NonZero(y)
    ensures |r| == |y|
    ensures forall i :: 0 <= i < |y| ==> (r[i] == 0.0 <==> f[i] == y[i])
  {
    seq(|y|, i requires 0 <= i < |y| => (f[i] - y[i]) / Abs(y[i]))
  }

  /** Dividing out `rscale` recovers the relative residual exactly. */
  lemma RescaleCancels(f: Vector, y: Vector)
    requires |f| == |y| && NonZero(y)
    ensures Unscaled(ScaledResidual(f, y)) == RelativeResidual(f, y)
  {
    var u, r := Unscaled(ScaledResidual(f, y)), RelativeResidual(f, y);
    forall i | 0 <= i < |y| ensures u[i] == r[i] {
      var d := f[i] - y[i];
      var a := Abs(y[i]);
      assert u[i] == Rscale * d / a / Rscale;
    }
  }

  /** The newer optimizer's norm is zero exactly when every computed value
      equals its reference value. */
  lemma {:induction false} RelativeNormZeroIff(f: Vector, y: Vector)
    requires |f| == |y| && NonZero(y)
    ensures SumSquares(Unscaled(ScaledResidual(f, y))) >= 0.0
    ensures SumSquares(Unscaled(ScaledResidual(f, y))) == 0.0 <==> f == y
  {
    RescaleCancels(f, y);
    var r := RelativeResidual(f, y);
    SumSquaresZeroIff(r);
    if forall i :: 0 <= i < |r| ==> r[i] == 0.0 {
      assert forall i :: 0 <= i < |y| ==> f[i] == y[i];
    }
  }

  /** The older optimizer's norm `functionalNorm(f - y)` is zero exactly when
      every computed value equals its reference value. */
  lemma {:induction false} AbsoluteNormZeroIff(f: Vector, y: Vector)
    requires |f| == |y|
    ensures SumSquares(Sub(f, y)) >= 0.0
    ensures SumSquares(Sub(f, y)) == 0.0 <==> f == y
  {
    var r := Sub(f, y);
    SumSquaresZeroIff(r);
    if forall i :: 0 <= i < |r| ==> r[i] == 0.0 {
      assert forall i :: 0 <= i < |y| ==> f[i] == y[i];
    }
  }
}
