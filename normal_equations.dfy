/** `directionVector`: the damped, weighted normal equations of the
    Levenberg-Marquardt step, their solution by an abstract least-squares
    solver, and the older variant's clamp of each step component. */
module NormalEquations {
  import opened Common
  import opened Vectors

  /** Column `j` of a matrix. */
  function Column(B: Matrix, j: nat): (c: Vector)
    requires forall k :: 0 <= k < |B| ==> j < |B[k]|
    ensures |c| == |B| && forall k :: 0 <= k < |B| ==> c[k] == B[k][j]
  {
    seq(|B|, k requires 0 <= k < |B| => B[k][j])
  }

  /** The weighted inner product of columns `i` and `j`: the sum over `k` of
      `B[k][i] * B[k][j] * w[k]`, in the source's order of multiplication. */
  function Gram(B: Matrix, w: Vector, i: nat, j: nat): real
    requires |w| == |B| && forall k :: 0 <= k < |B| ==> i < |B[k]| && j < |B[k]|
  {
    Dot(Mul(Column(B, i), Column(B, j)), w)
  }

  /** `B^T W B + l I`. */
  function NormalMatrix(B: Matrix, w: Vector, l: real, n: nat): (A: Matrix)
    requires |w| == |B| && forall k :: 0 <= k < |B| ==> |B[k]| == n
    ensures IsMatrix(A, n, n)
  {
    seq(n, i requires 0 <= i < n =>
      seq(n, j requires 0 <= j < n => Gram(B, w, i, j) + if i == j then l else 0.0))
  }

  /** `B^T r`: the weights are not applied to the right-hand side. */
  function RightHandSide(B: Matrix, r: Vector, n: nat): (b: Vector)
    requires |r| == |B| && forall k :: 0 <= k < |B| ==> |B[k]| == n
    ensures |b| == n
  {
    seq(n, j requires 0 <= j < n => Dot(Column(B, j), r))
  }

  lemma GramSymmetric(B: Matrix, w: Vector, i: nat, j: nat)
    requires |w| == |B| && forall k :: 0 <= k < |B| ==> i < |B[k]| && j < |B[k]|
    ensures Gram(B, w, i, j) == Gram(B, w, j, i)
  {
    assert Mul(Column(B, i), Column(B, j)) == Mul(Column(B, j), Column(B, i));
  }

  /** The normal matrix is symmetric and carries the damping once on each
      diagonal entry. */
  lemma NormalMatrixSymmetric(B: Matrix, w: Vector, l: real, n: nat)
    requires |w| == |B| && forall k :: 0 <= k < |B| ==> |B[k]| == n
    ensures forall i, j :: 0 <= i < n && 0 <= j < n ==>
      NormalMatrix(B, w, l, n)[i][j] == NormalMatrix(B, w, l, n)[j][i]
    ensures forall i :: 0 <= i < n ==> NormalMatrix(B, w, l, n)[i][i] == Gram(B, w, i, i) + l
  {
    var A := NormalMatrix(B, w, l, n);
    forall i, j | 0 <= i < n && 0 <= j < n ensures A[i][j] == A[j][i] {
      GramSymmetric(B, w, i, j);
    }
  }

  /** With unit weights, as in the older `directionVector`, each entry is the
      plain inner product of two columns. */
  lemma UnitWeightsGram(B: Matrix, i: nat, j: nat)
    requires forall k :: 0 <= k < |B| ==> i < |B[k]| && j < |B[k]|
    ensures Gram(B, Ones(|B|), i, j) == Dot(Column(B, i), Column(B, j))
  {
    DotMulOnes(Column(B, i), Column(B, j));
  }

  lemma {:induction false} DotMulOnes(c: Vector, d: Vector)
    requires |c| == |d|
    ensures Dot(Mul(c, d), Ones(|c|)) == Dot(c, d)
    decreases |c|
  {
    if |c| > 0 {
      var k := |c| - 1;
      var p := Mul(c, d);
      assert p[..k] == Mul(c[..k], d[..k]) by {
        assert forall q :: 0 <= q < k ==> p[..k][q] == Mul(c[..k], d[..k])[q];
      }
      assert Ones(|c|)[..k] == Ones(k);
      DotMulOnes(c[..k], d[..k]);
    }
  }

  /** The innermost loop of `directionVector`: the weighted inner product of
      columns `i` and `j` of the Broyden matrix. */
  method WeightedColumnProduct(B: array2<real>, w: Vector, i: nat, j: nat) returns (acc: real)
    requires B.Length0 == |w| && i < B.Length1 && j < B.Length1
    ensures acc == Gram(Rows(B), w, i, j)
  {
    ghost var p := Mul(Column(Rows(B), i), Column(Rows(B), j));
    assert |p| == |w|;
    acc := 0.0;
    for k := 0 to |w|
      invariant acc == Dot(p[..k], w[..k])
    {
      var term := B[k, i] * B[k, j];
      assert p[k] == term;
      DotStep(p, w, k);
      acc := acc + term * w[k];
    }
    DotAll(p, w);
  }

  /** Whether entry `(p, q)` has been written once the outer loop is at
      column `j` and the inner loop at row `i`: the loops fill the entries
      with `min(p, q)` below `j`, then `(i', j)` and `(j, i')` for `i'` from
      `j` up to `i`. */
  predicate Filled(p: nat, q: nat, j: nat, i: nat) {
    if p <= q then p < j || (p == j && q < i) else q < j || (q == j && p < i)
  }

  /** The end of an inner loop is the start of the next outer step. */
  lemma FilledNextColumn(p: nat, q: nat, j: nat, n: nat)
    requires p < n && q < n
    ensures Filled(p, q, j, n) == Filled(p, q, j + 1, j + 1)
  {
  }

  /** The first pair of loops of `directionVector`: entry `a[i][j]` for
      `i >= j` is computed and copied to `a[j][i]`. */
  method GramMatrix(B: array2<real>, w: Vector, n: nat) returns (a: array2<real>)
    requires B.Length0 == |w| && B.Length1 == n
    ensures fresh(a) && a.Length0 == n && a.Length1 == n
    ensures forall p, q :: 0 <= p < n && 0 <= q < n ==> a[p, q] == Gram(Rows(B), w, p, q)
  {
    ghost var M := Rows(B);
    a := new real[n, n]((_, _) => 0.0);
    for j := 0 to n
      invariant forall p, q :: 0 <= p < n && 0 <= q < n ==>
        a[p, q] == if Filled(p, q, j, j) then Gram(M, w, p, q) else 0.0
    {
      for i := j to n
        invariant forall p, q :: 0 <= p < n && 0 <= q < n ==>
          a[p, q] == if Filled(p, q, j, i) then Gram(M, w, p, q) else 0.0
      {
        var acc := WeightedColumnProduct(B, w, i, j);
        GramSymmetric(M, w, i, j);
        a[i, j] := acc;
        a[j, i] := a[i, j];
      }
      forall p, q | 0 <= p < n && 0 <= q < n
        ensures Filled(p, q, j, n) == Filled(p, q, j + 1, j + 1)
      {
        FilledNextColumn(p, q, j, n);
      }
    }
  }

  /** One pass of the right-hand side loop: `b[j] = sum_i B[i][j] * r[i]`. */
  method ColumnProduct(B: array2<real>, r: Vector, j: nat) returns (bj: real)
    requires B.Length0 == |r| && j < B.Length1
    ensures bj == Dot(Column(Rows(B), j), r)
  {
    ghost var c := Column(Rows(B), j);
    assert |c| == |r|;
    bj := 0.0;
    for i := 0 to |r|
      invariant bj == Dot(c[..i], r[..i])
    {
      var entry := B[i, j];
      assert c[i] == entry;
      DotStep(c, r, i);
      bj := bj + entry * r[i];
    }
    DotAll(c, r);
  }

  /** The loops of `directionVector` that build the damped normal equations:
      `a` from the Broyden matrix and the weights, then `b` with the damping
      added to the diagonal of `a`. `B` is read, not changed. */
  method BuildSystem(B: array2<real>, r: Vector, w: Vector, l: real, n: nat)
    returns (A: Matrix, b: Vector)
    requires B.Length0 == |r| == |w| && B.Length1 == n
    ensures A == NormalMatrix(Rows(B), w, l, n)
    ensures b == RightHandSide(Rows(B), r, n)
  {
    ghost var M := Rows(B);
    ghost var N := NormalMatrix(M, w, l, n);
    ghost var rhs := RightHandSide(M, r, n);
    var a := GramMatrix(B, w, n);
    b := seq(n, _ => 0.0);
    for j := 0 to n
      invariant |b| == n
      invariant forall p, q :: 0 <= p < n && 0 <= q < n ==>
        a[p, q] == Gram(M, w, p, q) + if p == q && p < j then l else 0.0
      invariant forall p :: 0 <= p < j ==> b[p] == rhs[p]
    {
      var bj := ColumnProduct(B, r, j);
      b := b[j := bj];
      a[j, j] := a[j, j] + l;
    }
    A := Rows(a);
    SameEntries(A, N, n, n);
  }


  /** `np.linalg.lstsq(a, b)` as an oracle: a solution of length `|b|`, or
      `None` where the source catches `LinAlgError`. */
  type Solver = (Matrix, Vector) -> Option<Vector>

  ghost predicate SolverShape(solve: Solver) {
    forall A, b :: solve(A, b).Some? ==> |solve(A, b).value| == |b|
  }

  /** The newer `directionVector`: `None` stands for the `OptimaException`
      raised when the solver fails. */
  function Direction(B: Matrix, r: Vector, beta: Vector, l: real, steplength: real, w: Vector, solve: Solver)
    : (result: Option<Vector>)
    requires SolverShape(solve)
    requires |r| == |w| == |B| && forall k :: 0 <= k < |B| ==> |B[k]| == |beta|
    ensures result.None? <==> solve(NormalMatrix(B, w, l, |beta|), RightHandSide(B, r, |beta|)).None?
    ensures result.Some? ==> |result.value| == |beta| && forall j :: 0 <= j < |beta| ==>
      result.value[j] == beta[j] + steplength * solve(NormalMatrix(B, w, l, |beta|), RightHandSide(B, r, |beta|)).value[j]
  {
    match solve(NormalMatrix(B, w, l, |beta|), RightHandSide(B, r, |beta|))
    case None => None
    case Some(x) => Some(AddScaled(beta, steplength, x))
  }

  /** The newer `directionVector(residual, broydenMatrix, coefficient, l,
      steplength, weight)`. */
  method DirectionVector(r: Vector, B: array2<real>, beta: Vector, l: real, steplength: real, w: Vector, solve: Solver)
    returns (result: Option<Vector>)
    requires SolverShape(solve)
    requires B.Length0 == |r| == |w| && B.Length1 == |beta|
    ensures result == Direction(Rows(B), r, beta, l, steplength, w, solve)
  {
    var n := |beta|;
    var A, b := BuildSystem(B, r, w, l, n);
    var x := solve(A, b);
    if x.None? {
      return None;
    }
    var betaNew := seq(n, _ => 0.0);
    for j := 0 to n
      invariant |betaNew| == n
      invariant forall k :: 0 <= k < j ==> betaNew[k] == beta[k] + steplength * x.value[k]
    {
      betaNew := betaNew[j := beta[j] + steplength * x.value[j]];
    }
    assert betaNew == AddScaled(beta, steplength, x.value);
    return Some(betaNew);
  }

  /** The older variant's limit on one step component: a component larger
      than 100 times the previous change of that coefficient is cut back to
      that size, keeping its sign. */
  function Clamp(x: real, lastChange: real): (c: real)
    ensures Abs(c) <= 100.0 * Abs(lastChange)
    ensures Abs(x) <= 100.0 * Abs(lastChange) ==> c == x
    ensures Abs(c) <= Abs(x)
    ensures (x >= 0.0 ==> c >= 0.0) && (x <= 0.0 ==> c <= 0.0)
    ensures lastChange != 0.0 && x != 0.0 ==> c != 0.0
  {
    if Abs(x) > 100.0 * Abs(lastChange) then
      if x > 0.0 then 100.0 * Abs(lastChange) else -100.0 * Abs(lastChange)
    else x
  }

  /** Where the previous change is nonzero, the clamp is the source's
      formula `100 * x / (|x| / |lastChange|)`. (With a zero previous change
      numpy divides by infinity and gets 0, which is what `Clamp` gives.) */
  lemma ClampFormula(x: real, lastChange: real)
    requires lastChange != 0.0 && Abs(x) > 100.0 * Abs(lastChange)
    ensures Clamp(x, lastChange) == 100.0 * x / (Abs(x) / Abs(lastChange))
  {
    var ax, ac := Abs(x), Abs(lastChange);
    DivByQuotient(100.0 * x, ax, ac);
    if x > 0.0 {
      ScaleCancel(100.0, x, ac);
    } else {
      ScaleCancel(-100.0, ax, ac);
      assert 100.0 * x == -100.0 * ax;
    }
  }

  lemma DivByQuotient(p: real, q: real, c: real)
    requires q != 0.0 && c != 0.0
    ensures p / (q / c) == p * c / q
  {
  }

  lemma ScaleCancel(k: real, x: real, c: real)
    requires x != 0.0
    ensures k * x * c / x == k * c
  {
  }

  /** Every component of a solution, clamped against the previous step. */
  function ClampedStep(x: Vector, lastChange: Vector): (step: Vector)
    requires |x| == |lastChange|
    ensures |step| == |x|
  {
    seq(|x|, j requires 0 <= j < |x| => Clamp(x[j], lastChange[j]))
  }

  /** The older `directionVector`: unit weights, and each component of the
      solution clamped against the previous step `lastChange`. */
  function LegacyDirection(B: Matrix, r: Vector, beta: Vector, l: real, steplength: real, lastChange: Vector, solve: Solver)
    : (result: Option<Vector>)
    requires SolverShape(solve)
    requires |r| == |B| && |lastChange| == |beta| && forall k :: 0 <= k < |B| ==> |B[k]| == |beta|
    ensures result.None? <==> solve(NormalMatrix(B, Ones(|B|), l, |beta|), RightHandSide(B, r, |beta|)).None?
    ensures result.Some? ==> |result.value| == |beta| && forall j :: 0 <= j < |beta| ==>
      result.value[j] == beta[j] + steplength
        * Clamp(solve(NormalMatrix(B, Ones(|B|), l, |beta|), RightHandSide(B, r, |beta|)).value[j], lastChange[j])
  {
    match solve(NormalMatrix(B, Ones(|B|), l, |beta|), RightHandSide(B, r, |beta|))
    case None => None
    case Some(x) => Some(AddScaled(beta, steplength, ClampedStep(x, lastChange)))
  }

  /** The older step moves each coefficient by at most `steplength` times
      100 times its previous change. */
  lemma LegacyStepBounded(B: Matrix, r: Vector, beta: Vector, l: real, steplength: real, lastChange: Vector, solve: Solver)
    requires SolverShape(solve)
    requires |r| == |B| && |lastChange| == |beta| && forall k :: 0 <= k < |B| ==> |B[k]| == |beta|
    requires LegacyDirection(B, r, beta, l, steplength, lastChange, solve).Some?
    ensures forall j :: 0 <= j < |beta| ==>
      Abs(LegacyDirection(B, r, beta, l, steplength, lastChange, solve).value[j] - beta[j])
        <= Abs(steplength) * (100.0 * Abs(lastChange[j]))
  {
    var x := solve(NormalMatrix(B, Ones(|B|), l, |beta|), RightHandSide(B, r, |beta|)).value;
    var step := ClampedStep(x, lastChange);
    var result := LegacyDirection(B, r, beta, l, steplength, lastChange, solve).value;
    forall j | 0 <= j < |beta|
      ensures Abs(result[j] - beta[j]) <= Abs(steplength) * (100.0 * Abs(lastChange[j]))
    {
      assert result[j] - beta[j] == steplength * step[j];
      ProductBound(steplength, step[j], 100.0 * Abs(lastChange[j]));
    }
  }

  lemma ProductBound(a: real, x: real, bound: real)
    requires Abs(x) <= bound
    ensures Abs(a * x) <= Abs(a) * bound
  {
    if a < 0.0 { assert Abs(a * x) == (-a) * Abs(x); }
    else { assert Abs(a * x) == a * Abs(x); }
  }

  /** The older `directionVector(functional, broydenMatrix, coefficient, l,
      steplength, lastChange)`, clamping `x[j]` in place before it is used. */
  method LegacyDirectionVector(r: Vector, B: array2<real>, beta: Vector, l: real, steplength: real, lastChange: Vector, solve: Solver)
    returns (result: Option<Vector>)
    requires SolverShape(solve)
    requires B.Length0 == |r| && B.Length1 == |beta| == |lastChange|
    ensures result == LegacyDirection(Rows(B), r, beta, l, steplength, lastChange, solve)
  {
    var n := |beta|;
    var A, b := BuildSystem(B, r, Ones(|r|), l, n);
    var solution := solve(A, b);
    if solution.None? {
      return None;
    }
    var x := solution.value;
    ghost var step := ClampedStep(solution.value, lastChange);
    ghost var target := AddScaled(beta, steplength, step);
    var betaNew := seq(n, _ => 0.0);
    for j := 0 to n
      invariant |x| == n && |betaNew| == n
      invariant forall k :: 0 <= k < j ==> x[k] == step[k]
      invariant forall k :: j <= k < n ==> x[k] == solution.value[k]
      invariant forall k :: 0 <= k < j ==> betaNew[k] == target[k]
    {
      x := x[j := Clamp(x[j], lastChange[j])];
      assert x[j] == step[j];
      betaNew := betaNew[j := beta[j] + steplength * x[j]];
      assert betaNew[j] == target[j];
    }
    assert betaNew == target;
    return Some(betaNew);
  }
}
