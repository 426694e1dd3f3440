/** The newer `LevenbergMarquardtBroyden` driver of python/optima.py: optional
    weights and scales, second guesses tried one coefficient at a time, and
    the relative residual. */
module Optimizer {
  import opened Common
  import opened Vectors
  import opened Norms
  import opened Broyden
  import opened NormalEquations
  import opened Outcomes

  /** `(-1)**i * (7*i + 1)`, the value a coefficient left blank gets. */
  function Alternating(i: nat): (v: real)
    ensures v != 0.0
    ensures (v > 0.0 <==> i % 2 == 0) && Abs(v) == (7 * i + 1) as real
  {
    if i % 2 == 0 then (7 * i + 1) as real else -((7 * i + 1) as real)
  }

  /** The second value tried for coefficient `i`, given its two guesses. */
  function BootstrapValue(i: nat, v0: real, v1: real): (v: real)
    ensures v != v0
    ensures v1 != v0 ==> v == v1
  {
    if v1 == v0 then
      if v1 == 0.0 then Alternating(i) else 1.007 * v0
    else v1
  }

  /** `l = 1/(iteration + 1 - n)**2` of a refinement iteration. */
  function Damping(iteration: nat, n: nat): (l: real)
    requires iteration >= n + 1
    ensures 0.0 < l <= 0.25
  {
    var d := (iteration + 1 - n) as real;
    assert d >= 2.0;
    assert d * d >= 4.0;
    1.0 / (d * d)
  }

  /** The damping strictly decreases from one refinement iteration to the
      next. */
  lemma DampingDecreases(iteration: nat, n: nat)
    requires iteration >= n + 1
    ensures Damping(iteration + 1, n) < Damping(iteration, n)
  {
    var d := (iteration + 1 - n) as real;
    var e := d + 1.0;
    assert d * d < e * e by {
      assert e * e == d * d + 2.0 * d + 1.0;
    }
    Reciprocals(d * d, e * e);
  }

  lemma Reciprocals(a: real, b: real)
    requires 0.0 < a < b
    ensures 1.0 / b < 1.0 / a
  {
  }

  /** Everything a run needs, with `weight` and `scale` already replaced by
      ones where their length did not fit. */
  datatype Problem = Problem(
    y: Vector, tags: seq<Guess>, evaluate: Evaluator, solve: Solver,
    maxIts: int, tol: real, weight: Vector, scale: Vector)

  ghost predicate ValidProblem(p: Problem) {
    |p.y| > 0 && |p.tags| > 0 && |p.weight| == |p.y| && |p.scale| == |p.tags|
    && EvaluatorShape(p.evaluate, |p.y|) && SolverShape(p.solve)
  }

  /** `beta`, `betaOld`, `r` (equal to `rOld` between iterations) and the
      Broyden matrix, between two iterations. */
  datatype State = State(beta: Vector, betaOld: Vector, r: Vector, B: Matrix)

  ghost predicate ValidState(p: Problem, st: State) {
    |st.beta| == |p.tags| && |st.betaOld| == |p.tags| && |st.r| == |p.y|
    && IsMatrix(st.B, |p.y|, |p.tags|)
  }

  /** The point a successful evaluation was made at, and its values. */
  datatype Trial = Trial(point: Vector, values: Vector)

  datatype Step = Stop(outcome: Outcome) | Continue(state: State)

  /** `np.ones(k)` unless the given vector has length `k`. */
  function Defaulted(v: Vector, k: nat): (r: Vector)
    ensures |r| == k
    ensures |v| == k ==> r == v
    ensures |v| != k ==> forall j :: 0 <= j < k ==> r[j] == 1.0
  {
    if |v| == k then v else Ones(k)
  }

  /** The coefficients chosen at the start of an iteration: the first guess,
      one coordinate moved to its second value, or a damped step (`None` when
      the solver fails). */
  function Candidate(p: Problem, iteration: nat, st: State): (c: Option<Vector>)
    requires ValidProblem(p) && ValidState(p, st)
    ensures c.Some? ==> |c.value| == |p.tags|
    ensures iteration == 0 ==> c == Some(Firsts(p.tags))
    ensures 1 <= iteration <= |p.tags| ==> c.Some? && forall j :: 0 <= j < |p.tags| ==>
      c.value[j] == if j == iteration - 1
                    then BootstrapValue(j, p.tags[j].first, p.tags[j].second)
                    else st.beta[j]
    ensures c.None? ==> iteration > |p.tags|
    ensures iteration > |p.tags| ==>
      c == Direction(st.B, st.r, st.beta, Damping(iteration, |p.tags|), 1.0, p.weight, p.solve)
  {
    var n := |p.tags|;
    if iteration == 0 then Some(Firsts(p.tags))
    else if iteration < n + 1 then
      var i := iteration - 1;
      Some(st.beta[i := BootstrapValue(i, p.tags[i].first, p.tags[i].second)])
    else
      Direction(st.B, st.r, st.beta, Damping(iteration, n), 1.0, p.weight, p.solve)
  }

  /** The evaluation at `beta * scale`, with the damped retry after a failure
      in any iteration but the first. */
  function Attempt(p: Problem, iteration: nat, betaOld: Vector, beta: Vector): (t: Option<Trial>)
    requires ValidProblem(p) && |betaOld| == |beta| == |p.tags|
    ensures t.Some? ==> |t.value.point| == |p.tags| && |t.value.values| == |p.y|
    ensures t.Some? ==> p.evaluate(t.value.point) == Some(t.value.values)
    ensures t.None? <==> (p.evaluate(Mul(beta, p.scale)).None?
      && (iteration == 0 || p.evaluate(Retry(betaOld, Mul(beta, p.scale))).None?))
    ensures p.evaluate(Mul(beta, p.scale)).Some? ==>
      t == Some(Trial(Mul(beta, p.scale), p.evaluate(Mul(beta, p.scale)).value))
    ensures t.Some? ==>
      || t.value.point == Mul(beta, p.scale)
      || (iteration > 0 && p.evaluate(Mul(beta, p.scale)).None? && t.value.point == Retry(betaOld, Mul(beta, p.scale)))
  {
    var scaled := Mul(beta, p.scale);
    match p.evaluate(scaled)
    case Some(f) => Some(Trial(scaled, f))
    case None =>
      if iteration == 0 then None
      else
        var retry := Retry(betaOld, scaled);
        match p.evaluate(retry)
        case Some(f) => Some(Trial(retry, f))
        case None => None
  }

  /** Unscale, compute the residual and its norm, stop on convergence, and
      otherwise update the Broyden matrix (from the second iteration on).
      A zero entry of `scale` or `y` divides by zero, and so does a step of
      length zero in the update: both end the run as non-finite. */
  function Measure(p: Problem, iteration: nat, st: State, trial: Trial): (o: Step)
    requires ValidProblem(p) && ValidState(p, st)
    requires |trial.point| == |p.tags| && |trial.values| == |p.y|
    ensures o.Continue? ==> ValidState(p, o.state)
    ensures !NonZero(p.scale) || !NonZero(p.y) ==> o == Stop(NonFinite(iteration))
    ensures NonZero(p.scale) && NonZero(p.y) && SumSquares(RelativeResidual(trial.values, p.y)) < p.tol ==>
      o == Stop(Converged(trial.point, iteration + 1, SumSquares(RelativeResidual(trial.values, p.y))))
    ensures o.Continue? ==>
      && NonZero(p.scale) && NonZero(p.y)
      && SumSquares(RelativeResidual(trial.values, p.y)) >= p.tol
      && o.state.betaOld == o.state.beta
      && Mul(o.state.beta, p.scale) == trial.point
      && o.state.r == ScaledResidual(trial.values, p.y)
      && (iteration == 0 ==> o.state.B == st.B)
      && (iteration > 0 ==>
            && SumSquares(Sub(o.state.beta, st.betaOld)) != 0.0
            && o.state.B == BroydenUpdated(st.B, Sub(st.r, o.state.r), Sub(o.state.beta, st.betaOld)))
    ensures o.Stop? && o.outcome.NonFinite? && NonZero(p.scale) && NonZero(p.y) ==>
      iteration > 0 && SumSquares(Sub(Div(trial.point, p.scale), st.betaOld)) == 0.0
    ensures
      && NonZero(p.scale) && NonZero(p.y)
      && SumSquares(RelativeResidual(trial.values, p.y)) >= p.tol
      && (iteration == 0 || SumSquares(Sub(Div(trial.point, p.scale), st.betaOld)) != 0.0)
      ==> o.Continue?
  {
    if !NonZero(p.scale) || !NonZero(p.y) then Stop(NonFinite(iteration))
    else
      var beta := Div(trial.point, p.scale);
      var r := ScaledResidual(trial.values, p.y);
      var norm := SumSquares(Unscaled(r));
      ScaleRoundTrip(trial.point, p.scale);
      RescaleCancels(trial.values, p.y);
      if norm < p.tol then Stop(Converged(Mul(beta, p.scale), iteration + 1, norm))
      else if iteration == 0 then Continue(State(beta, beta, r, st.B))
      else
        var s := Sub(beta, st.betaOld);
        if SumSquares(s) == 0.0 then Stop(NonFinite(iteration))
        else Continue(State(beta, beta, r, BroydenUpdated(st.B, Sub(st.r, r), s)))
  }

  /** One pass of the `for iteration in range(maxIts)` loop. */
  function Iterate(p: Problem, iteration: nat, st: State): (o: Step)
    requires ValidProblem(p) && ValidState(p, st)
    ensures o.Continue? ==> ValidState(p, o.state)
    ensures o.Continue? ==>
      var point := Mul(o.state.beta, p.scale);
      && Candidate(p, iteration, st).Some?
      && (point == Mul(Candidate(p, iteration, st).value, p.scale)
          || (&& iteration > 0
              && p.evaluate(Mul(Candidate(p, iteration, st).value, p.scale)).None?
              && point == Retry(st.betaOld, Mul(Candidate(p, iteration, st).value, p.scale))))
      && NonZero(p.y) && p.evaluate(point).Some? && |p.evaluate(point).value| == |p.y|
      && o.state.r == ScaledResidual(p.evaluate(point).value, p.y)
      && SumSquares(RelativeResidual(p.evaluate(point).value, p.y)) >= p.tol
      && o.state.betaOld == o.state.beta
      && (iteration == 0 ==> o.state.B == st.B)
      && (iteration > 0 ==>
            && SumSquares(Sub(o.state.beta, st.betaOld)) != 0.0
            && o.state.B == BroydenUpdated(st.B, Sub(st.r, o.state.r), Sub(o.state.beta, st.betaOld)))
    ensures o == Stop(SolverFailed(iteration)) <==> Candidate(p, iteration, st).None?
    ensures o == Stop(InitialEvaluationFailed) <==>
      iteration == 0 && Attempt(p, 0, st.betaOld, Firsts(p.tags)).None?
    ensures o == Stop(EvaluationFailed(iteration)) <==>
      && iteration > 0 && Candidate(p, iteration, st).Some?
      && Attempt(p, iteration, st.betaOld, Candidate(p, iteration, st).value).None?
    ensures Candidate(p, iteration, st).Some? && Attempt(p, iteration, st.betaOld, Candidate(p, iteration, st).value).Some? ==>
      o == Measure(p, iteration, st, Attempt(p, iteration, st.betaOld, Candidate(p, iteration, st).value).value)
  {
    match Candidate(p, iteration, st)
    case None => Stop(SolverFailed(iteration))
    case Some(beta) =>
      match Attempt(p, iteration, st.betaOld, beta)
      case None => Stop(if iteration == 0 then InitialEvaluationFailed else EvaluationFailed(iteration))
      case Some(trial) => Measure(p, iteration, st, trial)
  }

  /** The remaining iterations from `iteration` on. */
  function Loop(p: Problem, iteration: nat, st: State): Outcome
    requires ValidProblem(p) && ValidState(p, st)
    decreases p.maxIts - iteration
  {
    if iteration >= p.maxIts then Exhausted
    else
      match Iterate(p, iteration, st)
      case Stop(o) => o
      case Continue(next) => Loop(p, iteration + 1, next)
  }

  function AllOnes(m: nat, n: nat): (B: Matrix)
    ensures IsMatrix(B, m, n) && forall i, j :: 0 <= i < m && 0 <= j < n ==> B[i][j] == 1.0
  {
    seq(m, _ => Ones(n))
  }

  /** The state before the first iteration; only the Broyden matrix of ones
      is read before it is overwritten. */
  function Initial(p: Problem): (st: State)
    requires ValidProblem(p)
    ensures ValidState(p, st)
  {
    State(Firsts(p.tags), Firsts(p.tags), seq(|p.y|, _ => 0.0), AllOnes(|p.y|, |p.tags|))
  }

  /** `LevenbergMarquardtBroyden(y, tags, functional, maxIts, tol, weight, scale)`. */
  function Run(y: Vector, tags: seq<Guess>, evaluate: Evaluator, solve: Solver,
               maxIts: int, tol: real, weight: Vector, scale: Vector): Outcome
    requires EvaluatorShape(evaluate, |y|) && SolverShape(solve)
  {
    var p := Problem(y, tags, evaluate, solve, maxIts, tol, Defaulted(weight, |y|), Defaulted(scale, |tags|));
    if |tags| == 0 then NoTags
    else if |y| == 0 then NoPoints
    else Loop(p, 0, Initial(p))
  }

  /** The "Get beta" part of an iteration. */
  method ChooseCandidate(p: Problem, iteration: nat, beta: Vector, betaOld: Vector, r: Vector,
                         B: array2<real>) returns (c: Option<Vector>)
    requires ValidProblem(p) && ValidState(p, State(beta, betaOld, r, Rows(B)))
    ensures c == Candidate(p, iteration, State(beta, betaOld, r, Rows(B)))
  {
    var n := |p.tags|;
    if iteration == 0 {
      c := Some(Firsts(p.tags));
    } else if iteration < n + 1 {
      var i := iteration - 1;
      c := Some(beta[i := BootstrapValue(i, p.tags[i].first, p.tags[i].second)]);
    } else {
      var l := 1.0 / (((iteration + 1 - n) * (iteration + 1 - n)) as real);
      assert l == Damping(iteration, n);
      assert |Rows(B)[0]| == B.Length1;
      c := DirectionVector(r, B, beta, l, 1.0, p.weight, p.solve);
      assert c == Direction(Rows(B), r, beta, Damping(iteration, n), 1.0, p.weight, p.solve);
    }
  }

  /** The evaluation and its damped retry. */
  method Evaluate(p: Problem, iteration: nat, betaOld: Vector, beta: Vector) returns (t: Option<Trial>)
    requires ValidProblem(p) && |betaOld| == |beta| == |p.tags|
    ensures t == Attempt(p, iteration, betaOld, beta)
  {
    var point := Mul(beta, p.scale);
    var f := p.evaluate(point);
    if f.None? {
      if iteration == 0 {
        return None;
      }
      point := Retry(betaOld, point);
      f := p.evaluate(point);
      if f.None? {
        return None;
      }
    }
    t := Some(Trial(point, f.value));
  }

  /** One iteration on the array: `stop` holds the outcome when the loop
      ends here, otherwise `beta` and `r` are the new coefficients and
      residuals and the array holds the updated Broyden matrix. */
  method Advance(p: Problem, iteration: nat, beta: Vector, betaOld: Vector, r: Vector, B: array2<real>)
    returns (stop: Option<Outcome>, betaNew: Vector, rNew: Vector)
    requires ValidProblem(p) && ValidState(p, State(beta, betaOld, r, Rows(B)))
    modifies B
    ensures Iterate(p, iteration, State(beta, betaOld, r, old(Rows(B)))) ==
      if stop.Some? then Stop(stop.value) else Continue(State(betaNew, betaNew, rNew, Rows(B)))
  {
    assert |Rows(B)[0]| == B.Length1;
    betaNew, rNew := beta, r;
    var candidate := ChooseCandidate(p, iteration, beta, betaOld, r, B);
    if candidate.None? {
      return Some(SolverFailed(iteration)), betaNew, rNew;
    }
    var trial := Evaluate(p, iteration, betaOld, candidate.value);
    if trial.None? {
      stop := Some(if iteration == 0 then InitialEvaluationFailed else EvaluationFailed(iteration));
      return;
    }
    if !NonZero(p.scale) || !NonZero(p.y) {
      return Some(NonFinite(iteration)), betaNew, rNew;
    }
    betaNew := Div(trial.value.point, p.scale);
    rNew := ScaledResidual(trial.value.values, p.y);
    var norm := FunctionalNorm(Unscaled(rNew));
    if norm < p.tol {
      return Some(Converged(Mul(betaNew, p.scale), iteration + 1, norm)), betaNew, rNew;
    }
    if iteration > 0 {
      var s := Sub(betaNew, betaOld);
      var sMag := FunctionalNorm(s);
      if sMag == 0.0 {
        return Some(NonFinite(iteration)), betaNew, rNew;
      }
      BroydenUpdate(B, Sub(r, rNew), s);
    }
    stop := None;
  }

  /** The driver itself: the Broyden matrix is an array updated in place. */
  method LevenbergMarquardtBroyden(y: Vector, tags: seq<Guess>, evaluate: Evaluator, solve: Solver,
                                   maxIts: int, tol: real, weight: Vector, scale: Vector)
    returns (outcome: Outcome)
    requires EvaluatorShape(evaluate, |y|) && SolverShape(solve)
    ensures outcome == Run(y, tags, evaluate, solve, maxIts, tol, weight, scale)
  {
    var m, n := |y|, |tags|;
    if n == 0 {
      return NoTags;
    }
    if m == 0 {
      return NoPoints;
    }
    var p := Problem(y, tags, evaluate, solve, maxIts, tol, Defaulted(weight, m), Defaulted(scale, n));
    var broydenMatrix := new real[m, n]((_, _) => 1.0);
    var beta, betaOld, r := Firsts(tags), Firsts(tags), seq(m, _ => 0.0);
    forall i | 0 <= i < m ensures Rows(broydenMatrix)[i] == AllOnes(m, n)[i] {
      assert forall j :: 0 <= j < n ==> Rows(broydenMatrix)[i][j] == 1.0;
    }
    assert Initial(p) == State(beta, betaOld, r, Rows(broydenMatrix));
    var iteration := 0;
    while iteration < maxIts
      invariant ValidState(p, State(beta, betaOld, r, Rows(broydenMatrix)))
      invariant Loop(p, iteration, State(beta, betaOld, r, Rows(broydenMatrix))) == Run(y, tags, evaluate, solve, maxIts, tol, weight, scale)
      decreases maxIts - iteration
    {
      var stop;
      stop, beta, r := Advance(p, iteration, beta, betaOld, r, broydenMatrix);
      if stop.Some? {
        return stop.value;
      }
      betaOld := beta;
      iteration := iteration + 1;
    }
    return Exhausted;
  }
}
