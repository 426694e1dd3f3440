/** The older `LevenbergMarquardtBroyden` driver of optima.py: one evaluation
    before the loop, all second guesses at once, the absolute residual
    `f - y`, and the Broyden update before every damped, clamped step. */
module LegacyOptimizer {
  import opened Common
  import opened Vectors
  import opened Norms
  import opened Broyden
  import opened NormalEquations
  import opened Outcomes
  import opened Optimizer

  /** The second guess of one coefficient: a repeated zero becomes `-7`, a
      repeated nonzero value `1.007` times itself. */
  function SecondValue(v0: real, v1: real): (v: real)
    ensures v != v0
    ensures v1 != v0 ==> v == v1
  {
    if v1 == v0 then (if v1 == 0.0 then -7.0 else 1.007 * v0) else v1
  }

  /** The coefficients the loop starts from. */
  function SecondGuess(tags: seq<Guess>): (beta: Vector)
    ensures |beta| == |tags|
    ensures forall i :: 0 <= i < |tags| ==> beta[i] != tags[i].first
  {
    seq(|tags|, i requires 0 <= i < |tags| => SecondValue(tags[i].first, tags[i].second))
  }

  /** `l = 1/(iteration + 1)**2` at loop iteration `iteration`. */
  function LegacyDamping(iteration: nat): (l: real)
    ensures 0.0 < l <= 1.0
  {
    var d := (iteration + 1) as real;
    assert d * d >= 1.0;
    1.0 / (d * d)
  }

  /** Everything the older driver takes: `y` stands for the `gibbs` entries of
      the validation points in key order. */
  datatype LegacyProblem = LegacyProblem(
    y: Vector, tags: seq<Guess>, evaluate: Evaluator, solve: Solver, maxIts: int, tol: real)

  ghost predicate ValidLegacyProblem(p: LegacyProblem) {
    |p.y| > 0 && |p.tags| > 0 && EvaluatorShape(p.evaluate, |p.y|) && SolverShape(p.solve)
  }

  ghost predicate ValidLegacyState(p: LegacyProblem, st: State) {
    |st.beta| == |p.tags| && |st.betaOld| == |p.tags| && |st.r| == |p.y|
    && IsMatrix(st.B, |p.y|, |p.tags|)
  }

  /** The evaluation at `beta`, with the damped retry after a failure. */
  function LegacyAttempt(p: LegacyProblem, betaOld: Vector, beta: Vector): (t: Option<Trial>)
    requires ValidLegacyProblem(p) && |betaOld| == |beta| == |p.tags|
    ensures t.Some? ==> |t.value.point| == |p.tags| && |t.value.values| == |p.y|
    ensures t.Some? ==> p.evaluate(t.value.point) == Some(t.value.values)
    ensures p.evaluate(beta).Some? ==> t == Some(Trial(beta, p.evaluate(beta).value))
    ensures t.Some? ==> t.value.point == beta || (p.evaluate(beta).None? && t.value.point == Retry(betaOld, beta))
    ensures t.None? <==> p.evaluate(beta).None? && p.evaluate(Retry(betaOld, beta)).None?
  {
    match p.evaluate(beta)
    case Some(f) => Some(Trial(beta, f))
    case None =>
      var retry := Retry(betaOld, beta);
      match p.evaluate(retry)
      case Some(f) => Some(Trial(retry, f))
      case None => None
  }

  /** One pass of the loop of the older driver: evaluate at `beta` (or the
      retry point), stop on convergence, update the Broyden matrix with the
      step from `betaOld`, and take the damped, clamped step from the point
      just evaluated, which becomes the next `betaOld`. */
  function LegacyIterate(p: LegacyProblem, iteration: nat, st: State): (o: Step)
    requires ValidLegacyProblem(p) && ValidLegacyState(p, st)
    ensures o.Continue? ==> ValidLegacyState(p, o.state)
    ensures o.Continue? ==>
      var point := o.state.betaOld;
      var s := Sub(point, st.betaOld);
      && (point == st.beta || (p.evaluate(st.beta).None? && point == Retry(st.betaOld, st.beta)))
      && p.evaluate(point).Some? && |p.evaluate(point).value| == |p.y|
      && o.state.r == Sub(p.evaluate(point).value, p.y)
      && SumSquares(o.state.r) >= p.tol
      && SumSquares(s) != 0.0
      && o.state.B == BroydenUpdated(st.B, Sub(st.r, o.state.r), s)
      && LegacyDirection(o.state.B, o.state.r, point, LegacyDamping(iteration), 1.0, s, p.solve) == Some(o.state.beta)
    ensures o.Stop? && o.outcome.Converged? ==>
      && o.outcome.iterations == iteration + 1
      && (|| o.outcome.coefficients == st.beta
          || (p.evaluate(st.beta).None? && o.outcome.coefficients == Retry(st.betaOld, st.beta)))
      && p.evaluate(o.outcome.coefficients).Some? && |p.evaluate(o.outcome.coefficients).value| == |p.y|
      && o.outcome.norm == SumSquares(Sub(p.evaluate(o.outcome.coefficients).value, p.y))
      && o.outcome.norm < p.tol
    ensures o == Stop(EvaluationFailed(iteration)) <==> LegacyAttempt(p, st.betaOld, st.beta).None?
    ensures LegacyAttempt(p, st.betaOld, st.beta).Some? ==>
      var t := LegacyAttempt(p, st.betaOld, st.beta).value;
      var r := Sub(t.values, p.y);
      var s := Sub(t.point, st.betaOld);
      && (SumSquares(r) < p.tol ==> o == Stop(Converged(t.point, iteration + 1, SumSquares(r))))
      && (SumSquares(r) >= p.tol && SumSquares(s) == 0.0 ==> o == Stop(NonFinite(iteration)))
      && (SumSquares(r) >= p.tol && SumSquares(s) != 0.0 ==>
            var B := BroydenUpdated(st.B, Sub(st.r, r), s);
            && (o == Stop(SolverFailed(iteration)) <==>
                  LegacyDirection(B, r, t.point, LegacyDamping(iteration), 1.0, s, p.solve).None?)
            && (o.Continue? <==>
                  LegacyDirection(B, r, t.point, LegacyDamping(iteration), 1.0, s, p.solve).Some?))
  {
    match LegacyAttempt(p, st.betaOld, st.beta)
    case None => Stop(EvaluationFailed(iteration))
    case Some(trial) =>
      var beta := trial.point;
      var s := Sub(beta, st.betaOld);
      var r := Sub(trial.values, p.y);
      var norm := SumSquares(r);
      if norm < p.tol then Stop(Converged(beta, iteration + 1, norm))
      else if SumSquares(s) == 0.0 then Stop(NonFinite(iteration))
      else
        var B := BroydenUpdated(st.B, Sub(st.r, r), s);
        match LegacyDirection(B, r, beta, LegacyDamping(iteration), 1.0, s, p.solve)
        case None => Stop(SolverFailed(iteration))
        case Some(next) => Continue(State(next, beta, r, B))
  }

  function LegacyLoop(p: LegacyProblem, iteration: nat, st: State): Outcome
    requires ValidLegacyProblem(p) && ValidLegacyState(p, st)
    decreases p.maxIts - iteration
  {
    if iteration >= p.maxIts then Exhausted
    else
      match LegacyIterate(p, iteration, st)
      case Stop(o) => o
      case Continue(next) => LegacyLoop(p, iteration + 1, next)
  }

  /** `LevenbergMarquardtBroyden(validationPoints, tags, functional, maxIts, tol)`
      of optima.py. */
  function LegacyRun(y: Vector, tags: seq<Guess>, evaluate: Evaluator, solve: Solver, maxIts: int, tol: real): Outcome
    requires EvaluatorShape(evaluate, |y|) && SolverShape(solve)
  {
    var p := LegacyProblem(y, tags, evaluate, solve, maxIts, tol);
    if |tags| == 0 then NoTags
    else if |y| == 0 then NoPoints
    else
      match evaluate(Firsts(tags))
      case None => InitialEvaluationFailed
      case Some(f) => LegacyLoop(p, 0, State(SecondGuess(tags), Firsts(tags), Sub(f, y), AllOnes(|y|, |tags|)))
  }

  /** One loop iteration on the array. */
  method LegacyAdvance(p: LegacyProblem, iteration: nat, beta: Vector, betaOld: Vector, rOld: Vector, B: array2<real>)
    returns (stop: Option<Outcome>, betaNew: Vector, betaOldNew: Vector, rNew: Vector)
    requires ValidLegacyProblem(p) && ValidLegacyState(p, State(beta, betaOld, rOld, Rows(B)))
    modifies B
    ensures LegacyIterate(p, iteration, State(beta, betaOld, rOld, old(Rows(B)))) ==
      if stop.Some? then Stop(stop.value) else Continue(State(betaNew, betaOldNew, rNew, Rows(B)))
  {
    assert |Rows(B)[0]| == B.Length1;
    betaNew, betaOldNew, rNew := beta, betaOld, rOld;
    var point := beta;
    var f := p.evaluate(point);
    if f.None? {
      point := Retry(betaOld, point);
      f := p.evaluate(point);
      if f.None? {
        return Some(EvaluationFailed(iteration)), betaNew, betaOldNew, rNew;
      }
    }
    assert LegacyAttempt(p, betaOld, beta) == Some(Trial(point, f.value));
    var s := Sub(point, betaOld);
    rNew := Sub(f.value, p.y);
    var t := Sub(rOld, rNew);
    betaOldNew := point;
    var norm := FunctionalNorm(rNew);
    if norm < p.tol {
      return Some(Converged(point, iteration + 1, norm)), betaNew, betaOldNew, rNew;
    }
    var sMag := FunctionalNorm(s);
    if sMag == 0.0 {
      return Some(NonFinite(iteration)), betaNew, betaOldNew, rNew;
    }
    BroydenUpdate(B, t, s);
    var l := LegacyDamping(iteration);
    var next := LegacyDirectionVector(rNew, B, point, l, 1.0, s, p.solve);
    if next.None? {
      return Some(SolverFailed(iteration)), betaNew, betaOldNew, rNew;
    }
    stop, betaNew := None, next.value;
  }

  /** The older driver; the Broyden matrix is an array updated in place. */
  method LegacyLevenbergMarquardtBroyden(y: Vector, tags: seq<Guess>, evaluate: Evaluator, solve: Solver,
                                         maxIts: int, tol: real)
    returns (outcome: Outcome)
    requires EvaluatorShape(evaluate, |y|) && SolverShape(solve)
    ensures outcome == LegacyRun(y, tags, evaluate, solve, maxIts, tol)
  {
    var m, n := |y|, |tags|;
    if n == 0 {
      return NoTags;
    }
    if m == 0 {
      return NoPoints;
    }
    var p := LegacyProblem(y, tags, evaluate, solve, maxIts, tol);
    var broydenMatrix := new real[m, n]((_, _) => 1.0);
    var betaOld := Firsts(tags);
    var f := evaluate(betaOld);
    if f.None? {
      return InitialEvaluationFailed;
    }
    var r := Sub(f.value, y);
    var beta := SecondGuess(tags);
    forall i | 0 <= i < m ensures Rows(broydenMatrix)[i] == AllOnes(m, n)[i] {
      assert forall j :: 0 <= j < n ==> Rows(broydenMatrix)[i][j] == 1.0;
    }
    assert Rows(broydenMatrix) == AllOnes(m, n);
    assert LegacyRun(y, tags, evaluate, solve, maxIts, tol) == LegacyLoop(p, 0, State(beta, betaOld, r, AllOnes(m, n)));
    var iteration := 0;
    while iteration < maxIts
      invariant ValidLegacyState(p, State(beta, betaOld, r, Rows(broydenMatrix)))
      invariant LegacyLoop(p, iteration, State(beta, betaOld, r, Rows(broydenMatrix))) == LegacyRun(y, tags, evaluate, solve, maxIts, tol)
      decreases maxIts - iteration
    {
      var stop;
      stop, beta, betaOld, r := LegacyAdvance(p, iteration, beta, betaOld, r, broydenMatrix);
      if stop.Some? {
        return stop.value;
      }
      iteration := iteration + 1;
    }
    return Exhausted;
  }
}
