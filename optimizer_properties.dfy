/** What every run of `LevenbergMarquardtBroyden` ends with, proved over the
    specification functions of module `Optimizer`. */
module OptimizerProperties {
  import opened Common
  import opened Vectors
  import opened Norms
  import opened Broyden
  import opened NormalEquations
  import opened Outcomes
  import opened Optimizer

  /** `s2` is the state at the start of iteration `k` of a run that is at
      `st` at the start of iteration `it`: every iteration from `it` up to
      `k` went on (and so, by `Iterate`, had a relative norm `>= tol`). */
  ghost predicate Reaches(p: Problem, it: nat, st: State, k: nat, s2: State)
    requires ValidProblem(p) && ValidState(p, st)
    decreases k - it
  {
    if it == k then s2 == st
    else
      && it < k && it < p.maxIts && Iterate(p, it, st).Continue?
      && Reaches(p, it + 1, Iterate(p, it, st).state, k, s2)
  }

  /** Iteration `k` from `st` finds no point to evaluate at: the functional
      fails at the scaled candidate and at its retry. */
  ghost predicate EvaluationFailsAt(p: Problem, k: nat, st: State)
    requires ValidProblem(p) && ValidState(p, st)
  {
    && Candidate(p, k, st).Some?
    && p.evaluate(Mul(Candidate(p, k, st).value, p.scale)).None?
    && p.evaluate(Retry(st.betaOld, Mul(Candidate(p, k, st).value, p.scale))).None?
  }

  /** Iteration `k` from `st` is a refinement iteration whose damped, weighted
      normal equations the solver cannot solve. */
  ghost predicate SolverFailsAt(p: Problem, k: nat, st: State)
    requires ValidProblem(p) && ValidState(p, st)
  {
    && k > |p.tags|
    && p.solve(NormalMatrix(st.B, p.weight, Damping(k, |p.tags|), |p.tags|), RightHandSide(st.B, st.r, |p.tags|)).None?
  }

  /** Iteration `k` from `st` evaluates a point and then divides by zero: a
      zero entry of `scale` or `y`, or, after the first iteration and short
      of convergence, a step of length zero. */
  ghost predicate NonFiniteAt(p: Problem, k: nat, st: State)
    requires ValidProblem(p) && ValidState(p, st)
  {
    && Candidate(p, k, st).Some?
    && Attempt(p, k, st.betaOld, Candidate(p, k, st).value).Some?
    && var t := Attempt(p, k, st.betaOld, Candidate(p, k, st).value).value;
       || !NonZero(p.scale) || !NonZero(p.y)
       || (&& k >= 1
           && SumSquares(RelativeResidual(t.values, p.y)) >= p.tol
           && SumSquares(Sub(Div(t.point, p.scale), st.betaOld)) == 0.0)
  }

  /** What an outcome of the run that is at `st` at the start of iteration
      `it` says about that run. */
  ghost predicate Explained(p: Problem, it: nat, st: State, o: Outcome)
    requires ValidProblem(p) && ValidState(p, st)
  {
    match o
    case NoTags => false
    case NoPoints => false
    case InitialEvaluationFailed =>
      it == 0 && 0 < p.maxIts && p.evaluate(Mul(Firsts(p.tags), p.scale)).None?
    case EvaluationFailed(k) =>
      && 1 <= k && it <= k < p.maxIts
      && exists s2 :: Reaches(p, it, st, k, s2) && ValidState(p, s2) && EvaluationFailsAt(p, k, s2)
    case SolverFailed(k) =>
      && |p.tags| + 1 <= k && it <= k < p.maxIts
      && exists s2 :: Reaches(p, it, st, k, s2) && ValidState(p, s2) && SolverFailsAt(p, k, s2)
    case NonFinite(k) =>
      && it <= k < p.maxIts
      && exists s2 :: Reaches(p, it, st, k, s2) && ValidState(p, s2) && NonFiniteAt(p, k, s2)
    case Converged(c, k, norm) =>
      it < k <= p.maxIts && norm < p.tol && NonZero(p.y)
      && p.evaluate(c).Some? && norm == SumSquares(RelativeResidual(p.evaluate(c).value, p.y))
    case Exhausted =>
      p.maxIts <= it || exists s2 :: Reaches(p, it, st, p.maxIts, s2)
  }

  /** One iteration that stops explains its outcome. */
  lemma IterateExplained(p: Problem, it: nat, st: State)
    requires ValidProblem(p) && ValidState(p, st) && it < p.maxIts
    requires Iterate(p, it, st).Stop?
    ensures Explained(p, it, st, Iterate(p, it, st).outcome)
  {
    assert Reaches(p, it, st, it, st);
    var candidate := Candidate(p, it, st);
    if candidate.Some? {
      var trial := Attempt(p, it, st.betaOld, candidate.value);
      if trial.Some? && NonZero(p.scale) && NonZero(p.y) {
        var t := trial.value;
        var beta := Div(t.point, p.scale);
        ScaleRoundTrip(t.point, p.scale);
        RescaleCancels(t.values, p.y);
        assert Mul(beta, p.scale) == t.point;
      }
    }
  }

  /** A state reached after an iteration that went on is reached from the
      state before it. */
  lemma ReachesStep(p: Problem, it: nat, st: State, k: nat, s2: State)
    requires ValidProblem(p) && ValidState(p, st) && it < p.maxIts
    requires Iterate(p, it, st).Continue?
    requires Reaches(p, it + 1, Iterate(p, it, st).state, k, s2)
    ensures Reaches(p, it, st, k, s2)
  {
  }

  /** An outcome explained from the state after an iteration that went
      on is explained from the state before it. */
  lemma ExplainedLifts(p: Problem, it: nat, st: State, o: Outcome)
    requires ValidProblem(p) && ValidState(p, st) && it < p.maxIts
    requires Iterate(p, it, st).Continue?
    requires Explained(p, it + 1, Iterate(p, it, st).state, o)
    ensures Explained(p, it, st, o)
  {
    var next := Iterate(p, it, st).state;
    if o.Exhausted? {
      if p.maxIts <= it + 1 {
        assert Reaches(p, it + 1, next, it + 1, next);
        ReachesStep(p, it, st, p.maxIts, next);
      } else {
        var s2 :| Reaches(p, it + 1, next, p.maxIts, s2);
        ReachesStep(p, it, st, p.maxIts, s2);
      }
    } else if o.EvaluationFailed? || o.SolverFailed? || o.NonFinite? {
      StopLifts(p, it, st, o);
    }
  }

  /** The same for the outcomes that name the iteration they stop in. */
  lemma StopLifts(p: Problem, it: nat, st: State, o: Outcome)
    requires ValidProblem(p) && ValidState(p, st) && it < p.maxIts
    requires Iterate(p, it, st).Continue?
    requires o.EvaluationFailed? || o.SolverFailed? || o.NonFinite?
    requires Explained(p, it + 1, Iterate(p, it, st).state, o)
    ensures Explained(p, it, st, o)
  {
    var next := Iterate(p, it, st).state;
    var k := o.iteration;
    var s2 :| && Reaches(p, it + 1, next, k, s2) && ValidState(p, s2)
              && (o.EvaluationFailed? ==> EvaluationFailsAt(p, k, s2))
              && (o.SolverFailed? ==> SolverFailsAt(p, k, s2))
              && (o.NonFinite? ==> NonFiniteAt(p, k, s2));
    ReachesStep(p, it, st, k, s2);
  }

  /** After every update the Broyden matrix maps the step just taken to the
      change of the residual it caused: `B s == rOld - r`. */
  lemma ContinueSatisfiesSecant(p: Problem, it: nat, st: State)
    requires ValidProblem(p) && ValidState(p, st) && it > 0
    requires Iterate(p, it, st).Continue?
    ensures var next := Iterate(p, it, st).state;
      forall i :: 0 <= i < |p.y| ==> Dot(next.B[i], Sub(next.beta, st.betaOld)) == st.r[i] - next.r[i]
  {
    var next := Iterate(p, it, st).state;
    SecantEquation(st.B, Sub(st.r, next.r), Sub(next.beta, st.betaOld));
  }

  /** Every run from iteration `it` on ends with an outcome it explains. */
  lemma {:induction false} LoopExplained(p: Problem, it: nat, st: State)
    requires ValidProblem(p) && ValidState(p, st)
    ensures Explained(p, it, st, Loop(p, it, st))
    decreases p.maxIts - it
  {
    if it < p.maxIts {
      match Iterate(p, it, st)
      case Stop(o) => StopExplained(p, it, st);
      case Continue(next) =>
        LoopExplained(p, it + 1, next);
        ContinueExplained(p, it, st);
    }
  }

  /** The loop's outcome after an iteration that stops. */
  lemma StopExplained(p: Problem, it: nat, st: State)
    requires ValidProblem(p) && ValidState(p, st) && it < p.maxIts
    requires Iterate(p, it, st).Stop?
    ensures Explained(p, it, st, Loop(p, it, st))
  {
    IterateExplained(p, it, st);
    assert Loop(p, it, st) == Iterate(p, it, st).outcome;
  }

  /** The loop's outcome after an iteration that goes on. */
  lemma ContinueExplained(p: Problem, it: nat, st: State)
    requires ValidProblem(p) && ValidState(p, st) && it < p.maxIts
    requires Iterate(p, it, st).Continue?
    requires Explained(p, it + 1, Iterate(p, it, st).state, Loop(p, it + 1, Iterate(p, it, st).state))
    ensures Explained(p, it, st, Loop(p, it, st))
  {
    var o := Loop(p, it + 1, Iterate(p, it, st).state);
    ExplainedLifts(p, it, st, o);
    assert Loop(p, it, st) == o;
  }

  /** The two guards: no tags comes first, and no validation points is only
      reported when there are tags. Every other outcome is explained. */
  lemma RunExplained(y: Vector, tags: seq<Guess>, evaluate: Evaluator, solve: Solver,
                     maxIts: int, tol: real, weight: Vector, scale: Vector)
    requires EvaluatorShape(evaluate, |y|) && SolverShape(solve)
    ensures Run(y, tags, evaluate, solve, maxIts, tol, weight, scale) == NoTags <==> |tags| == 0
    ensures Run(y, tags, evaluate, solve, maxIts, tol, weight, scale) == NoPoints <==> |tags| > 0 && |y| == 0
    ensures |tags| > 0 && |y| > 0 ==>
      Explained(Problem(y, tags, evaluate, solve, maxIts, tol, Defaulted(weight, |y|), Defaulted(scale, |tags|)),
                0, Initial(Problem(y, tags, evaluate, solve, maxIts, tol, Defaulted(weight, |y|), Defaulted(scale, |tags|))),
                Run(y, tags, evaluate, solve, maxIts, tol, weight, scale))
  {
    if |tags| > 0 && |y| > 0 {
      var p := Problem(y, tags, evaluate, solve, maxIts, tol, Defaulted(weight, |y|), Defaulted(scale, |tags|));
      LoopExplained(p, 0, Initial(p));
    }
  }

  /** A converged run returns coefficients at which the functional was
      evaluated, whose relative residual norm is below the tolerance, after
      between one and `maxIts` iterations. */
  lemma ConvergedIsGenuine(y: Vector, tags: seq<Guess>, evaluate: Evaluator, solve: Solver,
                           maxIts: int, tol: real, weight: Vector, scale: Vector,
                           c: Vector, k: nat, norm: real)
    requires EvaluatorShape(evaluate, |y|) && SolverShape(solve)
    requires Run(y, tags, evaluate, solve, maxIts, tol, weight, scale) == Converged(c, k, norm)
    ensures 1 <= k <= maxIts && norm < tol && 0.0 <= norm
    ensures NonZero(y) && evaluate(c).Some? && |evaluate(c).value| == |y|
    ensures norm == SumSquares(RelativeResidual(evaluate(c).value, y))
  {
    RunExplained(y, tags, evaluate, solve, maxIts, tol, weight, scale);
    SumSquaresZeroIff(RelativeResidual(evaluate(c).value, y));
  }

  /** The solver is first consulted after the `n` bootstrap iterations. */
  lemma SolverFailsOnlyAfterBootstrap(y: Vector, tags: seq<Guess>, evaluate: Evaluator, solve: Solver,
                                      maxIts: int, tol: real, weight: Vector, scale: Vector, k: nat)
    requires EvaluatorShape(evaluate, |y|) && SolverShape(solve)
    requires Run(y, tags, evaluate, solve, maxIts, tol, weight, scale) == SolverFailed(k)
    ensures |tags| + 1 <= k < maxIts
  {
    RunExplained(y, tags, evaluate, solve, maxIts, tol, weight, scale);
  }

  /** A failing first evaluation ends the run at once, without a retry. */
  lemma InitialFailureMeansFirstGuessFails(y: Vector, tags: seq<Guess>, evaluate: Evaluator, solve: Solver,
                                           maxIts: int, tol: real, weight: Vector, scale: Vector)
    requires EvaluatorShape(evaluate, |y|) && SolverShape(solve)
    requires Run(y, tags, evaluate, solve, maxIts, tol, weight, scale) == InitialEvaluationFailed
    ensures evaluate(Mul(Firsts(tags), Defaulted(scale, |tags|))).None?
  {
    RunExplained(y, tags, evaluate, solve, maxIts, tol, weight, scale);
  }

  /** When the first guesses already reproduce every validation value, the
      run converges in its first iteration with norm zero. */
  lemma {:induction false} ExactFirstGuessConverges(y: Vector, tags: seq<Guess>, evaluate: Evaluator, solve: Solver,
                                                    maxIts: int, tol: real, weight: Vector, scale: Vector)
    requires EvaluatorShape(evaluate, |y|) && SolverShape(solve)
    requires |tags| > 0 && |y| > 0 && NonZero(y) && NonZero(Defaulted(scale, |tags|))
    requires maxIts >= 1 && tol > 0.0
    requires evaluate(Mul(Firsts(tags), Defaulted(scale, |tags|))) == Some(y)
    ensures Run(y, tags, evaluate, solve, maxIts, tol, weight, scale)
         == Converged(Mul(Firsts(tags), Defaulted(scale, |tags|)), 1, 0.0)
  {
    var p := Problem(y, tags, evaluate, solve, maxIts, tol, Defaulted(weight, |y|), Defaulted(scale, |tags|));
    var point := Mul(Firsts(tags), p.scale);
    ScaleRoundTrip(point, p.scale);
    RelativeNormZeroIff(y, y);
    assert Iterate(p, 0, Initial(p)) == Stop(Converged(point, 1, 0.0));
  }

  /** The bootstrap iterations move exactly one coefficient each, to a value
      different from its first guess. */
  lemma BootstrapMovesOneCoefficient(p: Problem, it: nat, st: State)
    requires ValidProblem(p) && ValidState(p, st)
    requires 1 <= it <= |p.tags| && st.beta[it - 1] == p.tags[it - 1].first
    ensures Candidate(p, it, st).Some?
    ensures Candidate(p, it, st).value[it - 1] != st.beta[it - 1]
    ensures forall j :: 0 <= j < |p.tags| && j != it - 1 ==> Candidate(p, it, st).value[j] == st.beta[j]
  {
  }

  /** The retry evaluates `0.999 * betaOld + 0.001 * beta * scale`, where
      `betaOld` is unscaled: after unscaling, the old coefficients enter
      divided by the scale. */
  lemma RetryMixesScales(betaOld: Vector, beta: Vector, scale: Vector)
    requires |betaOld| == |beta| == |scale| && NonZero(scale)
    ensures forall j :: 0 <= j < |beta| ==>
      Div(Retry(betaOld, Mul(beta, scale)), scale)[j] == 0.999 * betaOld[j] / scale[j] + 0.001 * beta[j]
  {
    forall j | 0 <= j < |beta|
      ensures Div(Retry(betaOld, Mul(beta, scale)), scale)[j] == 0.999 * betaOld[j] / scale[j] + 0.001 * beta[j]
    {
      var s := scale[j];
      assert (0.999 * betaOld[j] + 0.001 * (beta[j] * s)) / s == 0.999 * betaOld[j] / s + 0.001 * beta[j];
    }
  }
}
