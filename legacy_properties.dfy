/** What every run of the older driver ends with, proved over the
    specification functions of module `LegacyOptimizer`. */
module LegacyProperties {
  import opened Common
  import opened Vectors
  import opened Norms
  import opened Broyden
  import opened NormalEquations
  import opened Outcomes
  import opened Optimizer
  import opened LegacyOptimizer

  /** `s2` is the state at the start of loop iteration `k` of a run that is
      at `st` at the start of loop iteration `it`: every iteration from `it`
      up to `k` went on (and so, by `LegacyIterate`, had a norm `>= tol`). */
  ghost predicate LegacyReaches(p: LegacyProblem, it: nat, st: State, k: nat, s2: State)
    requires ValidLegacyProblem(p) && ValidLegacyState(p, st)
    decreases k - it
  {
    if it == k then s2 == st
    else
      && it < k && it < p.maxIts && LegacyIterate(p, it, st).Continue?
      && LegacyReaches(p, it + 1, LegacyIterate(p, it, st).state, k, s2)
  }

  /** The functional fails at `beta` and at its retry point. */
  ghost predicate LegacyEvaluationFailsAt(p: LegacyProblem, st: State)
    requires ValidLegacyProblem(p) && ValidLegacyState(p, st)
  {
    p.evaluate(st.beta).None? && p.evaluate(Retry(st.betaOld, st.beta)).None?
  }

  /** Loop iteration `k` from `st` evaluates a point short of convergence,
      takes a nonzero step, and the solver cannot solve the damped,
      unweighted normal equations of the updated Broyden matrix. */
  ghost predicate LegacySolverFailsAt(p: LegacyProblem, k: nat, st: State)
    requires ValidLegacyProblem(p) && ValidLegacyState(p, st)
  {
    && LegacyAttempt(p, st.betaOld, st.beta).Some?
    && var t := LegacyAttempt(p, st.betaOld, st.beta).value;
       var r := Sub(t.values, p.y);
       var s := Sub(t.point, st.betaOld);
       && SumSquares(r) >= p.tol && SumSquares(s) != 0.0
       && var B := BroydenUpdated(st.B, Sub(st.r, r), s);
          p.solve(NormalMatrix(B, Ones(|p.y|), LegacyDamping(k), |p.tags|), RightHandSide(B, r, |p.tags|)).None?
  }

  /** A loop iteration from `st` evaluates a point short of convergence and
      the step from `betaOld` to it has length zero. */
  ghost predicate LegacyNonFiniteAt(p: LegacyProblem, st: State)
    requires ValidLegacyProblem(p) && ValidLegacyState(p, st)
  {
    && LegacyAttempt(p, st.betaOld, st.beta).Some?
    && var t := LegacyAttempt(p, st.betaOld, st.beta).value;
       SumSquares(Sub(t.values, p.y)) >= p.tol && SumSquares(Sub(t.point, st.betaOld)) == 0.0
  }

  /** What an outcome of the loop that is at `st` at the start of loop
      iteration `it` says about that loop. */
  ghost predicate LegacyExplained(p: LegacyProblem, it: nat, st: State, o: Outcome)
    requires ValidLegacyProblem(p) && ValidLegacyState(p, st)
  {
    match o
    case NoTags => false
    case NoPoints => false
    case InitialEvaluationFailed => false
    case EvaluationFailed(k) =>
      && it <= k < p.maxIts
      && exists s2 :: LegacyReaches(p, it, st, k, s2) && ValidLegacyState(p, s2) && LegacyEvaluationFailsAt(p, s2)
    case SolverFailed(k) =>
      && it <= k < p.maxIts
      && exists s2 :: LegacyReaches(p, it, st, k, s2) && ValidLegacyState(p, s2) && LegacySolverFailsAt(p, k, s2)
    case NonFinite(k) =>
      && it <= k < p.maxIts
      && exists s2 :: LegacyReaches(p, it, st, k, s2) && ValidLegacyState(p, s2) && LegacyNonFiniteAt(p, s2)
    case Converged(c, k, norm) =>
      it < k <= p.maxIts && norm < p.tol
      && p.evaluate(c).Some? && norm == SumSquares(Sub(p.evaluate(c).value, p.y))
    case Exhausted =>
      p.maxIts <= it || exists s2 :: LegacyReaches(p, it, st, p.maxIts, s2)
  }

  /** One loop iteration that stops explains its outcome. */
  lemma LegacyIterateExplained(p: LegacyProblem, it: nat, st: State)
    requires ValidLegacyProblem(p) && ValidLegacyState(p, st) && it < p.maxIts
    requires LegacyIterate(p, it, st).Stop?
    ensures LegacyExplained(p, it, st, LegacyIterate(p, it, st).outcome)
  {
    assert LegacyReaches(p, it, st, it, st);
  }

  /** A state reached after an iteration that went on is reached from the
      state before it. */
  lemma LegacyReachesStep(p: LegacyProblem, it: nat, st: State, k: nat, s2: State)
    requires ValidLegacyProblem(p) && ValidLegacyState(p, st) && it < p.maxIts
    requires LegacyIterate(p, it, st).Continue?
    requires LegacyReaches(p, it + 1, LegacyIterate(p, it, st).state, k, s2)
    ensures LegacyReaches(p, it, st, k, s2)
  {
  }

  /** An outcome explained from the state after a loop iteration that went
      on is explained from the state before it. */
  lemma LegacyExplainedLifts(p: LegacyProblem, it: nat, st: State, o: Outcome)
    requires ValidLegacyProblem(p) && ValidLegacyState(p, st) && it < p.maxIts
    requires LegacyIterate(p, it, st).Continue?
    requires LegacyExplained(p, it + 1, LegacyIterate(p, it, st).state, o)
    ensures LegacyExplained(p, it, st, o)
  {
    var next := LegacyIterate(p, it, st).state;
    match o
    case EvaluationFailed(k) =>
      var s2 :| LegacyReaches(p, it + 1, next, k, s2) && ValidLegacyState(p, s2) && LegacyEvaluationFailsAt(p, s2);
      LegacyReachesStep(p, it, st, k, s2);
    case SolverFailed(k) =>
      var s2 :| LegacyReaches(p, it + 1, next, k, s2) && ValidLegacyState(p, s2) && LegacySolverFailsAt(p, k, s2);
      LegacyReachesStep(p, it, st, k, s2);
    case NonFinite(k) =>
      var s2 :| LegacyReaches(p, it + 1, next, k, s2) && ValidLegacyState(p, s2) && LegacyNonFiniteAt(p, s2);
      LegacyReachesStep(p, it, st, k, s2);
    case Exhausted =>
      if p.maxIts <= it + 1 {
        assert LegacyReaches(p, it + 1, next, it + 1, next);
        LegacyReachesStep(p, it, st, p.maxIts, next);
      } else {
        var s2 :| LegacyReaches(p, it + 1, next, p.maxIts, s2);
        LegacyReachesStep(p, it, st, p.maxIts, s2);
      }
    case _ =>
  }

  /** Every loop from iteration `it` on ends with an outcome it explains. */
  lemma {:induction false} LegacyLoopExplained(p: LegacyProblem, it: nat, st: State)
    requires ValidLegacyProblem(p) && ValidLegacyState(p, st)
    ensures LegacyExplained(p, it, st, LegacyLoop(p, it, st))
    decreases p.maxIts - it
  {
    if it < p.maxIts {
      match LegacyIterate(p, it, st)
      case Stop(o) => LegacyIterateExplained(p, it, st);
      case Continue(next) =>
        LegacyLoopExplained(p, it + 1, next);
        LegacyExplainedLifts(p, it, st, LegacyLoop(p, it + 1, next));
    }
  }

  /** After every update the Broyden matrix maps the step just taken to the
      change of the residual it caused: `B s == rOld - r`. */
  lemma LegacyContinueSatisfiesSecant(p: LegacyProblem, it: nat, st: State)
    requires ValidLegacyProblem(p) && ValidLegacyState(p, st)
    requires LegacyIterate(p, it, st).Continue?
    ensures var next := LegacyIterate(p, it, st).state;
      forall i :: 0 <= i < |p.y| ==> Dot(next.B[i], Sub(next.betaOld, st.betaOld)) == st.r[i] - next.r[i]
  {
    var next := LegacyIterate(p, it, st).state;
    SecantEquation(st.B, Sub(st.r, next.r), Sub(next.betaOld, st.betaOld));
  }

  /** Whether the step from `betaOld` lands on `beta` itself or on the retry
      point, every component of the step is nonzero when every component of
      `beta` differs from `betaOld`. */
  lemma FirstStepNonZero(betaOld: Vector, beta: Vector, point: Vector)
    requires |betaOld| == |beta|
    requires forall i :: 0 <= i < |beta| ==> beta[i] != betaOld[i]
    requires point == beta || point == Retry(betaOld, beta)
    ensures forall i :: 0 <= i < |beta| ==> Sub(point, betaOld)[i] != 0.0
    ensures |beta| > 0 ==> SumSquares(Sub(point, betaOld)) > 0.0
  {
    var s := Sub(point, betaOld);
    forall i | 0 <= i < |beta| ensures s[i] != 0.0 {
      if point != beta {
        assert s[i] == 0.001 * (beta[i] - betaOld[i]);
      }
    }
    SumSquaresZeroIff(s);
  }

  /** The first Broyden update always has `sTs > 0`: the second guess moves
      every coefficient, and so does the retry. */
  lemma FirstUpdateIsFinite(p: LegacyProblem, st: State)
    requires ValidLegacyProblem(p) && ValidLegacyState(p, st)
    requires forall i :: 0 <= i < |p.tags| ==> st.beta[i] != st.betaOld[i]
    ensures LegacyIterate(p, 0, st) != Stop(NonFinite(0))
  {
    var trial := LegacyAttempt(p, st.betaOld, st.beta);
    if trial.Some? {
      FirstStepNonZero(st.betaOld, st.beta, trial.value.point);
    }
  }

  /** The guards, and what every other outcome of the older driver says: it
      never reports a zero step in its first iteration. */
  lemma {:induction false} LegacyRunExplained(y: Vector, tags: seq<Guess>, evaluate: Evaluator, solve: Solver,
                                              maxIts: int, tol: real)
    requires EvaluatorShape(evaluate, |y|) && SolverShape(solve)
    ensures LegacyRun(y, tags, evaluate, solve, maxIts, tol) == NoTags <==> |tags| == 0
    ensures LegacyRun(y, tags, evaluate, solve, maxIts, tol) == NoPoints <==> |tags| > 0 && |y| == 0
    ensures LegacyRun(y, tags, evaluate, solve, maxIts, tol) == InitialEvaluationFailed <==>
      |tags| > 0 && |y| > 0 && evaluate(Firsts(tags)).None?
    ensures |tags| > 0 && |y| > 0 && evaluate(Firsts(tags)).Some? ==>
      var st := State(SecondGuess(tags), Firsts(tags), Sub(evaluate(Firsts(tags)).value, y), AllOnes(|y|, |tags|));
      LegacyExplained(LegacyProblem(y, tags, evaluate, solve, maxIts, tol), 0, st, LegacyRun(y, tags, evaluate, solve, maxIts, tol))
    ensures LegacyRun(y, tags, evaluate, solve, maxIts, tol).NonFinite? ==>
      LegacyRun(y, tags, evaluate, solve, maxIts, tol).iteration >= 1
  {
    if |tags| > 0 && |y| > 0 && evaluate(Firsts(tags)).Some? {
      var p := LegacyProblem(y, tags, evaluate, solve, maxIts, tol);
      var f := evaluate(Firsts(tags)).value;
      var st := State(SecondGuess(tags), Firsts(tags), Sub(f, y), AllOnes(|y|, |tags|));
      if 0 < maxIts {
        FirstUpdateIsFinite(p, st);
      }
      LegacyLoopExplained(p, 0, st);
    }
  }
}
