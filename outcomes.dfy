/** What both Levenberg-Marquardt + Broyden drivers take and how each run
    ends. The source returns `None` on every path and reports through the
    console; `Outcome` names the path taken instead. */
module Outcomes {
  import opened Common
  import opened Vectors

  /** `tags[tag]`: the two initial guesses of one coefficient. */
  datatype Guess = Guess(first: real, second: real)

  /** The black-box `functional(tags, beta)`: the computed values for the
      validation points, or `None` where it raises `OptimaException`. */
  type Evaluator = Vector -> Option<Vector>

  /** The evaluator returns one value per validation value. */
  ghost predicate EvaluatorShape(evaluate: Evaluator, m: nat) {
    forall beta :: evaluate(beta).Some? ==> |evaluate(beta).value| == m
  }

  datatype Outcome =
    | NoTags                              // "No tags with unknown values"
    | NoPoints                            // "No validation points"
    | InitialEvaluationFailed             // the first evaluation raised; no retry
    | EvaluationFailed(iteration: nat)    // the evaluation and its damped retry raised
    | SolverFailed(iteration: nat)        // `directionVector` raised
    | NonFinite(iteration: nat)           // numpy would divide by zero here
    | Converged(coefficients: Vector, iterations: nat, norm: real)
    | Exhausted                           // "Reached maximum iterations without converging"

  /** `np.array([float(tags[tag][0]) for tag in tags])`. */
  function Firsts(tags: seq<Guess>): (v: Vector)
    ensures |v| == |tags| && forall i :: 0 <= i < |tags| ==> v[i] == tags[i].first
  {
    seq(|tags|, i requires 0 <= i < |tags| => tags[i].first)
  }

  /** `np.array([float(tags[tag][1]) for tag in tags])`. */
  function Seconds(tags: seq<Guess>): (v: Vector)
    ensures |v| == |tags| && forall i :: 0 <= i < |tags| ==> v[i] == tags[i].second
  {
    seq(|tags|, i requires 0 <= i < |tags| => tags[i].second)
  }

  /** The damped retry after a failed evaluation:
      `0.999 * betaOld + 0.001 * beta`. */
  function Retry(betaOld: Vector, beta: Vector): (v: Vector)
    requires |betaOld| == |beta|
    ensures |v| == |beta|
  {
    AddScaled(Scale(0.999, betaOld), 0.001, beta)
  }

  /** The retry point lies on the segment from `betaOld` to `beta`, a
      thousandth of the way along. */
  lemma RetryOnSegment(betaOld: Vector, beta: Vector)
    requires |betaOld| == |beta|
    ensures forall j :: 0 <= j < |beta| ==>
      Retry(betaOld, beta)[j] == betaOld[j] + 0.001 * (beta[j] - betaOld[j])
  {
  }
}
