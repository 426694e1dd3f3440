# Optima in Dafny

Optima fits the unknown coefficients of a thermodynamic data file to
validation data. The data file names each unknown coefficient by a tag
`<name>`. Optima replaces the tags by trial values, runs Thermochimica on the
validation points, and compares the computed values with the reference
values. This project models the core of two generations of the program,
over `real`:

- **The optimizers.** Both `LevenbergMarquardtBroyden` drivers
  (python/optima.py, and the older optima.py) are modelled. Each starts from
  a Broyden matrix of ones and updates it with the rank-one secant update
  (`broydenUpdate`). Each step solves the damped normal equations
  (`directionVector`). The older step is clamped to 100 times the previous
  change.
  - The newer driver tries the second guesses one coefficient at a time,
    scales the coefficients, and measures the relative residual.
  - The older driver takes all second guesses at once and measures the
    absolute residual.
  - Both retry once at `0.999 * betaOld + 0.001 * beta` after a failed
    evaluation.
  - The bound checks of the two `Bayesian` optimizers are modelled too.
- **Around the optimizers.**
  - the nested-dictionary tools of python/dictTools.py
  - the tag extraction and the tag tables of both `TagWindow`s
  - the row rules of both `PointValidationWindow`s
  - the stores of validation points: merged dictionary and temperature
    filter in the older program, rekeyed validation sets in the newer one
  - the Run settings
  - the element-name parser for ChemSage data files
  - the set-up that `run` does before calling the optimizer
  - the set-up of the phase-transition search (python/findTransition.py)

The black-box functional (Thermochimica) is a parameter `evaluate`. It returns
`None` where the source raises `OptimaException`. The least-squares solver
`np.linalg.lstsq` is a parameter `solve`. It returns `None` where the source
catches `LinAlgError`. Both carry only a shape contract.

The source drivers return `None` on every path and report through the
console. The model returns an `Outcome` that names the exit taken:
- `NoTags`, `NoPoints`: the two guards;
- `InitialEvaluationFailed`, `EvaluationFailed(k)`, `SolverFailed(k)`: the
  failures;
- `Converged(coefficients, iterations, norm)`: the norm fell below the
  tolerance;
- `Exhausted`: the iteration budget ran out;
- `NonFinite(k)`: where numpy would start computing with inf or NaN.

Three quirks of the newer driver are kept as written:
- The retry mixes the scaled `beta` with the unscaled `betaOld`
  (`OptimizerProperties.RetryMixesScales` states the resulting point).
- The relative residual divides by `abs(y)` without a guard.
- The run returns nothing.

Each imperative routine of the source is a `method` over an array, a
sequence or the fields of a class. Its `ensures` ties it to a specification
function, and lemmas prove the properties of those functions. The lemmas
cover:
- the secant equation;
- the symmetric damped normal matrix;
- the clamp bound;
- the flatten and key-path order of the dictionary tools;
- the row rules;
- rekeying and merging;
- the settings rules;
- normalisation and bounds;
- what every outcome of a run means.

## Model

| member | source | states |
|---|---|---|
| Optimizer.Alternating | python/optima.py:47-49 | `(-1)**i * (7i+1)` is never 0, positive exactly for even `i`, and of magnitude `7i+1` |
| Optimizer.BootstrapValue | python/optima.py:45-55 | the second value tried for a coefficient always differs from its first guess, and is the second guess whenever the two guesses differ |
| Optimizer.Damping | python/optima.py:58 | in refinement iterations `l = 1/(iteration+1-n)^2` lies in (0, 1/4] |
| Optimizer.DampingDecreases | python/optima.py:58 | the damping strictly decreases from one refinement iteration to the next |
| Optimizer.Defaulted | python/optima.py:16-20 | `weight`/`scale` are kept when their length fits and replaced by ones otherwise |
| Optimizer.Candidate | python/optima.py:38-64 | iteration 0 uses the first guesses; bootstrap iteration `k` (1..n) changes only coefficient `k-1`, to its bootstrap value; a refinement iteration (after n) takes the damped, weighted step from `beta` with `l = 1/(iteration+1-n)^2` and step length 1, so only it can fail, exactly when the solver fails on its system |
| Optimizer.Attempt | python/optima.py:66-79 | the evaluation fails exactly when `functional` fails at `beta*scale` and, except in iteration 0, also at the retry point; when the functional succeeds at `beta*scale` the trial is that point with its values, and otherwise a success is made (after iteration 0) at the retry point, with the values the functional gives there |
| Optimizer.Measure | python/optima.py:80-107 | a zero in `scale` or `y` stops as non-finite; a relative residual norm below `tol` stops as converged at the evaluated point, after `iteration + 1` iterations, with that norm; with nonzero `scale` and `y`, a norm at least `tol` and, after iteration 0, a nonzero step, the iteration goes on; the new state then has `beta*scale` equal to the evaluated point, `betaOld == beta`, `r` the scaled residual of its values, and the Broyden matrix is unchanged in iteration 0 and afterwards is the update with `t = rOld - r` and the nonzero step `s = beta - betaOld`; a non-finite stop with nonzero `scale` and `y` means a zero step after iteration 0 |
| Optimizer.Iterate | python/optima.py:37-107 | it stops with `SolverFailed(iteration)` exactly when there is no candidate; with `InitialEvaluationFailed` exactly when iteration 0 cannot evaluate the scaled first guesses; with `EvaluationFailed(iteration)` exactly when a later candidate and its retry cannot be evaluated; after an evaluation it ends as `Measure` of the trial. An iteration that goes on evaluated the functional at the scaled candidate or, after iteration 0 and only when that failed, at its retry point; the new `beta` times `scale` is that point, `r` is the scaled residual of the functional there, whose relative norm is at least `tol`, `betaOld == beta`, and the Broyden matrix is unchanged in iteration 0 and afterwards is the update with the nonzero step from the old `betaOld` |
| Optimizer.Initial | python/optima.py:30-35 | the start state (first guesses, matrix of ones) is well shaped |
| Optimizer.AllOnes | python/optima.py:31 | `np.ones([m,n])`: an m×n matrix of ones |
| Optimizer.ChooseCandidate | python/optima.py:38-64 | the "Get beta" block on the array computes `Candidate` |
| Optimizer.Evaluate | python/optima.py:66-79 | the evaluation with its one retry computes `Attempt` |
| Optimizer.Advance | python/optima.py:37-107 | one pass of the loop over the Broyden array, updated in place, is `Iterate` on the old matrix |
| Optimizer.LevenbergMarquardtBroyden | python/optima.py:11-109 | the driver with its in-place Broyden array ends with exactly the outcome `Run` specifies |
| OptimizerProperties.ContinueSatisfiesSecant | python/optima.py:98-103 | after each update (iteration 1 on) the Broyden matrix maps the step just taken onto the change of the residual it caused: row by row, `B·s = rOld - r` |
| OptimizerProperties.IterateExplained | python/optima.py:37-107 | an iteration that stops explains its outcome from its own state: `EvaluationFailed(k)` means the functional fails at the scaled candidate and at its retry, `SolverFailed(k)` that the solver fails on iteration `k`'s damped, weighted normal equations, `NonFinite(k)` that the evaluated point meets a zero in `scale` or `y`, or a zero step short of convergence after iteration 0, and `Converged` names an evaluated point whose relative norm is below `tol` |
| OptimizerProperties.LoopExplained | python/optima.py:37-109 | every run of the loop from iteration `it` at state `st` ends with an outcome that holds of a state it reached: a failure or a non-finite stop in iteration `k` holds of the state reached at `k` after every earlier iteration went on, as for `IterateExplained`, and `Exhausted` means every iteration up to `maxIts` went on, each with relative norm at least `tol` |
| OptimizerProperties.RunExplained | python/optima.py:11-109 | `NoTags` exactly when there are no tags, `NoPoints` exactly when there are tags but no validation values, and every other outcome holds of the run from the initial state as for `LoopExplained` |
| OptimizerProperties.ConvergedIsGenuine | python/optima.py:82-96 | a converged run names coefficients at which the functional succeeds, with norm = sum of squared relative residuals, `0 <= norm < tol`, after 1..maxIts iterations, and with no zero reference value |
| OptimizerProperties.SolverFailsOnlyAfterBootstrap | python/optima.py:56-64 | the solver can fail only in iterations n+1 .. maxIts-1 |
| OptimizerProperties.InitialFailureMeansFirstGuessFails | python/optima.py:69-73 | `InitialEvaluationFailed` means the functional failed at the scaled first guesses (no retry in iteration 0) |
| OptimizerProperties.ExactFirstGuessConverges | python/optima.py:39-96 | if the scaled first guesses reproduce `y` exactly, the run converges after one iteration with norm 0 |
| OptimizerProperties.BootstrapMovesOneCoefficient | python/optima.py:42-55 | a bootstrap iteration moves exactly one coefficient, to a value different from its first guess |
| OptimizerProperties.RetryMixesScales | python/optima.py:68-80 | after unscaling, the retry point is `0.999*betaOld/scale + 0.001*beta`: the old coefficients enter divided by the scale |
| Outcomes.Firsts | python/optima.py:34 | the vector of first guesses, in tag order |
| Outcomes.Seconds | python/optima.py:35 | the vector of second guesses, in tag order |
| Outcomes.Retry | python/optima.py:75 | the retry point has one entry per coefficient (where it lies is `Outcomes.RetryOnSegment`) |
| Outcomes.RetryOnSegment | python/optima.py:75 | the retry point lies a thousandth of the way from `betaOld` to `beta` |
| Norms.FunctionalNorm | python/optima.py:112-116 | the accumulated norm is the sum of squares (the same loop is optima.py:98-102), is non-negative, and is 0 exactly when every residual is 0 |
| Norms.ScaledResidual | python/optima.py:83 | `rscale*(f-y)/abs(y)` has one entry per reference value (what it measures is `Norms.RescaleCancels`) |
| Norms.RelativeResidual | python/optima.py:83-84 | entry `i` is 0 exactly when `f[i] == y[i]` |
| Norms.RescaleCancels | python/optima.py:82-84 | dividing out `rscale` from `rscale*(f-y)/abs(y)` gives the relative residual exactly |
| Norms.RelativeNormZeroIff | python/optima.py:82-84 | the newer norm is non-negative and is 0 exactly when `f == y` |
| Norms.AbsoluteNormZeroIff | optima.py:67-75 | the older norm of `f - y` is non-negative and is 0 exactly when `f == y` |
| Broyden.SecantEquation | python/optima.py:119-141 | with `sTs != 0`, every row of the updated matrix maps `s` exactly onto `t` (B·s = t); the older update, optima.py:105-127, is the same |
| Broyden.ZeroStepColumnUnchanged | python/optima.py:139-141 | a column whose step component is 0 is unchanged by the update |
| Broyden.SecantFixedPoint | python/optima.py:134-141 | a matrix that already maps `s` onto `t` is left unchanged |
| Broyden.Product | python/optima.py:123-127 | the column-by-column accumulation gives `update[i] = B[i]·s` |
| Broyden.AddRankOne | python/optima.py:138-141 | the in-place loop adds `u[i]*s[j]` to every entry (i,j): the array becomes `B + u sᵀ` |
| Broyden.BroydenUpdate | python/optima.py:119-141 | the array after `broydenUpdate` is `B + ((t - B s)/sTs) sᵀ` of the array before |
| NormalEquations.NormalMatrixSymmetric | python/optima.py:151-164 | `BᵀWB + lI` is symmetric and carries `l` once on each diagonal entry |
| NormalEquations.UnitWeightsGram | optima.py:137-144 | with unit weights, as in the older code, each entry is the plain inner product of two columns |
| NormalEquations.WeightedColumnProduct | python/optima.py:155-156 | the `k` loop gives `Σk B[k][i]·B[k][j]·w[k]` |
| NormalEquations.GramMatrix | python/optima.py:151-158 | the triangular fill with the symmetric copy gives every entry `a[p][q] = Σk B[k][p]·B[k][q]·w[k]`, both halves |
| NormalEquations.ColumnProduct | python/optima.py:161-163 | `b[j] = Σi B[i][j]·r[i]`, unweighted |
| NormalEquations.BuildSystem | python/optima.py:148-164 | the loops build exactly `a = BᵀWB + lI` and `b = Bᵀr` (the weights do not touch `b`) |
| NormalEquations.Direction | python/optima.py:166-176 | fails exactly when the solver fails on (a, b); otherwise `betaNew[j] = beta[j] + steplength·x[j]` with n entries |
| NormalEquations.DirectionVector | python/optima.py:144-176 | the newer `directionVector` on the Broyden array computes `Direction` |
| NormalEquations.Clamp | optima.py:157-160 | the clamped component is at most `100·abs(lastChange)` in size, keeps its sign, is never larger than the original, is untouched when within the limit, and is not zeroed when `lastChange != 0` |
| NormalEquations.ClampFormula | optima.py:158-159 | where the clamp applies and `lastChange != 0`, `Clamp` is the source's `100·x/(abs(x)/abs(lastChange))` |
| NormalEquations.LegacyDirection | optima.py:152-164 | the older step fails exactly when the solver fails on the unweighted system, and otherwise has n entries, entry `j` being `beta[j] + steplength·Clamp(x[j], lastChange[j])` for the solver's solution `x` |
| NormalEquations.LegacyStepBounded | optima.py:157-160 | each coefficient moves by at most `abs(steplength)·100·abs(lastChange[j])` |
| NormalEquations.LegacyDirectionVector | optima.py:130-164 | the older `directionVector`, clamping `x[j]` before use, computes `LegacyDirection` |
| LegacyOptimizer.SecondValue | optima.py:46-51 | the second guess of a coefficient differs from its first guess, and is the given second value when the two differ |
| LegacyOptimizer.SecondGuess | optima.py:44-51 | all second guesses at once: every coefficient differs from its first guess |
| LegacyOptimizer.LegacyDamping | optima.py:87 | `l = 1/(iteration+1)^2` lies in (0, 1] |
| LegacyOptimizer.LegacyAttempt | optima.py:56-63 | fails exactly when the functional fails at `beta` and at the retry point; when the functional succeeds at `beta` the trial is `beta` with its values, and only otherwise the retry point |
| LegacyOptimizer.LegacyIterate | optima.py:53-93 | it stops with `EvaluationFailed(iteration)` exactly when the functional fails at `beta` and at the retry point; after an evaluation, `r = f - y` with norm below `tol` stops as converged at the evaluated point after `iteration + 1` iterations with that norm, a zero step from the old `betaOld` stops as non-finite, and otherwise it stops with `SolverFailed(iteration)` exactly when the older direction on the updated matrix fails and goes on exactly when it succeeds. An iteration that goes on evaluated `beta` or, only when that failed, the retry point, which becomes the new `betaOld`; the Broyden matrix is the update with `t = rOld - r` and the nonzero step `s`, and the new `beta` is the older direction from the evaluated point with damping `1/(iteration+1)^2`, step length 1 and `lastChange = s` |
| LegacyOptimizer.LegacyAdvance | optima.py:53-93 | one loop pass on the Broyden array, updated in place, is `LegacyIterate` on the old matrix |
| LegacyOptimizer.LegacyLevenbergMarquardtBroyden | optima.py:10-95 | the older driver ends with exactly the outcome `LegacyRun` specifies |
| LegacyProperties.LegacyContinueSatisfiesSecant | optima.py:65-85 | after each update the Broyden matrix maps the step just taken onto the change of the residual it caused: row by row, `B·s = rOld - r` |
| LegacyProperties.LegacyIterateExplained | optima.py:53-93 | an iteration that stops explains its outcome from its own state: `EvaluationFailed(k)` means the functional fails at `beta` and at the retry point, `SolverFailed(k)` that, after an evaluation short of convergence and a nonzero step, the solver fails on the damped, unweighted normal equations of the updated matrix, `NonFinite(k)` a zero step short of convergence, and `Converged` names an evaluated point with `sum((f - y)^2) < tol` |
| LegacyProperties.LegacyLoopExplained | optima.py:53-95 | every run of the older loop from iteration `it` at state `st` ends with an outcome that holds of a state it reached: a failure or a non-finite stop in iteration `k` holds of the state reached at `k` after every earlier iteration went on, as for `LegacyIterateExplained`, and `Exhausted` means every iteration up to `maxIts` went on, each with norm at least `tol` |
| LegacyProperties.FirstStepNonZero | optima.py:44-66 | when every second guess differs from its first guess, every component of the first step is nonzero, at `beta` or at the retry point, so `sTs > 0` |
| LegacyProperties.FirstUpdateIsFinite | optima.py:44-85 | the first Broyden update of the older driver never divides by a zero `sTs` |
| LegacyProperties.LegacyRunExplained | optima.py:10-95 | the guards, `InitialEvaluationFailed` exactly when the first evaluation fails, every other outcome holding of the loop from the second guesses as for `LegacyLoopExplained`, and a zero step never in the first iteration |
| Bayesian.Repaired | python/optima.py:202-218 | the repaired bounds are legal (low < high), legal bounds are kept, reversed bounds swapped, equal bounds keep their lower bound |
| Bayesian.RepairIdempotent | python/optima.py:202-218 | a second repair changes nothing |
| Bayesian.EqualBoundsWidened | python/optima.py:211-218 | equal bounds get upper bound 7 at 0, twice the bound above 0, and 0 below 0 |
| Bayesian.RepairBounds | python/optima.py:202-218 | the in-place loop leaves every tag repaired and legal |
| Bayesian.CheckBounds | optima.py:187-191 | the older `Bayesian` goes on exactly when every tag has low < high |
| DictTools.Find | python/dictTools.py:9 | `measured[key]` succeeds exactly when `key` is a key of the dictionary |
| DictTools.FindOwnKey | python/dictTools.py:7-9 | in a dictionary without repeated keys, each entry's key finds that entry |
| DictTools.CoversItself | python/dictTools.py:1-3 | a dictionary has all of its own keys at every level, so pairing it with itself never fails a lookup |
| DictTools.Extend | python/dictTools.py:20-23 | the first key has no prefix; later keys are joined with ": " |
| DictTools.ParallelFollowsPaths | python/dictTools.py:4-12 | the k-th appended value is `measured` at the key path of the k-th leaf of `validation` (depth first, insertion order) |
| DictTools.KeyStringsFollowPaths | python/dictTools.py:15-26 | the k-th appended string is the k-th leaf's key path joined with ": " onto `activeString` |
| DictTools.ParallelWithItselfFlattens | python/dictTools.py:4-12 | with `measured` = `validation`, the appended values are exactly the leaves in order |
| DictTools.OnePerLeaf | python/dictTools.py:4-26 | both functions append exactly one item per leaf, so values and key strings line up |
| DictTools.GetParallelDictValues | python/dictTools.py:4-12 | the caller's list comes back with the parallel values appended, its old contents kept |
| DictTools.ParallelEntries | python/dictTools.py:7-9 | the loop over the keys appends the parts of the children in key order |
| DictTools.GetDictKeyString | python/dictTools.py:15-26 | the caller's list comes back with the key strings appended, its old contents kept |
| DictTools.KeyStringEntries | python/dictTools.py:18-23 | the loop over the keys appends each child's strings, with the key added to the prefix |
| DictTools.RootCases | python/dictTools.py:16-26 | a non-dictionary root appends `activeString` unchanged; an empty dictionary appends nothing |
| OrderedDicts.PutFacts | thermoOptima.py:275-278 | `d[k] = v` keeps the keys distinct, maps `k` to `v`, keeps every other key's value, and adds `k` last only when new |
| OrderedDicts.PutExisting | python/findTransition.py:100-102 | writing a key already present replaces its entry where it stands |
| OrderedDicts.UpdateFresh | thermoOptima.py:279 | `d.update(e)` with keys new to `d` appends `e` |
| OrderedDicts.UpdateKeeps | thermoOptima.py:279 | a key `e` does not mention keeps its value through `d.update(e)` |
| Tags.Next | python/dataThermoOptima.py:30 | the scan stops at or after `from`, at the end of the line or on the character sought |
| Tags.NextFirst | python/dataThermoOptima.py:30 | no occurrence of the character stands between `from` and where the scan stops, so the scan finds the first one |
| Tags.Matches | python/dataThermoOptima.py:30 | no match of `<([^>]*)>` contains `>` |
| Tags.MatchesFirst | python/dataThermoOptima.py:30 | when the first `<` from `from` on is at `i` and the first `>` after it at `j`, the matches are the text between them followed by the matches from `j + 1` on (what `re.findall` does: the leftmost match, then a search after it) |
| Tags.SomeMatchIff | python/dataThermoOptima.py:30-33 | a line has a match exactly when a `<` in it is followed somewhere later by a `>`, so no tag is missed and a line without such a pair reports none |
| Tags.MatchesEnclosed | python/dataThermoOptima.py:30 | every match stands between a `<` and the first `>` after it |
| Tags.NoOpenNoTags | python/dataThermoOptima.py:30 | a line without `<` has no tags |
| Tags.DedupFacts | python/dataThermoOptima.py:34 | `dict.fromkeys` dedup: no repeats, the same tags, in order of first occurrence |
| Tags.ExtractTags | python/dataThermoOptima.py:27-30 | the line loop collects the matches of every line, in order |
| Tags.UniqueTags | python/dataThermoOptima.py:34 | the insertion loop computes the dedup |
| TagWindows.Updated | python/dataThermoOptima.py:76-88 | fields are stored in the order value 1, value 2, optimize, scale; a blank keeps the stored value; the first unparseable number stops the update there |
| TagWindows.BlankUpdateKeeps | python/dataThermoOptima.py:78-84 | blank fields and an unchanged flag leave the settings as they are |
| TagWindows.UpdateEntry | python/dataThermoOptima.py:77-88 | the field-by-field writes compute `Updated` |
| TagWindows.TagWindow.constructor | python/dataThermoOptima.py:23-38 | one entry per distinct tag, in order of first appearance, each at initial [0,0], optimize True, scale 1.0; the first tag is selected |
| TagWindows.TagWindow.Update | python/dataThermoOptima.py:76-88 | only the selected tag's entry changes, to `Updated` of its old value |
| TagWindows.TagWindow.Select | python/dataThermoOptima.py:89-91 | choosing a tag selects it and changes nothing else |
| TagWindows.TagWindow.Reset | python/dataThermoOptima.py:92-96 | 'Reset to Defaults' restores exactly the defaults of the selected tag |
| TagWindows.ValueOrZero | optimaData.py:74-81 | a blank value means 0, a number is itself, anything else fails |
| TagWindows.ParsedPrefix | optimaData.py:72-85 | the rows before the first unparseable row all parse |
| TagWindows.StoredRows | optimaData.py:72-85 | storing the first `k` parsed rows adds exactly their tags to the table's keys |
| TagWindows.StoredRowsContents | optimaData.py:72-85 | after Accept, each stored row is in its own tag as `[[v1, v2], opt]`; every other tag keeps its entry |
| TagWindows.LegacyTagWindow.constructor | optimaData.py:22-35 | every distinct tag maps to `[[0,0], True]`, and `valid` starts False |
| TagWindows.LegacyTagWindow.Accept | optimaData.py:71-87 | rows are stored up to the first failure; `valid` becomes True only when every row parses, and otherwise stays as it was |
| ValidationRows.ValidEntry | python/dataThermoOptima.py:193-208 | `''` gives (0, 1); a parseable v >= 0 gives (v, 0); a negative or unparseable entry gives (0, -1) (the same as optimaData.py:191-206) |
| ValidationRows.LargestBounds | python/dataThermoOptima.py:153 | `max` is an item and no item exceeds it |
| ValidationRows.LargestPositive | python/dataThermoOptima.py:153 | `max(c) > 0` exactly when some concentration is positive |
| ValidationRows.FirstState | python/dataThermoOptima.py:141-156 | an accepted first row gives a state of temperature, pressure and one concentration per element (its rule is `FirstRowRule`) |
| ValidationRows.LaterConcentrations | python/dataThermoOptima.py:173-180 | the concentrations of a later row, when valid, have one entry per element (their values are `ConcentrationsOfRow`) |
| ValidationRows.LaterState | python/dataThermoOptima.py:157-184 | an accepted later row gives a state of the same shape (its rules are `BlankInherits` and `InvalidConcentrationRefuses`) |
| ValidationRows.States | python/dataThermoOptima.py:137-184 | accepted rows give one state per row (`StaysRefused` and `StatesPhysical` state the rest) |
| ValidationRows.FirstRowRule | python/dataThermoOptima.py:141-155 | row 0 is accepted exactly when temp parses and is >= 300, pres parses and is > 0, and some concentration parses and is > 0 |
| ValidationRows.BlankInherits | python/dataThermoOptima.py:157-180 | in later rows a blank temperature, pressure or concentration repeats the row before (the first element of that name); parsed concentrations are taken as given |
| ValidationRows.InvalidConcentrationRefuses | python/dataThermoOptima.py:174-177 | an invalid concentration in any later row refuses the whole Accept |
| ValidationRows.StaysRefused | python/dataThermoOptima.py:157-184 | once a row is refused, every longer run of rows is refused |
| ValidationRows.FirstStatePhysical | python/dataThermoOptima.py:141-156 | an accepted row 0 has T >= 300, P > 0, non-negative concentrations and one positive |
| ValidationRows.LaterStatePhysical | python/dataThermoOptima.py:157-184 | an accepted later row following a physical row is physical |
| ValidationRows.StatesPhysical | python/dataThermoOptima.py:137-184 | every recorded state is physical |
| ValidationRows.ConcentrationsOfRow | python/dataThermoOptima.py:173-180 | with no invalid field, the concentrations are the parsed or inherited values |
| ValidationRows.AcceptRows | python/dataThermoOptima.py:137-184 | the Accept loop, carrying `lastTemp`/`lastPres`/`lastConcentrations`, computes the states of all rows, or fails exactly when `States` does |
| ValidationRows.NextRow | python/dataThermoOptima.py:157-184 | one later row either refuses the Accept or appends its state to those before |
| ValidationRows.LaterRow | python/dataThermoOptima.py:158-180 | the body of the row loop computes `LaterState` from the previous row's values |
| ValidationRows.Numbered | python/dataThermoOptima.py:156-184 | points are keyed `startIndex + i`, one per state, in order |
| PointWindows.NewPointSetFacts | python/dataThermoOptima.py:138-140 | the new set is of type 'point' and holds the states under keys 0..n-1 in order |
| PointWindows.NumberedFrom | python/dataThermoOptima.py:156-184 | the entries from row `from` on are keyed `from, from+1, ...` and hold those rows' states |
| PointWindows.Accept | python/dataThermoOptima.py:137-184 | Accept yields the point set exactly when every row is accepted |
| PointWindows.AcceptedPoints | optimaData.py:119-168 | every recorded point is physical, one per row, keyed `startIndex + i` |
| PointWindows.WithGibbs | optimaData.py:178-187 | points are produced exactly when every Gibbs field parses, each with its row's state and its Gibbs energy |
| PointWindows.GibbsPoints | optimaData.py:179-186 | the Gibbs loop's `valid` holds exactly when every field parses |
| PointWindows.LegacyPointWindow.constructor | optimaData.py:90-98 | the window holds the number of points, the elements and the shared point dictionary it was given |
| PointWindows.LegacyPointWindow.Accept | optimaData.py:118-190 | the shared dictionary gains the accepted points, keyed from the next free index, only when every row and every Gibbs energy is valid; otherwise it is unchanged |
| ValidationStore.NextIndex | optimaData.py:119-122 | with increasing keys, the next index is above every key present |
| ValidationStore.RekeyedFacts | thermoOptima.py:272-278 | rekeyed points keep their order and get consecutive keys from `startIndex` on |
| ValidationStore.MergeAppends | thermoOptima.py:279 | merging points keyed from the next free index appends them: no stored point changes, and keys stay increasing |
| ValidationStore.PointStore.constructor | thermoOptima.py:131 | the store starts empty |
| ValidationStore.PointStore.Merge | optimaData.py:189 | `points.update(newpoints)` appends the points keyed from the next free index |
| ValidationStore.PointStore.LoadValidation | thermoOptima.py:258-282 | loaded points, whatever their keys, are rekeyed from the next free index (0 when empty) and appended; an empty file changes nothing |
| ValidationStore.ListedExactly | thermoOptima.py:397-403 | a key is listed exactly when its temperature lies between `tlo` and `thi` |
| ValidationStore.ListedKeys | thermoOptima.py:397-403 | every listed key is a stored key |
| ValidationStore.UnfilteredListsAll | thermoOptima.py:327-329 | with bounds -inf and +inf every point is listed, in order |
| ValidationStore.EditDataWindow.constructor | thermoOptima.py:297-329 | the window opens unfiltered and lists every point |
| ValidationStore.EditDataWindow.GetData | thermoOptima.py:397-404 | the list is exactly the points with `tlo <= T <= thi`, in order |
| ValidationStore.EditDataWindow.ApplyFilter | thermoOptima.py:359-374 | a blank bound is infinite; an unparseable bound ends the event (after the lower bound may already have been taken); the list is rebuilt only when both bounds were read |
| ValidationStore.RenumberedFacts | python/thermoOptima.py:419-427 | renumbering keeps the values in order, numbers the non-'type' entries consecutively and keeps 'type' |
| ValidationStore.RekeyedSetFacts | python/thermoOptima.py:417-430 | a rekeyed set holds the loaded points numbered 0..k-1 and always has 'type', which is 'point' unless one was loaded |
| ValidationStore.LoadedSetsFacts | python/thermoOptima.py:413-434 | one set is appended per non-empty loaded set, each rekeyed and with a 'type' |
| ValidationStore.ValidationSets.constructor | python/thermoOptima.py:181 | the list of validation sets starts empty |
| ValidationStore.ValidationSets.LoadValidation | python/thermoOptima.py:401-434 | a single dictionary is wrapped in a list; each non-empty set, rekeyed, is appended; empty sets are skipped |
| ValidationStore.Rekey | python/thermoOptima.py:417-430 | the pop-and-rekey loop computes the rekeyed set |
| RunSettings.TolRule | python/thermoOptima.py:253-263 | blank resets to 1e-4, positive is taken, non-positive keeps the old value, unparseable stops the Run; a positive tolerance stays positive |
| RunSettings.MaxItsRule | python/thermoOptima.py:264-283 | the same rule for the iterations, with default 30 |
| RunSettings.AcquisitionLabels | python/thermoOptima.py:316-321 | each of the three labels maps to ucb/ei/poi, and only that label does |
| RunSettings.AtLeastInt | python/thermoOptima.py:286-291 | a count is taken exactly when it parses and reaches its lower limit |
| RunSettings.PositiveReal | python/thermoOptima.py:292-309 | a real is taken exactly when it parses, is positive and, for eta and kappa_decay, at most 1 |
| RunSettings.ReadExtra | python/thermoOptima.py:285-321 | every extra parameter present is in range |
| RunSettings.NoKeywordsRule | python/thermoOptima.py:285-321 | `extraParams` is empty exactly when no Bayesian field holds a value in range and the acquisition list shows none of its three labels |
| RunSettings.DefaultChoiceKeyword | python/thermoOptima.py:316-321 | with the acquisition list at 'Upper Confidence Bounds', its default (python/thermoOptima.py:172), `extraParams` holds `'acq'` and so is never empty |
| RunSettings.ReadExtraTakesValid | python/thermoOptima.py:285-315 | every value in range is taken, and nothing is kept from an earlier Run |
| RunSettings.ReadExtraParams | python/thermoOptima.py:285-321 | the field-by-field reading computes `ReadExtra` |
| RunSettings.ReadAcquisition | python/thermoOptima.py:316-321 | the acquisition choice computes `AcquisitionFor` |
| RunSettings.Settings.constructor | python/thermoOptima.py:144-145 | starts with tol 1e-4, maxIts 30, no extra parameters, LMB selected |
| RunSettings.Settings.ReadRun | python/thermoOptima.py:252-322 | tolerance, then the iteration field of the chosen method, then the extra parameters; a field that stops the event leaves what was read before it read, and nothing after |
| RunSettings.LegacySettings.constructor | thermoOptima.py:84-85 | starts with tol 1e-4 and maxIts 30 |
| RunSettings.LegacySettings.ReadRun | thermoOptima.py:188-211 | the tolerance and iteration rules of the older window, stopping at an unparseable field |
| Database.Slice | python/thermoOptima.py:469 | `s[lo:hi]` is cut back to the length and is empty past the end |
| Database.Strip | python/thermoOptima.py:469 | a stripped name neither starts nor ends with whitespace |
| Database.StripIsPiece | python/thermoOptima.py:469 | `strip` removes only surrounding whitespace: the result is a piece of the field |
| Database.StripIdempotent | python/thermoOptima.py:469 | stripping twice is stripping once |
| Database.LineCount | python/thermoOptima.py:467 | `ceil(nElements/3)` lines, none for nElements <= 0 |
| Database.Fields | python/thermoOptima.py:468-469 | three names per line |
| Database.FirstNamesLine | python/thermoOptima.py:461-464 | the names start at the first line that holds a letter |
| Database.Names | python/thermoOptima.py:466-471 | three names per line over the name lines |
| Database.NamesAt | python/thermoOptima.py:467-470 | names 3i..3i+2 are the three fields of name line i |
| Database.Known | python/thermoOptima.py:472-479 | the names kept are exactly those read that are element symbols |
| Database.Without | python/thermoOptima.py:479 | the filter keeps exactly the names other than `el` |
| Database.WithoutUnknown | python/thermoOptima.py:472-479 | removing an unknown name does not change which known names are kept |
| Database.KnownOfKnown | python/thermoOptima.py:472-479 | a list of known names is kept whole |
| Database.ElementNamesFacts | python/thermoOptima.py:456-479 | every name kept is a symbol read from the name lines, and every symbol read is kept (the same parser is thermoOptima.py:88-112 and python/findTransition.py:40-68) |
| Database.ParseNames | python/thermoOptima.py:456-479 | the reading loops and the filter compute `ElementNames` |
| Database.SkipToNames | python/thermoOptima.py:461-464 | the skip loop stops at the first line with a letter |
| Database.ReadNames | python/thermoOptima.py:466-471 | the nested loops read `Names` |
| Database.LineNames | python/thermoOptima.py:468-469 | the inner loop reads the three fields |
| Database.DropUnknown | python/thermoOptima.py:472-479 | filtering each unknown name out of the current list keeps exactly the known names, in order |
| Database.ParseDatabase | python/thermoOptima.py:451-479 | `parseDatabase` with the periodic table computes `ElementNames` |
| Transitions.TagNames | python/findTransition.py:89-90 | 'temperature' first, then the composition keys in order |
| Transitions.GuessBrackets | python/findTransition.py:92-93 | a positive target lies strictly between its guesses `0.999x` and `1.001x` |
| Transitions.SetupTags | python/findTransition.py:89-102 | with distinct element keys, the tags are 'temperature' and the elements in order, each with guesses `0.999x` and `1.001x` of its target |
| Transitions.Normalised | python/findTransition.py:99-100 | normalisation keeps the keys and their order |
| Transitions.NormalisedSumsToOne | python/findTransition.py:95-100 | with a non-zero total the normalised composition sums to 1 |
| Transitions.TotalBoundsParts | python/findTransition.py:96-98 | non-negative amounts have a total no smaller than any one of them |
| Transitions.Bounds | python/findTransition.py:104-110 | one bound for the temperature, then one per element |
| Transitions.CompositionBoundLegal | python/findTransition.py:107-110 | for `0 <= c <= 1` the bound `[max(c-0.1, 1e-6), min(c+0.1, 1)]` is a proper interval in [1e-6, 1] |
| Transitions.BoundsLegal | python/findTransition.py:96-110 | with non-negative amounts and a positive total, every concentration lies in [0, 1] and every bound, the temperature's `[T-30, T+30]` included, has low < high |
| Transitions.AddTargetsFacts | python/findTransition.py:113-117 | every transition phase gets target 0, no phase appears twice, and other phases keep their targets |
| Transitions.PhaseTreeLeaves | python/findTransition.py:114 | the leaves of a tree of phases are their driving forces in order |
| Transitions.ValidationValues | python/findTransition.py:123-130 | the values validated against are the solution phases' driving forces, then the pure condensed phases' |
| Transitions.ValuesTreeWellFormed | python/findTransition.py:28 | the validation tree has no repeated key, so pairing it with itself succeeds |
| Transitions.CompositionLine | python/findTransition.py:79-86 | the line is `beta[0] 1`, then for each element `beta[1+index]` if it is in the composition and 0 otherwise |
| Transitions.LineUsesOwnTag | python/findTransition.py:82-90 | the coefficient an element's entry takes is the one of the tag named after that element |
| Transitions.TransitionFinder.constructor | python/findTransition.py:7-35 | tol 1e-10, maxIts 300, no target temperature (the default `[]`), empty composition, targets and phase lists |
| Transitions.TransitionFinder.FindTransition | python/findTransition.py:87-130 | the set-up before the optimizer call: tags, total, normalised composition, bounds, targets and pairs; it fails exactly when no target temperature was set (multiplying the default `[]` raises; only the tag names and the zero tags are set by then) or when the composition is non-empty with total 0 (the division by zero; only the tags and the total are set by then) |
| Transitions.TransitionFinder.StartTags | python/findTransition.py:89-98 | tag names, zero tags with the temperature guesses, and the total; without a target temperature only the names and the zero tags |
| Transitions.TransitionFinder.NormaliseComposition | python/findTransition.py:99-102 | each amount is divided by the total and its tag gets the guesses around it |
| Transitions.TransitionFinder.SetUpValidation | python/findTransition.py:104-130 | the bounds, the targets of the transition phases and the values validated against |
| Transitions.Validation | python/findTransition.py:113-130 | targets are added and the pairs are the driving forces of both kinds of phase |
| Transitions.InitialTags | python/findTransition.py:89-93 | the tag names and the zero tags, with the temperature guesses when there is a temperature |
| Transitions.Normalise | python/findTransition.py:99-102 | the normalising loop computes `Normalised` and writes each tag's guesses |
| Transitions.Sum | python/findTransition.py:96-98 | the loop computes the total |
| Transitions.BoundsOf | python/findTransition.py:105-110 | the loop builds `Bounds` |
| Transitions.Targets | python/findTransition.py:113-117 | the loop writes `AddTargets` |
| RunSetup.Intertags | python/thermoOptima.py:130-138 | every entry of `tagCheck` is an optimised tag with its guess |
| RunSetup.IntermediateSplit | python/thermoOptima.py:133-137 | every tag goes exactly one way: optimised with its guess into `tagCheck`, constant with its first value into the data file |
| RunSetup.IntertagsDistinct | python/thermoOptima.py:132-138 | `tagCheck` has no repeated tag when the table has none |
| RunSetup.IntertagsAsDict | python/thermoOptima.py:138 | `dict(tagCheck)` is `tagCheck` itself |
| RunSetup.CreateIntermediateDat | python/thermoOptima.py:130-138 | the loop returns the optimised tags in table order with their guesses, and the substitutions in order (the older version is thermoOptima.py:72-80) |
| RunSetup.NoEntriesIffAllEmpty | python/thermoOptima.py:331-336 | the first guard stops exactly when every set is empty |
| RunSetup.SetPairsAreLeaves | python/thermoOptima.py:352-359 | the pairs of a set are its measured leaves, one by one, in order |
| RunSetup.PairsAreLeaves | python/thermoOptima.py:348-365 | `validationPairs` are the measured leaves of every 'point' set, in order |
| RunSetup.CollectSetPairs | python/thermoOptima.py:352-359 | the per-set loop appends the set's pairs |
| RunSetup.CollectEntryPairs | python/thermoOptima.py:353-358 | 'type' is skipped and a point's values are paired with themselves |
| RunSetup.CollectPairs | python/thermoOptima.py:348-365 | the loop over the sets computes `AllPairs` |
| RunSetup.Observations | python/thermoOptima.py:370-377 | `y` and `weight` have one entry per pair: a list gives (pair[0], pair[1]), a number gives (value, 1); they fail exactly when some pair cannot be read |
| RunSetup.UnitWeights | python/thermoOptima.py:370-377 | when every pair is a number, `y` is those numbers and every weight is 1 |
| RunSetup.FillObservations | python/thermoOptima.py:370-377 | the arrays filled in place are `Observations`, or the loop fails exactly when it does |
| RunSetup.ScaleOf | python/thermoOptima.py:379-382 | one scale per optimised tag, in `intertags` order |
| RunSetup.RunShapes | python/thermoOptima.py:366-392 | `weight` and `scale` fit the optimizer, so neither is replaced by ones, and the coefficients start from the optimised tags' guesses |
| RunSetup.Run | python/thermoOptima.py:329-392 | the guards (no set entries, then no tags), a pair that cannot be read (reported with the substitutions already made, since the data file is written first), then the call: it is rejected (after the data file is written) exactly when `extraParams` holds a keyword, which `LevenbergMarquardtBroyden` does not accept; otherwise the substitutions and the outcome of `LevenbergMarquardtBroyden` on `y`, the optimised tags, `weight` and `scale` |
| RunSetup.LegacyRun | thermoOptima.py:218-232 | nothing is done unless the table was accepted and there is a point; then `createIntermediateDat` |

## Left out

- Windows, layouts, event loops and console messages are presentation and are
  not modelled. Each event handler is a method whose inputs are the field
  texts as `Field` values (blank, a parsed number, or text that does not
  parse).
- Files and processes are not modelled: `shutil.copy`, `subprocess`/`sed`,
  JSON load and save, `writeFile`, `updateDat`, `updateInputFile`'s file
  writes, and reading the data file. The `sed` calls of
  `createIntermediateDat` are returned as a list of substitutions. The data
  file is a sequence of lines after the header.
- `getPointValidationValues`, Thermochimica, `propertyOfMixing`, `bayes_opt`,
  `r2_score` and `nestedDictWriter`/`nestedDictDeleter` are foreign or not
  shown. The functional is the parameter `evaluate`, and the Bayesian search
  after the bound check is left out.
- Plots, the test scripts and data.py are not part of this model.
- Floating point is not modelled: rounding, the cancellation of `rscale`, and
  IEEE inf/NaN. Every place where numpy would divide by zero stops the run
  with `NonFinite`: a zero `scale` entry, a zero `y` entry, or a zero step
  `sTs`. The source computes on with inf/NaN there.
- Broyden.BroydenUpdate: requires `sTs != 0`; the source divides by zero
  and fills the matrix with inf/NaN.
- NormalEquations.Clamp: for `lastChange == 0` the source divides `abs(x)`
  by zero and then `100·x` by infinity, which numpy evaluates to 0. `Clamp`
  gives 0 there directly, and `ClampFormula` covers only `lastChange != 0`.
- LegacyOptimizer.LegacyDamping: over `real` the damping is exact, as is
  `1e2`.
- The newer `run` passes `**self.extraParams` to the optimizer
  (python/thermoOptima.py:385-392), and `LevenbergMarquardtBroyden`
  (python/optima.py:11) takes no keyword beyond `weight` and `scale`. The
  dictionary always holds `'acq'` while the acquisition list shows one of
  its labels, as it does by default, so the call raises `TypeError` before
  any iteration. `RunSetup.Run` returns `KeywordRejected` then. Only with an
  empty dictionary does the optimizer run; its result, `None`, is then
  unpacked into three values, which raises `TypeError` after the run.
  `RunSetup.Run` returns the outcome there instead.
- `findTransition` always puts `'bounds'` into its `extraParams`
  (python/findTransition.py:104-110) and passes it to the same optimizer
  (python/findTransition.py:132-139), so that call raises `TypeError`
  before any iteration too. The model of `findTransition` stops before the
  call.
- RunSetup.Run: only the Levenberg-Marquardt + Broyden method is run. The
  Bayesian choice and sets of type 'mixing' are left out; a readable set
  has a 'type' other than 'mixing'.
- RunSetup.LegacyRun: stops after `createIntermediateDat`. The older `run`
  then reads `['values']` of each point, which the older point window never
  stores, so the source raises `KeyError` there.
- The older main window sets `tagWindow.valid = True` right after opening
  the tag window (thermoOptima.py:134). `LegacyRun` takes `valid` as a
  parameter.
- Database.ParseDatabase: requires a line holding a letter after the header.
  The source loops forever on a file without one. `int()` parsing of the
  header counts is left out (`nElements` is a parameter), and so is the
  early return for an empty file name.
- Database.Strip and Database.IsAlpha are ASCII only. Strip removes the
  ASCII whitespace of `str.strip` (blank, `\t`, `\n`, `\r`, `\x0b`,
  `\x0c` and `\x1c` to `\x1f`); the non-ASCII whitespace and letters of
  Unicode are not modelled.
- ValidationRows.FirstState: requires at least one element, since
  `max([])` raises `ValueError` in the source.
- TagWindows.TagWindow.Update: the source writes the entry back after each
  field. The model writes once, with the same final state. The `optimize`
  radio value is a plain `bool`.
- TagWindows.TagWindow.constructor and TagWindows.LegacyTagWindow.constructor:
  require at least one tag. With none, the source calls `close()`, which
  reads `self.children` before it is assigned and so raises
  `AttributeError` (python/dataThermoOptima.py:31-41, optimaData.py:31-40).
- `EditDataWindow`'s Edit Point and Delete Point, the `ReferenceValueWindow`
  that follows the newer point window, and the Clear and Save buttons are
  not modelled.
- Integer widths are not an issue here: Python integers are unbounded, and
  the model's `int` is too. Truncation by numpy integer arrays
  (`np.array` of int guesses) is not modelled; every guess is a `real`.
- OptimizerProperties.RetryMixesScales states the retry point as written
  (python/optima.py:75). It is not corrected.
