/** What `run` does before and around the call to the optimiser: the two
    guards, `createIntermediateDat` (which tags are optimised and which are
    written into the data file as constants), the validation pairs, the `y`
    and `weight` arrays and the `scale` list. The newer program is
    python/thermoOptima.py, the older one thermoOptima.py. */
module RunSetup {
  import opened Common
  import opened OrderedDicts
  import opened DictTools
  import opened Outcomes
  import opened NormalEquations
  import opened Vectors
  import opened ValidationStore
  import opened TagWindows
  import opened RunSettings
  import Optimizer

  // ---------------------------------------------------------------------
  // createIntermediateDat

  /** What `createIntermediateDat` reads of one tag: its initial guess and
      whether it is optimised (`tags[tag]['initial']` and
      `tags[tag]['optimize']`, or `tags[tag][0]` and `tags[tag][1]` in the
      older table). */
  datatype TagRow = TagRow(initial: Guess, optimize: bool)

  /** The items of the newer tag table, in the window's order. */
  function TableRows(tags: seq<string>, settings: map<string, TagSettings>): (rows: seq<(string, TagRow)>)
    requires forall t :: t in tags ==> t in settings
    ensures forall p :: p in rows ==> p.0 in settings
  {
    seq(|tags|, i requires 0 <= i < |tags| => (tags[i], TagRow(settings[tags[i]].initial, settings[tags[i]].optimize)))
  }

  /** The items of the older tag table, in the window's order. */
  function LegacyTableRows(tags: seq<string>, entries: map<string, LegacyTag>): seq<(string, TagRow)>
    requires forall t :: t in tags ==> t in entries
  {
    seq(|tags|, i requires 0 <= i < |tags| => (tags[i], TagRow(entries[tags[i]].values, entries[tags[i]].optimize)))
  }

  /** `tagCheck`: the optimised tags with their initial guesses, in table
      order. */
  function Intertags(rows: seq<(string, TagRow)>): (r: seq<(string, Guess)>)
    ensures forall p :: p in r ==> (p.0, TagRow(p.1, true)) in rows
    decreases |rows|
  {
    if |rows| == 0 then []
    else
      var (t, row) := rows[|rows| - 1];
      Intertags(rows[..|rows| - 1]) + if row.optimize then [(t, row.initial)] else []
  }

  /** The `sed` substitutions, in the order they are made: each tag that is
      not optimised is replaced in the data file by the first value of its
      initial guess. */
  function Substitutions(rows: seq<(string, TagRow)>): seq<(string, real)>
    decreases |rows|
  {
    if |rows| == 0 then []
    else
      var (t, row) := rows[|rows| - 1];
      Substitutions(rows[..|rows| - 1]) + if row.optimize then [] else [(t, row.initial.first)]
  }

  /** Every tag goes exactly one way: the optimised ones, with their guesses,
      into `tagCheck`, the others, with the first value of their guesses,
      into the data file; no tag is lost or invented. */
  lemma {:induction false} IntermediateSplit(rows: seq<(string, TagRow)>)
    ensures |Intertags(rows)| + |Substitutions(rows)| == |rows|
    ensures forall t, g :: (t, g) in Intertags(rows) <==> (t, TagRow(g, true)) in rows
    ensures forall t, x :: (t, x) in Substitutions(rows) <==> exists g2 :: (t, TagRow(Guess(x, g2), false)) in rows
    decreases |rows|
  {
    if |rows| > 0 {
      var front := rows[..|rows| - 1];
      var (t, row) := rows[|rows| - 1];
      IntermediateSplit(front);
      assert rows == front + [(t, row)];
      assert row == TagRow(Guess(row.initial.first, row.initial.second), row.optimize);
    }
  }

  /** `tagCheck` has no repeated tag when the table has none. */
  lemma {:induction false} IntertagsDistinct(rows: seq<(string, TagRow)>)
    requires Distinct(KeysOf(rows))
    ensures Distinct(KeysOf(Intertags(rows)))
    decreases |rows|
  {
    if |rows| > 0 {
      var front := rows[..|rows| - 1];
      var (t, row) := rows[|rows| - 1];
      assert KeysOf(front) == KeysOf(rows)[..|rows| - 1];
      IntertagsDistinct(front);
      if row.optimize {
        var ks := KeysOf(Intertags(front));
        forall k | 0 <= k < |ks| ensures ks[k] != t {
          var p := Intertags(front)[k];
          assert p in Intertags(front);
          assert (p.0, TagRow(p.1, true)) in front;
          var j :| 0 <= j < |front| && front[j] == (p.0, TagRow(p.1, true));
          assert KeysOf(rows)[j] == p.0 && KeysOf(rows)[|rows| - 1] == t;
        }
        assert KeysOf(Intertags(rows)) == ks + [t];
      }
    }
  }

  /** `dict(tagCheck)` is `tagCheck` itself when the table has no repeated
      tag. */
  lemma IntertagsAsDict(rows: seq<(string, TagRow)>)
    requires Distinct(KeysOf(rows))
    ensures Update([], Intertags(rows)) == Intertags(rows)
  {
    IntertagsDistinct(rows);
    UpdateFresh([], Intertags(rows));
  }

  /** `createIntermediateDat(tags, filename)`: the copy of the data file and
      the `sed` calls are the returned substitutions; the result is
      `dict(tagCheck)`. */
  method CreateIntermediateDat(rows: seq<(string, TagRow)>)
    returns (intertags: seq<(string, Guess)>, substitutions: seq<(string, real)>)
    requires Distinct(KeysOf(rows))
    ensures intertags == Intertags(rows)
    ensures substitutions == Substitutions(rows)
  {
    var tagCheck := [];
    substitutions := [];
    for i := 0 to |rows|
      invariant tagCheck == Intertags(rows[..i])
      invariant substitutions == Substitutions(rows[..i])
    {
      assert rows[..i + 1][..i] == rows[..i];
      var (tag, row) := rows[i];
      if row.optimize {
        tagCheck := tagCheck + [(tag, row.initial)];
      } else {
        substitutions := substitutions + [(tag, row.initial.first)];
      }
    }
    assert rows[..|rows|] == rows;
    IntertagsAsDict(rows);
    intertags := Update([], tagCheck);
  }

  // ---------------------------------------------------------------------
  // Validation pairs

  /** A measured value in a validation point: a number, or a list whose
      first two items are the value and its weight. */
  datatype Measured = Number(v: real) | Listed(items: seq<real>)

  /** A point of a validation set as the run reads it: its `'values'`
      dictionary. */
  datatype PointRecord = PointRecord(values: Tree<Measured>)

  type ValidationSet = seq<(SetKey, SetValue<PointRecord>)>

  /** `np.sum([len(points) for points in self.validationPoints])`: the
      `'type'` entry of a set counts too. */
  function EntryCount(sets: seq<ValidationSet>): nat
    decreases |sets|
  {
    if |sets| == 0 then 0 else EntryCount(sets[..|sets| - 1]) + |sets[|sets| - 1]|
  }

  /** The first guard of `run` stops exactly when every set is empty. */
  lemma {:induction false} NoEntriesIffAllEmpty(sets: seq<ValidationSet>)
    ensures EntryCount(sets) == 0 <==> forall i :: 0 <= i < |sets| ==> |sets[i]| == 0
    decreases |sets|
  {
    if |sets| > 0 {
      var front := sets[..|sets| - 1];
      NoEntriesIffAllEmpty(front);
      assert forall i :: 0 <= i < |front| ==> front[i] == sets[i];
    }
  }

  /** Every entry except `'type'` is a point whose `'values'` is a
      dictionary without repeated keys. */
  predicate PointEntries(s: ValidationSet) {
    forall i :: 0 <= i < |s| && s[i].0 != TypeKey ==> s[i].1.Member? && WellFormed(s[i].1.point.values)
  }

  /** What the pair loop of `run` reads of a set without raising: a
      `'type'` entry holding a name other than `'mixing'`, and, in a set of
      type `'point'`, points in every other entry. */
  predicate Readable(s: ValidationSet) {
    && TypeKey in KeysOf(s)
    && Get(s, TypeKey).value.Kind?
    && Get(s, TypeKey).value.name != "mixing"
    && (Get(s, TypeKey).value.name == "point" ==> PointEntries(s))
  }

  /** The pairs one entry contributes: none for `'type'`, otherwise
      `getParallelDictValues(values, values, calcValues)`. */
  function EntryPairs(e: (SetKey, SetValue<PointRecord>)): seq<Tree<Measured>>
    requires e.0 != TypeKey ==> e.1.Member? && WellFormed(e.1.point.values)
  {
    if e.0 == TypeKey then []
    else
      var v := e.1.point.values;
      CoversItself(v);
      Parallel(v, v)
  }

  /** The pairs of the first `n` entries of a set. */
  function PairsUpTo(s: ValidationSet, n: nat): seq<Tree<Measured>>
    requires PointEntries(s) && n <= |s|
    decreases n
  {
    if n == 0 then [] else PairsUpTo(s, n - 1) + EntryPairs(s[n - 1])
  }

  function SetPairs(s: ValidationSet): seq<Tree<Measured>>
    requires PointEntries(s)
  {
    PairsUpTo(s, |s|)
  }

  /** `validationPairs`: the pairs of every set of type `'point'`, set after
      set; sets of any other type contribute nothing. */
  function AllPairs(sets: seq<ValidationSet>): seq<Tree<Measured>>
    requires forall i :: 0 <= i < |sets| ==> Readable(sets[i])
    decreases |sets|
  {
    if |sets| == 0 then []
    else
      var s := sets[|sets| - 1];
      assert Readable(s);
      AllPairs(sets[..|sets| - 1]) + if Get(s, TypeKey).value.name == "point" then SetPairs(s) else []
  }

  /** The measured leaves of the points of a set, in order. */
  function SetLeaves(s: ValidationSet): seq<Measured>
    requires PointEntries(s)
  {
    LeavesUpTo(s, |s|)
  }

  /** The measured leaves of the first `n` entries of a set. */
  function LeavesUpTo(s: ValidationSet, n: nat): seq<Measured>
    requires PointEntries(s) && n <= |s|
    decreases n
  {
    if n == 0 then []
    else LeavesUpTo(s, n - 1) + if s[n - 1].0 == TypeKey then [] else Leaves(s[n - 1].1.point.values)
  }

  /** The measured leaves of every set of type `'point'`, in order. */
  function AllLeaves(sets: seq<ValidationSet>): seq<Measured>
    requires forall i :: 0 <= i < |sets| ==> Readable(sets[i])
    decreases |sets|
  {
    if |sets| == 0 then []
    else
      var s := sets[|sets| - 1];
      assert Readable(s);
      AllLeaves(sets[..|sets| - 1]) + if Get(s, TypeKey).value.name == "point" then SetLeaves(s) else []
  }

  /** `pairs` is `leaves` with each item wrapped as a leaf. */
  predicate LeavesOf(pairs: seq<Tree<Measured>>, leaves: seq<Measured>) {
    |pairs| == |leaves| && forall k :: 0 <= k < |pairs| ==> pairs[k] == Leaf(leaves[k])
  }

  lemma LeavesOfAppend(a: seq<Tree<Measured>>, la: seq<Measured>, b: seq<Tree<Measured>>, lb: seq<Measured>)
    requires LeavesOf(a, la) && LeavesOf(b, lb)
    ensures LeavesOf(a + b, la + lb)
  {
  }

  /** Pairing each `'values'` dictionary with itself flattens it: the
      validation pairs are the measured leaves, one by one and in order. */
  lemma {:induction false} SetPairsAreLeaves(s: ValidationSet, n: nat)
    requires PointEntries(s) && n <= |s|
    ensures LeavesOf(PairsUpTo(s, n), LeavesUpTo(s, n))
    decreases n
  {
    if n > 0 {
      SetPairsAreLeaves(s, n - 1);
      var e := s[n - 1];
      if e.0 != TypeKey {
        ParallelWithItselfFlattens(e.1.point.values);
        LeavesOfAppend(PairsUpTo(s, n - 1), LeavesUpTo(s, n - 1), EntryPairs(e), Leaves(e.1.point.values));
      } else {
        assert PairsUpTo(s, n) == PairsUpTo(s, n - 1);
        assert LeavesUpTo(s, n) == LeavesUpTo(s, n - 1);
      }
    }
  }

  lemma {:induction false} PairsAreLeaves(sets: seq<ValidationSet>)
    requires forall i :: 0 <= i < |sets| ==> Readable(sets[i])
    ensures LeavesOf(AllPairs(sets), AllLeaves(sets))
    decreases |sets|
  {
    if |sets| > 0 {
      var front := sets[..|sets| - 1];
      PairsAreLeaves(front);
      var s := sets[|sets| - 1];
      if Get(s, TypeKey).value.name == "point" {
        SetPairsAreLeaves(s, |s|);
        LeavesOfAppend(AllPairs(front), AllLeaves(front), SetPairs(s), SetLeaves(s));
      } else {
        assert AllPairs(sets) == AllPairs(front);
        assert AllLeaves(sets) == AllLeaves(front);
      }
    }
  }

  /** The pairs of one set, as the `for i in range(len(points))` loop
      collects them. */
  method CollectSetPairs(s: ValidationSet, pairs: seq<Tree<Measured>>) returns (extended: seq<Tree<Measured>>)
    requires PointEntries(s)
    ensures extended == pairs + SetPairs(s)
  {
    extended := pairs;
    for i := 0 to |s|
      invariant extended == pairs + PairsUpTo(s, i)
    {
      var calcValues := CollectEntryPairs(s[i]);
      assert PairsUpTo(s, i + 1) == PairsUpTo(s, i) + calcValues;
      AppendAssoc(pairs, PairsUpTo(s, i), calcValues);
      extended := extended + calcValues;
    }
  }


  /** The body of that loop: `'type'` is skipped, a point's `'values'` is
      paired with itself. */
  method CollectEntryPairs(e: (SetKey, SetValue<PointRecord>)) returns (calcValues: seq<Tree<Measured>>)
    requires e.0 != TypeKey ==> e.1.Member? && WellFormed(e.1.point.values)
    ensures calcValues == EntryPairs(e)
  {
    calcValues := [];
    if e.0 != TypeKey {
      var values := e.1.point.values;
      CoversItself(values);
      calcValues := GetParallelDictValues(values, values, []);
    }
  }

  /** The `for points in self.validationPoints` loop. */
  method CollectPairs(sets: seq<ValidationSet>) returns (validationPairs: seq<Tree<Measured>>)
    requires forall i :: 0 <= i < |sets| ==> Readable(sets[i])
    ensures validationPairs == AllPairs(sets)
  {
    validationPairs := [];
    for i := 0 to |sets|
      invariant validationPairs == AllPairs(sets[..i])
    {
      assert sets[..i + 1][..i] == sets[..i];
      if Get(sets[i], TypeKey).value.name == "point" {
        validationPairs := CollectSetPairs(sets[i], validationPairs);
      }
    }
    assert sets[..|sets|] == sets;
  }

  // ---------------------------------------------------------------------
  // y and weight

  /** What one pair puts into `y` and `weight`: a list its first two items,
      a number itself with weight 1. A list with fewer than two items raises
      `IndexError`, and a dictionary cannot be stored in `y`: `None`. */
  function PairEntry(pair: Tree<Measured>): Option<(real, real)> {
    match pair
    case Leaf(Number(v)) => Some((v, 1.0))
    case Leaf(Listed(items)) => if |items| >= 2 then Some((items[0], items[1])) else None
    case Node(_) => None
  }

  /** `y` and `weight` together, or `None` when some pair cannot be read. */
  function Observations(pairs: seq<Tree<Measured>>): (r: Option<(seq<real>, seq<real>)>)
    ensures r.Some? <==> forall i :: 0 <= i < |pairs| ==> PairEntry(pairs[i]).Some?
    ensures r.Some? ==> |r.value.0| == |pairs| && |r.value.1| == |pairs|
    ensures r.Some? ==> forall i :: 0 <= i < |pairs| ==>
      PairEntry(pairs[i]) == Some((r.value.0[i], r.value.1[i]))
    decreases |pairs|
  {
    if |pairs| == 0 then Some(([], []))
    else
      var front := Observations(pairs[..|pairs| - 1]);
      var last := PairEntry(pairs[|pairs| - 1]);
      if front.None? || last.None? then None
      else Some((front.value.0 + [last.value.0], front.value.1 + [last.value.1]))
  }

  /** When every measured value is a plain number, `y` is those numbers and
      every weight stays 1. */
  lemma UnitWeights(pairs: seq<Tree<Measured>>)
    requires forall i :: 0 <= i < |pairs| ==> pairs[i].Leaf? && pairs[i].value.Number?
    ensures Observations(pairs).Some?
    ensures Observations(pairs).value.1 == Ones(|pairs|)
    ensures forall i :: 0 <= i < |pairs| ==> Observations(pairs).value.0[i] == pairs[i].value.v
  {
    assert forall i :: 0 <= i < |pairs| ==> PairEntry(pairs[i]) == Some((pairs[i].value.v, 1.0));
  }

  /** `y = np.zeros(m)`, `weight = np.ones(m)` and the loop that fills them;
      `ok` is false where the loop raises. */
  method FillObservations(pairs: seq<Tree<Measured>>) returns (ok: bool, y: array<real>, weight: array<real>)
    ensures fresh(y) && fresh(weight)
    ensures ok <==> Observations(pairs).Some?
    ensures ok ==> y[..] == Observations(pairs).value.0 && weight[..] == Observations(pairs).value.1
  {
    var m := |pairs|;
    y := new real[m](_ => 0.0);
    weight := new real[m](_ => 1.0);
    for i := 0 to m
      invariant Observations(pairs[..i]).Some?
      invariant y[..i] == Observations(pairs[..i]).value.0
      invariant weight[..i] == Observations(pairs[..i]).value.1
    {
      assert pairs[..i + 1][..i] == pairs[..i];
      var entry := PairEntry(pairs[i]);
      if entry.None? {
        assert !(forall j :: 0 <= j < |pairs| ==> PairEntry(pairs[j]).Some?);
        return false, y, weight;
      }
      y[i] := entry.value.0;
      weight[i] := entry.value.1;
      assert y[..i + 1] == y[..i] + [entry.value.0];
      assert weight[..i + 1] == weight[..i] + [entry.value.1];
    }
    assert pairs[..m] == pairs;
    assert y[..] == y[..m] && weight[..] == weight[..m];
    ok := true;
  }

  // ---------------------------------------------------------------------
  // scale

  /** The scale of each optimised tag, in the order of `intertags`. */
  function Scales(intertags: seq<(string, Guess)>, settings: map<string, TagSettings>): seq<real>
    requires forall p :: p in intertags ==> p.0 in settings
  {
    seq(|intertags|, i requires 0 <= i < |intertags| => assert intertags[i] in intertags; settings[intertags[i].0].scale)
  }

  /** `scale.append(self.tagWindow.tags[tag]['scale'])` for each optimised
      tag. */
  method ScaleOf(intertags: seq<(string, Guess)>, settings: map<string, TagSettings>) returns (scale: seq<real>)
    requires forall p :: p in intertags ==> p.0 in settings
    ensures |scale| == |intertags|
    ensures forall i :: 0 <= i < |intertags| ==> scale[i] == settings[intertags[i].0].scale
    ensures scale == Scales(intertags, settings)
  {
    scale := [];
    for i := 0 to |intertags|
      invariant |scale| == i
      invariant forall j :: 0 <= j < i ==> scale[j] == settings[intertags[j].0].scale
    {
      scale := scale + [settings[intertags[i].0].scale];
    }
  }

  // ---------------------------------------------------------------------
  // run

  datatype RunResult =
    | ValidationMissing     // 'Validation points not completed'
    | CoefficientsMissing   // 'Initial estimates for coefficients not completed'
    | PairUnreadable(substitutions: seq<(string, real)>)
                            // the `y`/`weight` loop raised
    | KeywordRejected(substitutions: seq<(string, real)>)
                            // the call passed a keyword the optimiser lacks
    | Finished(outcome: Outcome, substitutions: seq<(string, real)>)

  /** The optimiser's inputs fit it: `weight` has one entry per pair and
      `scale` one per optimised tag, so neither is replaced by ones, and the
      optimised coefficients start from the guesses of the optimised tags. */
  lemma {:induction false} RunShapes(rows: seq<(string, TagRow)>, pairs: seq<Tree<Measured>>, scale: seq<real>)
    requires Observations(pairs).Some? && |scale| == |Intertags(rows)|
    ensures Optimizer.Defaulted(Observations(pairs).value.1, |Observations(pairs).value.0|) == Observations(pairs).value.1
    ensures Optimizer.Defaulted(scale, |ValuesOf(Intertags(rows))|) == scale
    ensures forall g :: g in ValuesOf(Intertags(rows)) ==> exists t :: (t, TagRow(g, true)) in rows
  {
    IntermediateSplit(rows);
    forall g | g in ValuesOf(Intertags(rows)) ensures exists t :: (t, TagRow(g, true)) in rows {
      var k := IndexOf(ValuesOf(Intertags(rows)), g);
      assert Intertags(rows)[k] in Intertags(rows);
      assert (Intertags(rows)[k].0, TagRow(g, true)) in rows;
    }
  }

  /** `run` of the newer program with the Levenberg-Marquardt + Broyden
      method: the guards, `createIntermediateDat`, the pairs, `y`, `weight`
      and `scale`, then the optimiser. `evaluate` stands for `getValues`,
      which runs Thermochimica. The call also passes `self.extraParams` as
      keywords, which `LevenbergMarquardtBroyden` does not take: unless
      that dictionary is empty, the call raises before any iteration, after
      the data file has been written. */
  method Run(sets: seq<ValidationSet>, tags: seq<string>, settings: map<string, TagSettings>,
             evaluate: Evaluator, solve: Solver, maxIts: int, tol: real, extraParams: ExtraParams)
    returns (r: RunResult)
    requires Distinct(tags) && forall t :: t in tags ==> t in settings
    requires forall i :: 0 <= i < |sets| ==> Readable(sets[i])
    requires EvaluatorShape(evaluate, |AllPairs(sets)|) && SolverShape(solve)
    ensures r == ValidationMissing <==> EntryCount(sets) == 0
    ensures r == CoefficientsMissing <==> EntryCount(sets) != 0 && |tags| == 0
    ensures r.PairUnreadable? <==> EntryCount(sets) != 0 && |tags| != 0 && Observations(AllPairs(sets)).None?
    ensures r.PairUnreadable? ==> r.substitutions == Substitutions(TableRows(tags, settings))
    ensures r.KeywordRejected? <==>
      EntryCount(sets) != 0 && |tags| != 0 && Observations(AllPairs(sets)).Some? && !NoKeywords(extraParams)
    ensures r.KeywordRejected? ==> r.substitutions == Substitutions(TableRows(tags, settings))
    ensures r.Finished? ==>
      var rows := TableRows(tags, settings);
      var obs := Observations(AllPairs(sets)).value;
      && NoKeywords(extraParams)
      && r.substitutions == Substitutions(rows)
      && r.outcome == Optimizer.Run(obs.0, ValuesOf(Intertags(rows)), evaluate, solve, maxIts, tol, obs.1,
                                    Scales(Intertags(rows), settings))
  {
    if EntryCount(sets) == 0 {
      return ValidationMissing;
    }
    if |tags| == 0 {
      return CoefficientsMissing;
    }
    var rows := TableRows(tags, settings);
    assert KeysOf(rows) == tags;
    var intertags, substitutions := CreateIntermediateDat(rows);
    var validationPairs := CollectPairs(sets);
    var ok, y, weight := FillObservations(validationPairs);
    if !ok {
      return PairUnreadable(substitutions);
    }
    var scale := ScaleOf(intertags, settings);
    if !NoKeywords(extraParams) {
      return KeywordRejected(substitutions);
    }
    var outcome := Optimizer.LevenbergMarquardtBroyden(y[..], ValuesOf(intertags), evaluate, solve, maxIts, tol, weight[..], scale);
    r := Finished(outcome, substitutions);
  }

  // ---------------------------------------------------------------------
  // The older run

  datatype LegacyRunResult =
    | NotAccepted           // 'Initial estimates for coefficients not completed'
    | NoValidationPoints    // 'Validation points not completed'
    | Prepared(intertags: seq<(string, Guess)>, substitutions: seq<(string, real)>)

  /** `run` of the older program up to the assembly of `y`: the table must
      have been accepted, there must be a validation point, then
      `createIntermediateDat`. */
  method LegacyRun(valid: bool, points: seq<(int, ValidationPoint)>, tags: seq<string>,
                   entries: map<string, LegacyTag>) returns (r: LegacyRunResult)
    requires Distinct(tags) && forall t :: t in tags ==> t in entries
    ensures r == NotAccepted <==> !valid
    ensures r == NoValidationPoints <==> valid && |points| == 0
    ensures r.Prepared? ==>
      && r.intertags == Intertags(LegacyTableRows(tags, entries))
      && r.substitutions == Substitutions(LegacyTableRows(tags, entries))
  {
    if !valid {
      return NotAccepted;
    }
    if |points| == 0 {
      return NoValidationPoints;
    }
    var rows := LegacyTableRows(tags, entries);
    assert KeysOf(rows) == tags;
    var intertags, substitutions := CreateIntermediateDat(rows);
    r := Prepared(intertags, substitutions);
  }
}
