/** The set-up of a phase-transition search (python/findTransition.py): the
    target temperature and composition become the tags 'temperature', then
    one per element, each with a guess on both sides of its target; the
    composition is normalised, a box of bounds is built around the target,
    and every transition phase gets the validation target 'driving force' 0.
    The optimizer call that follows is not part of this model. */
module Transitions {
  import opened Common
  import opened OrderedDicts
  import opened DictTools

  /** `tempRange`: the temperature may move this far either way. */
  const TempRange: real := 30.0
  /** `minConcentration`: no included component may vanish. */
  const MinConcentration: real := 0.000001
  /** `concRange`: a concentration may move this far either way. */
  const ConcRange: real := 0.1
  const Tol: real := 0.0000000001
  const MaxIts: int := 300

  /** The tag order: 'temperature', then the elements of the composition. */
  function TagNames(keys: seq<string>): (names: seq<string>)
    ensures |names| == 1 + |keys| && names[0] == "temperature" && names[1..] == keys
  {
    ["temperature"] + keys
  }

  /** The two initial guesses of a tag whose target is `x`. */
  function Guess(x: real): (real, real) {
    (x * 0.999, x * 1.001)
  }

  /** A positive target lies strictly between its two guesses. */
  lemma GuessBrackets(x: real)
    requires x > 0.0
    ensures Guess(x).0 < x < Guess(x).1
  {
  }

  /** `dict([(name, [0, 0]) for name in tagNames])`. */
  function ZeroTags(names: seq<string>): seq<(string, (real, real))> {
    Update([], seq(|names|, i requires 0 <= i < |names| => (names[i], (0.0, 0.0))))
  }

  /** The guesses of the composition tags, written in key order. */
  function PutGuesses(tags: seq<(string, (real, real))>, comp: seq<(string, real)>): seq<(string, (real, real))>
    decreases |comp|
  {
    if |comp| == 0 then tags
    else Put(PutGuesses(tags, comp[..|comp| - 1]), comp[|comp| - 1].0, Guess(comp[|comp| - 1].1))
  }

  /** The tags once the temperature guesses are written. */
  function TemperatureTags(temperature: real, keys: seq<string>): seq<(string, (real, real))> {
    Put(ZeroTags(TagNames(keys)), "temperature", Guess(temperature))
  }

  /** `self.totalMass`. */
  function Total(comp: seq<(string, real)>): real
    decreases |comp|
  {
    if |comp| == 0 then 0.0 else Total(comp[..|comp| - 1]) + comp[|comp| - 1].1
  }

  /** Every amount divided by `total`, the keys unchanged. */
  function Normalised(comp: seq<(string, real)>, total: real): (r: seq<(string, real)>)
    requires |comp| == 0 || total != 0.0
    ensures |r| == |comp| && KeysOf(r) == KeysOf(comp)
  {
    seq(|comp|, i requires 0 <= i < |comp| => (comp[i].0, comp[i].1 / total))
  }

  /** The bounds of one composition tag. */
  function CompositionBound(c: real): (real, real) {
    (Max(c - ConcRange, MinConcentration), Min(c + ConcRange, 1.0))
  }

  /** `extraParams['bounds']`: the temperature bound, then one per element in
      key order. */
  function Bounds(temperature: real, comp: seq<(string, real)>): (bs: seq<(real, real)>)
    ensures |bs| == 1 + |comp|
  {
    [(temperature - TempRange, temperature + TempRange)]
      + seq(|comp|, i requires 0 <= i < |comp| => CompositionBound(comp[i].1))
  }

  /** `for phase in phases: targets[phase] = {'driving force': 0}`. */
  function AddTargets(targets: seq<(string, real)>, phases: seq<string>): seq<(string, real)>
    decreases |phases|
  {
    if |phases| == 0 then targets
    else Put(AddTargets(targets, phases[..|phases| - 1]), phases[|phases| - 1], 0.0)
  }

  /** The phases of one kind with their driving forces, as a dictionary of
      dictionaries `{phase: {'driving force': value}}`. */
  function PhaseTree(targets: seq<(string, real)>): Tree<real> {
    Node(seq(|targets|, i requires 0 <= i < |targets| =>
      Entry(targets[i].0, Node([Entry("driving force", Leaf(targets[i].1))]))))
  }

  /** `validationPoints['0']['values']`. */
  function ValuesTree(solution: seq<(string, real)>, condensed: seq<(string, real)>): Tree<real> {
    Node([Entry("solution phases", PhaseTree(solution)), Entry("pure condensed phases", PhaseTree(condensed))])
  }

  /** The values validated against, one per phase: the solution phases'
      driving forces, then the pure condensed phases'. */
  function DrivingForces(solution: seq<(string, real)>, condensed: seq<(string, real)>): seq<Tree<real>> {
    Map(x => Leaf(x), ValuesOf(solution) + ValuesOf(condensed))
  }

  /** A composition with a non-zero total sums to one once normalised. */
  lemma NormalisedSumsToOne(comp: seq<(string, real)>)
    requires Total(comp) != 0.0
    ensures Total(Normalised(comp, Total(comp))) == 1.0
  {
    ScaledTotal(comp, Total(comp));
    assert Total(comp) / Total(comp) == 1.0;
  }

  lemma {:induction false} ScaledTotal(comp: seq<(string, real)>, total: real)
    requires total != 0.0
    ensures Total(Normalised(comp, total)) == Total(comp) / total
    decreases |comp|
  {
    if |comp| > 0 {
      var front := comp[..|comp| - 1];
      ScaledTotal(front, total);
      assert Normalised(comp, total)[..|comp| - 1] == Normalised(front, total);
      assert Total(comp) / total == Total(front) / total + comp[|comp| - 1].1 / total;
    }
  }

  /** Amounts that are not negative make up a total no smaller than any one
      of them. */
  lemma {:induction false} TotalBoundsParts(comp: seq<(string, real)>)
    requires forall i :: 0 <= i < |comp| ==> comp[i].1 >= 0.0
    ensures Total(comp) >= 0.0
    ensures forall i :: 0 <= i < |comp| ==> comp[i].1 <= Total(comp)
    decreases |comp|
  {
    if |comp| > 0 {
      TotalBoundsParts(comp[..|comp| - 1]);
      assert forall i :: 0 <= i < |comp| - 1 ==> comp[..|comp| - 1][i] == comp[i];
    }
  }

  /** A bound built around a concentration between 0 and 1 is a proper
      interval inside (0, 1]. */
  lemma CompositionBoundLegal(c: real)
    requires 0.0 <= c <= 1.0
    ensures MinConcentration <= CompositionBound(c).0 < CompositionBound(c).1 <= 1.0
  {
  }

  /** When no amount is negative and the total is positive, every normalised
      concentration lies in [0, 1] and every bound is a proper interval. */
  lemma BoundsLegal(temperature: real, comp: seq<(string, real)>)
    requires forall i :: 0 <= i < |comp| ==> comp[i].1 >= 0.0
    requires Total(comp) > 0.0
    ensures forall i :: 0 <= i < |comp| ==> 0.0 <= Normalised(comp, Total(comp))[i].1 <= 1.0
    ensures forall i :: 0 <= i < 1 + |comp| ==>
      Bounds(temperature, Normalised(comp, Total(comp)))[i].0 < Bounds(temperature, Normalised(comp, Total(comp)))[i].1
  {
    TotalBoundsParts(comp);
    var n := Normalised(comp, Total(comp));
    forall i | 0 <= i < |comp| ensures 0.0 <= n[i].1 <= 1.0 {
      assert n[i].1 == comp[i].1 / Total(comp);
      DivideBelow(comp[i].1, Total(comp));
    }
    forall i | 0 <= i < 1 + |comp|
      ensures Bounds(temperature, n)[i].0 < Bounds(temperature, n)[i].1
    {
      if i > 0 {
        CompositionBoundLegal(n[i - 1].1);
      }
    }
  }

  lemma DivideBelow(x: real, total: real)
    requires 0.0 <= x <= total && total > 0.0
    ensures 0.0 <= x / total <= 1.0
  {
  }

  /** The tags with the guesses of the first `n` keys of `comp` written and
      the others still at `[0, 0]`. */
  function Partly(comp: seq<(string, real)>, n: nat): (r: seq<(string, (real, real))>)
    ensures |r| == |comp| && KeysOf(r) == KeysOf(comp)
  {
    seq(|comp|, i requires 0 <= i < |comp| => (comp[i].0, if i < n then Guess(comp[i].1) else (0.0, 0.0)))
  }

  /** Writing the guesses key after key over keys that differ from each
      other and from those of `head` fills them in one by one. */
  lemma {:induction false} GuessesOver(head: seq<(string, (real, real))>, comp: seq<(string, real)>, n: nat)
    requires n <= |comp| && Distinct(KeysOf(head) + KeysOf(comp))
    ensures PutGuesses(head + Partly(comp, 0), comp[..n]) == head + Partly(comp, n)
    decreases n
  {
    if n > 0 {
      var m := n - 1;
      GuessesOver(head, comp, m);
      assert comp[..n][..m] == comp[..m];
      var d := head + Partly(comp, m);
      assert KeysOf(d) == KeysOf(head) + KeysOf(comp);
      PutExisting(d, |head| + m, Guess(comp[m].1));
      assert d[|head| + m := (comp[m].0, Guess(comp[m].1))] == head + Partly(comp, n);
    }
  }

  /** Every key of `comp` with the tag value `[0, 0]`. */
  function ZeroEntries(comp: seq<(string, real)>): (r: seq<(string, (real, real))>)
    ensures |r| == |comp| && KeysOf(r) == KeysOf(comp)
  {
    seq(|comp|, i requires 0 <= i < |comp| => (comp[i].0, (0.0, 0.0)))
  }

  /** Every key of `comp` with the guesses around its amount. */
  function GuessEntries(comp: seq<(string, real)>): (r: seq<(string, (real, real))>)
    ensures |r| == |comp| && KeysOf(r) == KeysOf(comp)
  {
    seq(|comp|, i requires 0 <= i < |comp| => (comp[i].0, Guess(comp[i].1)))
  }

  /** With element keys that differ from each other and from 'temperature',
      the tags are exactly 'temperature' and the elements in that order, each
      with the guesses around its target. */
  lemma SetupTags(temperature: real, comp: seq<(string, real)>)
    requires Distinct(KeysOf(comp)) && "temperature" !in KeysOf(comp)
    ensures PutGuesses(TemperatureTags(temperature, KeysOf(comp)), comp)
      == [("temperature", Guess(temperature))] + GuessEntries(comp)
    ensures KeysOf(PutGuesses(TemperatureTags(temperature, KeysOf(comp)), comp)) == TagNames(KeysOf(comp))
  {
    var head := [("temperature", Guess(temperature))];
    TemperatureFirst(temperature, comp);
    PartlyEnds(comp);
    GuessesOver(head, comp, |comp|);
    assert comp[..|comp|] == comp;
    KeysOfConcat(head, GuessEntries(comp));
  }

  /** The zero tags with the temperature guesses written: 'temperature'
      first, every element after it at `[0, 0]`. */
  lemma TemperatureFirst(temperature: real, comp: seq<(string, real)>)
    requires Distinct(KeysOf(comp)) && "temperature" !in KeysOf(comp)
    ensures TemperatureTags(temperature, KeysOf(comp)) == [("temperature", Guess(temperature))] + ZeroEntries(comp)
    ensures Distinct(KeysOf([("temperature", Guess(temperature))]) + KeysOf(comp))
  {
    FirstWritten("temperature", Guess(temperature), comp);
  }

  /** The same for any first tag `first` that is not a key of `comp`. */
  lemma FirstWritten(first: string, g: (real, real), comp: seq<(string, real)>)
    requires Distinct(KeysOf(comp)) && first !in KeysOf(comp)
    ensures Put(ZeroTags([first] + KeysOf(comp)), first, g) == [(first, g)] + ZeroEntries(comp)
    ensures Distinct(KeysOf([(first, g)]) + KeysOf(comp))
  {
    ZeroTagsFresh(first, comp);
    WriteFirst(first, g, comp);
    assert KeysOf([(first, g)]) == [first];
  }

  /** The zero tags of distinct names are those names at `[0, 0]`. */
  lemma ZeroTagsFresh(first: string, comp: seq<(string, real)>)
    requires Distinct(KeysOf(comp)) && first !in KeysOf(comp)
    ensures ZeroTags([first] + KeysOf(comp)) == [(first, (0.0, 0.0))] + ZeroEntries(comp)
    ensures Distinct([first] + KeysOf(comp))
  {
    var names := [first] + KeysOf(comp);
    var pairs := seq(|names|, i requires 0 <= i < |names| => (names[i], (0.0, 0.0)));
    assert KeysOf(pairs) == names;
    DistinctCons(first, KeysOf(comp));
    UpdateFresh([], pairs);
    assert [] + pairs == pairs;
    ZeroPairs(first, comp);
  }

  lemma ZeroPairs(first: string, comp: seq<(string, real)>)
    ensures var names := [first] + KeysOf(comp);
      seq(|names|, i requires 0 <= i < |names| => (names[i], (0.0, 0.0))) == [(first, (0.0, 0.0))] + ZeroEntries(comp)
  {
  }

  lemma WriteFirst(first: string, g: (real, real), comp: seq<(string, real)>)
    requires Distinct([first] + KeysOf(comp))
    ensures Put([(first, (0.0, 0.0))] + ZeroEntries(comp), first, g) == [(first, g)] + ZeroEntries(comp)
  {
    var d := [(first, (0.0, 0.0))] + ZeroEntries(comp);
    KeysOfConcat([(first, (0.0, 0.0))], ZeroEntries(comp));
    assert KeysOf([(first, (0.0, 0.0))]) == [first];
    PutExisting(d, 0, g);
    assert d[0 := (first, g)] == [(first, g)] + ZeroEntries(comp);
  }

  lemma DistinctCons(first: string, ks: seq<string>)
    requires Distinct(ks) && first !in ks
    ensures Distinct([first] + ks)
  {
    forall i, j | 0 <= i < j < 1 + |ks| ensures ([first] + ks)[i] != ([first] + ks)[j] {
      assert ([first] + ks)[j] == ks[j - 1];
      if i > 0 {
        assert ([first] + ks)[i] == ks[i - 1];
      }
    }
  }

  lemma PartlyEnds(comp: seq<(string, real)>)
    ensures Partly(comp, 0) == ZeroEntries(comp)
    ensures Partly(comp, |comp|) == GuessEntries(comp)
  {
  }

  /** After the targets are added every listed phase has target 0, no phase
      is listed twice, and the phases already there keep their targets. */
  lemma {:induction false} AddTargetsFacts(targets: seq<(string, real)>, phases: seq<string>)
    requires Distinct(KeysOf(targets))
    ensures Distinct(KeysOf(AddTargets(targets, phases)))
    ensures forall p :: p in phases ==> Get(AddTargets(targets, phases), p) == Some(0.0)
    ensures forall p :: p !in phases ==> Get(AddTargets(targets, phases), p) == Get(targets, p)
    decreases |phases|
  {
    if |phases| > 0 {
      var front := phases[..|phases| - 1];
      AddTargetsFacts(targets, front);
      PutFacts(AddTargets(targets, front), phases[|phases| - 1], 0.0);
      assert forall p :: p in phases ==> p in front || p == phases[|phases| - 1];
    }
  }

  /** The leaves of a tree of phases are their driving forces in order. */
  lemma PhaseTreeLeaves(targets: seq<(string, real)>)
    ensures Leaves(PhaseTree(targets)) == ValuesOf(targets)
  {
    var es := PhaseTree(targets).entries;
    forall i | 0 <= i < |es| ensures Leaves(es[i].child) == [targets[i].1] {
      var child := es[i].child;
      assert Leaves(child) == Concat([Leaves(Leaf(targets[i].1))]);
      assert Concat([Leaves(Leaf(targets[i].1))]) == Concat([]) + [targets[i].1];
    }
    ConcatSingletons(seq(|es|, i requires 0 <= i < |es| => Leaves(es[i].child)), ValuesOf(targets));
  }

  lemma {:induction false} ConcatSingletons(ss: seq<seq<real>>, xs: seq<real>)
    requires |ss| == |xs| && forall i :: 0 <= i < |ss| ==> ss[i] == [xs[i]]
    ensures Concat(ss) == xs
    decreases |ss|
  {
    if |ss| > 0 {
      ConcatSingletons(ss[..|ss| - 1], xs[..|xs| - 1]);
    }
  }

  /** The values the search is validated against: the driving force of every
      solution phase, then of every pure condensed phase. */
  lemma ValidationValues(solution: seq<(string, real)>, condensed: seq<(string, real)>)
    ensures Leaves(ValuesTree(solution, condensed)) == ValuesOf(solution) + ValuesOf(condensed)
  {
    PhaseTreeLeaves(solution);
    PhaseTreeLeaves(condensed);
    var ss := [Leaves(PhaseTree(solution)), Leaves(PhaseTree(condensed))];
    var es := ValuesTree(solution, condensed).entries;
    assert seq(|es|, i requires 0 <= i < |es| => Leaves(es[i].child)) == ss;
    assert Concat(ss) == Concat(ss[..1]) + ss[1];
    assert ss[..1] == [ss[0]];
    assert Concat([ss[0]]) == Concat([]) + ss[0];
  }

  /** A tree of phases with different names has no repeated key. */
  lemma ValuesTreeWellFormed(solution: seq<(string, real)>, condensed: seq<(string, real)>)
    requires Distinct(KeysOf(solution)) && Distinct(KeysOf(condensed))
    ensures WellFormed(ValuesTree(solution, condensed))
  {
    PhaseTreeWellFormed(solution);
    PhaseTreeWellFormed(condensed);
    var es := ValuesTree(solution, condensed).entries;
    assert Keys(es) == ["solution phases", "pure condensed phases"];
  }

  lemma PhaseTreeWellFormed(targets: seq<(string, real)>)
    requires Distinct(KeysOf(targets))
    ensures WellFormed(PhaseTree(targets))
  {
    var es := PhaseTree(targets).entries;
    assert Keys(es) == KeysOf(targets);
    forall i | 0 <= i < |es| ensures WellFormed(es[i].child) {
      assert Keys(es[i].child.entries) == ["driving force"];
    }
  }

  /** The `updateInputFile` composition line: `beta[0] 1`, then for each
      element of the data file its coefficient when it is in the target
      composition and 0 otherwise. */
  method CompositionLine(elements: seq<string>, keys: seq<string>, beta: seq<real>) returns (line: seq<real>)
    requires |beta| >= 1
    requires forall i :: 0 <= i < |elements| && elements[i] in keys ==> 1 + IndexOf(keys, elements[i]) < |beta|
    ensures |line| == 2 + |elements| && line[0] == beta[0] && line[1] == 1.0
    ensures forall i :: 0 <= i < |elements| ==>
      line[2 + i] == if elements[i] in keys then beta[1 + IndexOf(keys, elements[i])] else 0.0
  {
    var compositions := [];
    for i := 0 to |elements|
      invariant |compositions| == i
      invariant forall j :: 0 <= j < i ==>
        compositions[j] == if elements[j] in keys then beta[1 + IndexOf(keys, elements[j])] else 0.0
    {
      if elements[i] in keys {
        compositions := compositions + [beta[1 + IndexOf(keys, elements[i])]];
      } else {
        compositions := compositions + [0.0];
      }
    }
    line := [beta[0], 1.0] + compositions;
  }

  /** The coefficient a composition line takes for an element is the one of
      the tag named after that element, since the tags are 'temperature'
      followed by the composition keys. */
  lemma LineUsesOwnTag(keys: seq<string>, element: string)
    requires element in keys
    ensures 1 + IndexOf(keys, element) < |TagNames(keys)|
    ensures TagNames(keys)[1 + IndexOf(keys, element)] == element
  {
  }

  /** The search: what `findTransition` sets up before it calls the
      optimizer. */
  class TransitionFinder {
    const elements: seq<string>
    const tol: real
    const maxIts: int
    /** `None` is the source's default `[]`, which no temperature
        multiplies. */
    var targetTemperature: Option<real>
    var targetComposition: seq<(string, real)>
    var transitionSolutionPhases: seq<string>
    var transitionStoichiometricPhases: seq<string>
    /** `validationPoints['0']['values']['solution phases']`, phase to
        driving force. */
    var solutionTargets: seq<(string, real)>
    /** `validationPoints['0']['values']['pure condensed phases']`. */
    var condensedTargets: seq<(string, real)>
    var tagNames: seq<string>
    var tags: seq<(string, (real, real))>
    var totalMass: real
    var bounds: seq<(real, real)>
    var validationPairs: seq<Tree<real>>

    /** Python dictionaries never repeat a key. */
    ghost predicate Valid()
      reads this
    {
      Distinct(KeysOf(targetComposition)) && Distinct(KeysOf(solutionTargets)) && Distinct(KeysOf(condensedTargets))
    }

    /** `elements` are the names read from the data file. */
    constructor(elements: seq<string>)
      ensures Valid()
      ensures this.elements == elements && tol == Tol && maxIts == MaxIts
      ensures targetTemperature == None
      ensures targetComposition == [] && solutionTargets == [] && condensedTargets == []
      ensures transitionSolutionPhases == [] && transitionStoichiometricPhases == []
    {
      this.elements := elements;
      tol, maxIts := Tol, MaxIts;
      targetTemperature := None;
      targetComposition := [];
      transitionSolutionPhases, transitionStoichiometricPhases := [], [];
      solutionTargets, condensedTargets := [], [];
      tagNames, tags, totalMass, bounds, validationPairs := [], [], 0.0, [], [];
    }

    /** `findTransition` up to the optimizer call. It fails, as the
        multiplication of the default `[]` does, when no target temperature
        was set; the tag names and the zero tags are set by then and nothing
        else. It fails, as the division by a zero total does, when the
        composition is not empty and its amounts add up to 0; the tags and
        the total are set by then and nothing else. */
    method FindTransition() returns (ok: bool)
      requires Valid()
      modifies this`tagNames, this`tags, this`totalMass, this`targetComposition
      modifies this`bounds, this`solutionTargets, this`condensedTargets, this`validationPairs
      ensures Valid()
      ensures tagNames == TagNames(KeysOf(old(targetComposition)))
      ensures ok <==> (targetTemperature.Some?
                       && (|old(targetComposition)| == 0 || Total(old(targetComposition)) != 0.0))
      ensures !ok ==> (targetComposition == old(targetComposition)
        && bounds == old(bounds) && solutionTargets == old(solutionTargets)
        && condensedTargets == old(condensedTargets) && validationPairs == old(validationPairs))
      ensures targetTemperature.None? ==> tags == ZeroTags(tagNames) && totalMass == old(totalMass)
      ensures targetTemperature.Some? ==> totalMass == Total(old(targetComposition))
      ensures targetTemperature.Some? && !ok ==>
        tags == TemperatureTags(targetTemperature.value, KeysOf(targetComposition))
      ensures ok ==> (targetComposition == Normalised(old(targetComposition), totalMass)
        && tags == PutGuesses(TemperatureTags(targetTemperature.value, KeysOf(old(targetComposition))), targetComposition))
      ensures ok ==> (bounds == Bounds(targetTemperature.value, targetComposition)
        && solutionTargets == AddTargets(old(solutionTargets), transitionSolutionPhases)
        && condensedTargets == AddTargets(old(condensedTargets), transitionStoichiometricPhases)
        && validationPairs == DrivingForces(solutionTargets, condensedTargets))
    {
      StartTags();
      if targetTemperature.None? || (|targetComposition| > 0 && totalMass == 0.0) {
        return false;
      }
      NormaliseComposition();
      SetUpValidation();
      return true;
    }

    /** The tags at `[0, 0]` with the temperature guesses, and the total;
        without a target temperature only the tags at `[0, 0]`. */
    method StartTags()
      modifies this`tagNames, this`tags, this`totalMass
      ensures tagNames == TagNames(KeysOf(targetComposition))
      ensures targetTemperature.None? ==> tags == ZeroTags(tagNames) && totalMass == old(totalMass)
      ensures targetTemperature.Some? ==>
        && tags == TemperatureTags(targetTemperature.value, KeysOf(targetComposition))
        && totalMass == Total(targetComposition)
    {
      tagNames, tags := InitialTags(targetTemperature, KeysOf(targetComposition));
      if targetTemperature.Some? {
        totalMass := Sum(targetComposition);
      }
    }

    /** Each amount divided by the total, with the guesses of its tag. */
    method NormaliseComposition()
      requires |targetComposition| == 0 || totalMass != 0.0
      modifies this`targetComposition, this`tags
      ensures targetComposition == Normalised(old(targetComposition), totalMass)
      ensures tags == PutGuesses(old(tags), targetComposition)
    {
      targetComposition, tags := Normalise(targetComposition, totalMass, tags);
    }

    /** The bounds, the targets of the transition phases and the values
        validated against. */
    method SetUpValidation()
      requires targetTemperature.Some?
      requires Distinct(KeysOf(solutionTargets)) && Distinct(KeysOf(condensedTargets))
      modifies this`bounds, this`solutionTargets, this`condensedTargets, this`validationPairs
      ensures Distinct(KeysOf(solutionTargets)) && Distinct(KeysOf(condensedTargets))
      ensures bounds == Bounds(targetTemperature.value, targetComposition)
      ensures solutionTargets == AddTargets(old(solutionTargets), transitionSolutionPhases)
      ensures condensedTargets == AddTargets(old(condensedTargets), transitionStoichiometricPhases)
      ensures validationPairs == DrivingForces(solutionTargets, condensedTargets)
    {
      bounds := BoundsOf(targetTemperature.value, targetComposition);
      solutionTargets, condensedTargets, validationPairs :=
        Validation(solutionTargets, condensedTargets, transitionSolutionPhases, transitionStoichiometricPhases);
    }
  }

  /** The targets of the transition phases, then the values validated
      against: `getParallelDictValues` of the values with themselves. */
  method Validation(solution: seq<(string, real)>, condensed: seq<(string, real)>,
                    solutionPhases: seq<string>, condensedPhases: seq<string>)
    returns (solution': seq<(string, real)>, condensed': seq<(string, real)>, pairs: seq<Tree<real>>)
    requires Distinct(KeysOf(solution)) && Distinct(KeysOf(condensed))
    ensures solution' == AddTargets(solution, solutionPhases) && Distinct(KeysOf(solution'))
    ensures condensed' == AddTargets(condensed, condensedPhases) && Distinct(KeysOf(condensed'))
    ensures pairs == DrivingForces(solution', condensed')
  {
    AddTargetsFacts(solution, solutionPhases);
    AddTargetsFacts(condensed, condensedPhases);
    solution' := Targets(solution, solutionPhases);
    condensed' := Targets(condensed, condensedPhases);
    var values := ValuesTree(solution', condensed');
    ValuesTreeWellFormed(solution', condensed');
    CoversItself(values);
    pairs := GetParallelDictValues(values, values, []);
    ParallelWithItselfFlattens(values);
    ValidationValues(solution', condensed');
  }

  /** The tag names and the tags at `[0, 0]`, then the temperature
      guesses when there is a temperature to multiply. */
  method InitialTags(temperature: Option<real>, keys: seq<string>) returns (names: seq<string>, tags: seq<(string, (real, real))>)
    ensures names == TagNames(keys)
    ensures temperature.None? ==> tags == ZeroTags(names)
    ensures temperature.Some? ==> tags == TemperatureTags(temperature.value, keys)
  {
    names := ["temperature"] + keys;
    tags := ZeroTags(names);
    if temperature.Some? {
      tags := Put(tags, "temperature", Guess(temperature.value));
    }
  }

  /** The loop dividing each amount by the total and writing the guesses
      of its tag. */
  method Normalise(comp: seq<(string, real)>, total: real, tags: seq<(string, (real, real))>)
    returns (comp': seq<(string, real)>, tags': seq<(string, (real, real))>)
    requires |comp| == 0 || total != 0.0
    ensures comp' == Normalised(comp, total)
    ensures tags' == PutGuesses(tags, comp')
  {
    ghost var n := Normalised(comp, total);
    comp', tags' := comp, tags;
    for i := 0 to |comp|
      invariant |comp'| == |comp|
      invariant forall j :: 0 <= j < i ==> comp'[j] == n[j]
      invariant forall j :: i <= j < |comp| ==> comp'[j] == comp[j]
      invariant tags' == PutGuesses(tags, n[..i])
    {
      var (element, amount) := comp'[i];
      comp' := comp'[i := (element, amount / total)];
      assert n[..i + 1][..i] == n[..i];
      tags' := Put(tags', element, Guess(amount / total));
    }
    assert n[..|comp|] == n;
  }

  /** The loop adding up the amounts. */
  method Sum(comp: seq<(string, real)>) returns (total: real)
    ensures total == Total(comp)
  {
    total := 0.0;
    for i := 0 to |comp|
      invariant total == Total(comp[..i])
    {
      assert comp[..i + 1][..i] == comp[..i];
      total := total + comp[i].1;
    }
    assert comp[..|comp|] == comp;
  }

  /** The loop building the bounds. */
  method BoundsOf(temperature: real, comp: seq<(string, real)>) returns (bs: seq<(real, real)>)
    ensures bs == Bounds(temperature, comp)
  {
    bs := [(temperature - TempRange, temperature + TempRange)];
    for i := 0 to |comp|
      invariant |bs| == 1 + i && bs[0] == (temperature - TempRange, temperature + TempRange)
      invariant forall j :: 0 <= j < i ==> bs[1 + j] == CompositionBound(comp[j].1)
    {
      var minCon := Max(comp[i].1 - ConcRange, MinConcentration);
      var maxCon := Min(comp[i].1 + ConcRange, 1.0);
      bs := bs + [(minCon, maxCon)];
    }
  }

  /** The loop writing the target of each transition phase. */
  method Targets(targets: seq<(string, real)>, phases: seq<string>) returns (r: seq<(string, real)>)
    ensures r == AddTargets(targets, phases)
  {
    r := targets;
    for i := 0 to |phases|
      invariant r == AddTargets(targets, phases[..i])
    {
      assert phases[..i + 1][..i] == phases[..i];
      r := Put(r, phases[i], 0.0);
    }
    assert phases[..|phases|] == phases;
  }
}
