/** What the two `PointValidationWindow`s record on Accept. The newer one
    (python/dataThermoOptima.py) builds a validation set of type 'point'
    keyed from 0 and hands it on; the older one (optimaData.py) also asks
    for one Gibbs energy per row and merges the points into the shared
    dictionary of validation points. */
module PointWindows {
  import opened Common
  import opened OrderedDicts
  import opened ValidationRows
  import opened ValidationStore

  /** `newpoints` of the newer window: 'type' first, then the states keyed
      0, 1, ... */
  function NewPointSet(states: seq<seq<real>>): seq<(SetKey, SetValue<seq<real>>)> {
    [(TypeKey, Kind("point"))] + seq(|states|, i requires 0 <= i < |states| => (Index(i), Member(states[i])))
  }

  /** The set is of type 'point' and holds the states in order under the
      keys 0..n-1. */
  lemma {:induction false} NewPointSetFacts(states: seq<seq<real>>)
    ensures Get(NewPointSet(states), TypeKey) == Some(Kind("point"))
    ensures IndexKeys(NewPointSet(states)) == Range(0, |states|)
    ensures Members(NewPointSet(states), TypeKey) == seq(|states|, i requires 0 <= i < |states| => Member(states[i]))
  {
    var d := NewPointSet(states);
    assert KeysOf(d)[0] == TypeKey;
    NumberedFrom(states, 0);
    assert d[1..] == Entries(states, 0);
  }

  function Entries(states: seq<seq<real>>, from: nat): seq<(SetKey, SetValue<seq<real>>)>
    requires from <= |states|
  {
    seq(|states| - from, i requires 0 <= i < |states| - from => (Index(from + i), Member(states[from + i])))
  }

  lemma {:induction false} NumberedFrom(states: seq<seq<real>>, from: nat)
    requires from <= |states|
    ensures IndexKeys(Entries(states, from)) == Range(from, |states| - from)
    ensures Members(Entries(states, from), TypeKey) == seq(|states| - from, i requires 0 <= i < |states| - from => Member(states[from + i]))
    decreases |states| - from
  {
    if from < |states| {
      NumberedFrom(states, from + 1);
      assert Entries(states, from)[1..] == Entries(states, from + 1);
      assert Range(from, |states| - from) == [from] + Range(from + 1, |states| - from - 1);
    }
  }

  /** Accept of the newer window: the row states as a set of type 'point'
      keyed from 0, or nothing when a row is refused. */
  method Accept(elements: seq<string>, rows: seq<Row>) returns (newpoints: Option<seq<(SetKey, SetValue<seq<real>>)>>)
    requires WellShaped(elements, rows)
    ensures newpoints.None? <==> States(elements, rows, |rows|).None?
    ensures newpoints.Some? ==> newpoints.value == NewPointSet(States(elements, rows, |rows|).value)
  {
    var states := AcceptRows(elements, rows);
    if states.None? {
      return None;
    }
    return Some(NewPointSet(states.value));
  }

  /** Every point an Accept records is physical, and there is one per row
      with the keys `startIndex`, `startIndex + 1`, ... */
  lemma AcceptedPoints(elements: seq<string>, rows: seq<Row>, startIndex: int)
    requires WellShaped(elements, rows) && Accepted(elements, rows, startIndex).Some?
    ensures |Accepted(elements, rows, startIndex).value| == |rows|
    ensures forall i :: 0 <= i < |rows| ==>
      Accepted(elements, rows, startIndex).value[i].key == startIndex + i
      && Physical(elements, Accepted(elements, rows, startIndex).value[i].state)
  {
    StatesPhysical(elements, rows, |rows|);
  }

  /** The points of the older window once every Gibbs energy parses; any
      field that does not (a blank one included) keeps the window open. */
  function WithGibbs(states: seq<seq<real>>, gibbs: seq<Field<real>>): (r: Option<seq<ValidationPoint>>)
    requires |gibbs| == |states|
    ensures r.Some? <==> forall i :: 0 <= i < |gibbs| ==> gibbs[i].Parsed?
    ensures r.Some? ==> |r.value| == |states| && forall i :: 0 <= i < |states| ==>
      r.value[i].state == states[i] && r.value[i].gibbs == Some(gibbs[i].value)
  {
    if forall i :: 0 <= i < |gibbs| ==> gibbs[i].Parsed? then
      Some(seq(|states|, i requires 0 <= i < |states| => ValidationPoint(states[i], Some(gibbs[i].value))))
    else None
  }

  /** The older `PointValidationWindow`; `points` is the caller's dictionary. */
  class LegacyPointWindow {
    const npoints: nat
    const elements: seq<string>
    const points: PointStore

    constructor(npoints: nat, elements: seq<string>, points: PointStore)
      ensures this.npoints == npoints && this.elements == elements && this.points == points
    {
      this.npoints, this.elements, this.points := npoints, elements, points;
    }

    /** Accept, followed by Accept in the Gibbs energy window: the rows are
        checked as in the newer window, keyed from the next free index, and
        merged only when every Gibbs energy parses. */
    method Accept(rows: seq<Row>, gibbs: seq<Field<real>>)
      requires points.Valid() && WellShaped(elements, rows) && |rows| == npoints == |gibbs|
      modifies points
      ensures points.Valid()
      ensures var states := States(elements, rows, |rows|);
        points.points ==
          if states.Some? && WithGibbs(states.value, gibbs).Some?
          then old(points.points) + Rekeyed(NextIndex(old(points.points)), WithGibbs(states.value, gibbs).value)
          else old(points.points)
    {
      var states := AcceptRows(elements, rows);
      if states.None? {
        return;
      }
      var valid, newpoints := GibbsPoints(states.value, gibbs);
      if valid {
        points.Merge(newpoints);
      }
    }
  }

  /** The loop of the Gibbs energy window's Accept: `valid` stays True only
      when every field parses. */
  method GibbsPoints(states: seq<seq<real>>, gibbs: seq<Field<real>>) returns (valid: bool, newpoints: seq<ValidationPoint>)
    requires |gibbs| == |states|
    ensures valid <==> WithGibbs(states, gibbs).Some?
    ensures valid ==> newpoints == WithGibbs(states, gibbs).value
  {
    valid := true;
    newpoints := [];
    for i := 0 to |gibbs|
      invariant |newpoints| == i
      invariant valid <==> forall j :: 0 <= j < i ==> gibbs[j].Parsed?
      invariant forall j :: 0 <= j < i && gibbs[j].Parsed? ==>
        newpoints[j] == ValidationPoint(states[j], Some(gibbs[j].value))
    {
      match gibbs[i] {
        case Parsed(g) =>
          newpoints := newpoints + [ValidationPoint(states[i], Some(g))];
        case _ =>
          newpoints := newpoints + [ValidationPoint(states[i], None)];
          valid := false;
      }
    }
  }
}
