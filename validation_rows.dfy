/** Row acceptance of the `PointValidationWindow`s (python/dataThermoOptima.py
    and optimaData.py): each row gives a temperature, a pressure and one
    concentration per element; blank fields of later rows repeat the row
    before. */
module ValidationRows {
  import opened Common

  /** `validEntry(value)`: the value and a status, `1` for a blank field, `0`
      for a valid non-negative number and `-1` for anything else. */
  function ValidEntry(f: Field<real>): (r: (real, int))
    ensures r.1 == 1 <==> f.Blank?
    ensures r.1 == 0 <==> f.Parsed? && f.value >= 0.0
    ensures r.1 == -1 <==> f.Unparseable? || (f.Parsed? && f.value < 0.0)
    ensures r.1 == 0 ==> r.0 == f.value
    ensures r.1 != 0 ==> r.0 == 0.0
  {
    match f
    case Blank => (0.0, 1)
    case Parsed(v) => if v >= 0.0 then (v, 0) else (0.0, -1)
    case Unparseable => (0.0, -1)
  }

  /** The text of one row of input fields. */
  datatype Row = Row(temp: Field<real>, pres: Field<real>, concs: seq<Field<real>>)

  /** `max(concentrations)`. */
  function Largest(c: seq<real>): real
    requires |c| > 0
    decreases |c|
  {
    if |c| == 1 then c[0] else Max(Largest(c[..|c| - 1]), c[|c| - 1])
  }

  /** `max` is some item and no item exceeds it. */
  lemma {:induction false} LargestBounds(c: seq<real>)
    requires |c| > 0
    ensures Largest(c) in c && forall j :: 0 <= j < |c| ==> c[j] <= Largest(c)
    decreases |c|
  {
    if |c| > 1 {
      var front := c[..|c| - 1];
      LargestBounds(front);
      assert forall j :: 0 <= j < |front| ==> front[j] == c[j];
    }
  }

  lemma LargestPositive(c: seq<real>)
    requires |c| > 0
    ensures Largest(c) > 0.0 <==> exists j :: 0 <= j < |c| && c[j] > 0.0
  {
    LargestBounds(c);
  }

  /** The state `[temp, pres] + concentrations` of row 0, if it is accepted. */
  function FirstState(elements: seq<string>, row: Row): (s: Option<seq<real>>)
    requires |elements| > 0 && |row.concs| == |elements|
    ensures s.Some? ==> |s.value| == 2 + |elements|
  {
    var (temp, tempStatus) := ValidEntry(row.temp);
    var (pres, presStatus) := ValidEntry(row.pres);
    var concs := seq(|elements|, j requires 0 <= j < |elements| => ValidEntry(row.concs[j]).0);
    if !(tempStatus == 0 && temp >= 300.0) then None
    else if !(presStatus == 0 && pres > 0.0) then None
    else if !(Largest(concs) > 0.0) then None
    else Some([temp, pres] + concs)
  }

  /** The concentrations of a later row: blanks repeat the previous row's
      value of the first element with the same name; `None` if any field is
      invalid. */
  function LaterConcentrations(elements: seq<string>, last: seq<real>, fields: seq<Field<real>>): (c: Option<seq<real>>)
    requires |fields| == |elements| == |last|
    ensures c.Some? ==> |c.value| == |elements|
  {
    if exists j :: 0 <= j < |fields| && ValidEntry(fields[j]).1 == -1 then None
    else Some(seq(|fields|, j requires 0 <= j < |fields| => Inherited(elements, last, fields, j)))
  }

  lemma ConcentrationsOfRow(elements: seq<string>, last: seq<real>, fields: seq<Field<real>>, c: seq<real>)
    requires |fields| == |elements| == |last| == |c|
    requires forall j :: 0 <= j < |fields| ==> ValidEntry(fields[j]).1 != -1
    requires forall j :: 0 <= j < |fields| ==> c[j] == Inherited(elements, last, fields, j)
    ensures LaterConcentrations(elements, last, fields) == Some(c)
  {
    assert c == seq(|fields|, j requires 0 <= j < |fields| => Inherited(elements, last, fields, j));
  }

  /** Field `j` of a later row's concentrations, or the previous row's value
      when it is blank. */
  function Inherited(elements: seq<string>, last: seq<real>, fields: seq<Field<real>>, j: nat): real
    requires |fields| == |elements| == |last| && j < |fields|
  {
    if ValidEntry(fields[j]).1 == 1 then last[IndexOf(elements, elements[j])] else ValidEntry(fields[j]).0
  }

  /** The state of row `i >= 1`, given the state of the row before. */
  function LaterState(elements: seq<string>, last: seq<real>, row: Row): (s: Option<seq<real>>)
    requires |elements| > 0 && |row.concs| == |elements| && |last| == 2 + |elements|
    ensures s.Some? ==> |s.value| == 2 + |elements|
  {
    var (t, tempStatus) := ValidEntry(row.temp);
    var (p, presStatus) := ValidEntry(row.pres);
    var temp := if tempStatus == 1 then last[0] else t;
    var pres := if presStatus == 1 then last[1] else p;
    if tempStatus != 1 && !(tempStatus >= 0 && temp >= 300.0) then None
    else if presStatus != 1 && !(presStatus >= 0 && pres > 0.0) then None
    else
      match LaterConcentrations(elements, last[2..], row.concs)
      case None => None
      case Some(concs) => if !(Largest(concs) > 0.0) then None else Some([temp, pres] + concs)
  }

  ghost predicate WellShaped(elements: seq<string>, rows: seq<Row>) {
    |elements| > 0 && |rows| > 0 && forall i :: 0 <= i < |rows| ==> |rows[i].concs| == |elements|
  }

  /** The states of the first `k` rows, `None` once a row is refused. */
  function States(elements: seq<string>, rows: seq<Row>, k: nat): (r: Option<seq<seq<real>>>)
    requires WellShaped(elements, rows) && 1 <= k <= |rows|
    ensures r.Some? ==> |r.value| == k && |r.value[k - 1]| == 2 + |elements|
  {
    if k == 1 then
      match FirstState(elements, rows[0])
      case None => None
      case Some(s) => Some([s])
    else
      match States(elements, rows, k - 1)
      case None => None
      case Some(prev) =>
        match LaterState(elements, prev[k - 2], rows[k - 1])
        case None => None
        case Some(s) => Some(prev + [s])
  }

  /** A point `newpoints[key] = {'state': state}`. */
  datatype Point = Point(key: int, state: seq<real>)

  function Numbered(startIndex: int, states: seq<seq<real>>): (ps: seq<Point>)
    ensures |ps| == |states| && forall i :: 0 <= i < |states| ==> ps[i] == Point(startIndex + i, states[i])
  {
    seq(|states|, i requires 0 <= i < |states| => Point(startIndex + i, states[i]))
  }

  /** The points an Accept records, keyed from `startIndex` on. */
  function Accepted(elements: seq<string>, rows: seq<Row>, startIndex: int): Option<seq<Point>>
    requires WellShaped(elements, rows)
  {
    match States(elements, rows, |rows|)
    case None => None
    case Some(states) => Some(Numbered(startIndex, states))
  }

  /** A recorded state is physical: temperature at least 300, positive
      pressure, non-negative concentrations and at least one element present. */
  ghost predicate Physical(elements: seq<string>, s: seq<real>) {
    |s| == 2 + |elements| && s[0] >= 300.0 && s[1] > 0.0
    && (forall j :: 2 <= j < |s| ==> s[j] >= 0.0)
    && exists j :: 2 <= j < |s| && s[j] > 0.0
  }

  lemma FirstStatePhysical(elements: seq<string>, row: Row)
    requires |elements| > 0 && |row.concs| == |elements|
    requires FirstState(elements, row).Some?
    ensures Physical(elements, FirstState(elements, row).value)
  {
    var s := FirstState(elements, row).value;
    var concs := seq(|elements|, j requires 0 <= j < |elements| => ValidEntry(row.concs[j]).0);
    assert s[2..] == concs;
    LargestPositive(concs);
    var j :| 0 <= j < |concs| && concs[j] > 0.0;
    assert s[2 + j] > 0.0;
  }

  lemma LaterStatePhysical(elements: seq<string>, last: seq<real>, row: Row)
    requires |elements| > 0 && |row.concs| == |elements|
    requires Physical(elements, last)
    requires LaterState(elements, last, row).Some?
    ensures Physical(elements, LaterState(elements, last, row).value)
  {
    var s := LaterState(elements, last, row).value;
    var concs := LaterConcentrations(elements, last[2..], row.concs).value;
    assert s[2..] == concs;
    forall j | 2 <= j < |s| ensures s[j] >= 0.0 {
      assert s[j] == concs[j - 2];
      var k := IndexOf(elements, elements[j - 2]);
      assert last[2..][k] == last[2 + k];
    }
    LargestPositive(concs);
    var j :| 0 <= j < |concs| && concs[j] > 0.0;
    assert s[2 + j] > 0.0;
  }

  /** Every recorded state is physical. */
  lemma StatesPhysical(elements: seq<string>, rows: seq<Row>, k: nat)
    requires WellShaped(elements, rows) && 1 <= k <= |rows|
    requires States(elements, rows, k).Some?
    ensures forall i :: 0 <= i < k ==> Physical(elements, States(elements, rows, k).value[i])
  {
    forall i | 0 <= i < k ensures Physical(elements, States(elements, rows, k).value[i]) {
      StatePhysical(elements, rows, k, i);
    }
  }

  lemma {:induction false} StatePhysical(elements: seq<string>, rows: seq<Row>, k: nat, i: nat)
    requires WellShaped(elements, rows) && 1 <= k <= |rows| && i < k
    requires States(elements, rows, k).Some?
    ensures Physical(elements, States(elements, rows, k).value[i])
    decreases k, 1
  {
    if k == 1 {
      FirstStatePhysical(elements, rows[0]);
    } else if i < k - 1 {
      EarlierStatePhysical(elements, rows, k, i);
    } else {
      LastStatePhysical(elements, rows, k);
    }
  }

  /** A state recorded before row `k - 1` is the one recorded then. */
  lemma {:induction false} EarlierStatePhysical(elements: seq<string>, rows: seq<Row>, k: nat, i: nat)
    requires WellShaped(elements, rows) && 2 <= k <= |rows| && i < k - 1
    requires States(elements, rows, k).Some?
    ensures Physical(elements, States(elements, rows, k).value[i])
    decreases k, 0
  {
    var prev := States(elements, rows, k - 1).value;
    assert States(elements, rows, k).value[i] == prev[i];
    StatePhysical(elements, rows, k - 1, i);
  }

  /** The state of row `k - 1` follows a physical state. */
  lemma {:induction false} LastStatePhysical(elements: seq<string>, rows: seq<Row>, k: nat)
    requires WellShaped(elements, rows) && 2 <= k <= |rows|
    requires States(elements, rows, k).Some?
    ensures Physical(elements, States(elements, rows, k).value[k - 1])
    decreases k, 0
  {
    var prev := States(elements, rows, k - 1).value;
    StatePhysical(elements, rows, k - 1, k - 2);
    LaterStatePhysical(elements, prev[k - 2], rows[k - 1]);
  }

  /** Row 0 is accepted exactly when its temperature is a valid number of at
      least 300, its pressure a valid positive number, and some concentration
      is positive; invalid or blank concentrations count as 0. */
  lemma FirstRowRule(elements: seq<string>, row: Row)
    requires |elements| > 0 && |row.concs| == |elements|
    ensures FirstState(elements, row).Some? <==>
      row.temp.Parsed? && row.temp.value >= 300.0 && row.pres.Parsed? && row.pres.value > 0.0
      && exists j :: 0 <= j < |elements| && row.concs[j].Parsed? && row.concs[j].value > 0.0
  {
    var concs := seq(|elements|, j requires 0 <= j < |elements| => ValidEntry(row.concs[j]).0);
    LargestPositive(concs);
    if exists j :: 0 <= j < |elements| && row.concs[j].Parsed? && row.concs[j].value > 0.0 {
      var j :| 0 <= j < |elements| && row.concs[j].Parsed? && row.concs[j].value > 0.0;
      assert concs[j] > 0.0;
    }
  }

  /** In a later row a blank field repeats the row before: the temperature,
      the pressure, and each concentration (taken from the first element of
      the same name). */
  lemma BlankInherits(elements: seq<string>, last: seq<real>, row: Row)
    requires |elements| > 0 && |row.concs| == |elements| && |last| == 2 + |elements|
    requires LaterState(elements, last, row).Some?
    ensures row.temp.Blank? ==> LaterState(elements, last, row).value[0] == last[0]
    ensures row.pres.Blank? ==> LaterState(elements, last, row).value[1] == last[1]
    ensures forall j :: 0 <= j < |elements| && row.concs[j].Blank? ==>
      LaterState(elements, last, row).value[2 + j] == last[2 + IndexOf(elements, elements[j])]
    ensures forall j :: 0 <= j < |elements| && row.concs[j].Parsed? ==>
      LaterState(elements, last, row).value[2 + j] == row.concs[j].value
  {
    var s := LaterState(elements, last, row).value;
    var prev := last[2..];
    var concs := LaterConcentrations(elements, prev, row.concs).value;
    assert s[2..] == concs;
    forall j | 0 <= j < |elements|
      ensures s[2 + j] == Inherited(elements, prev, row.concs, j)
    {
      assert s[2..][j] == s[2 + j];
    }
    forall j | 0 <= j < |elements| && row.concs[j].Blank?
      ensures s[2 + j] == last[2 + IndexOf(elements, elements[j])]
    {
      assert prev[IndexOf(elements, elements[j])] == last[2 + IndexOf(elements, elements[j])];
    }
  }

  /** An invalid concentration in any later row refuses the whole Accept. */
  lemma {:induction false} InvalidConcentrationRefuses(elements: seq<string>, rows: seq<Row>, i: nat, j: nat, k: nat)
    requires WellShaped(elements, rows) && 1 <= i < k <= |rows| && j < |elements|
    requires ValidEntry(rows[i].concs[j]).1 == -1
    ensures States(elements, rows, k).None?
  {
    if k - 1 > i {
      InvalidConcentrationRefuses(elements, rows, i, j, k - 1);
    } else if States(elements, rows, k - 1).Some? {
      var prev := States(elements, rows, k - 1).value;
      assert LaterConcentrations(elements, prev[k - 2][2..], rows[k - 1].concs).None?;
    }
  }

  /** Once a row is refused, so is every longer prefix of the rows. */
  lemma {:induction false} StaysRefused(elements: seq<string>, rows: seq<Row>, i: nat, k: nat)
    requires WellShaped(elements, rows) && 1 <= i <= k <= |rows|
    requires States(elements, rows, i).None?
    ensures States(elements, rows, k).None?
    decreases k
  {
    if k > i {
      StaysRefused(elements, rows, i, k - 1);
    }
  }

  /** The Accept loop of `PointValidationWindow.read`, with the state of each
      row built from `lastTemp`, `lastPres` and `lastConcentrations`. */
  method AcceptRows(elements: seq<string>, rows: seq<Row>) returns (states: Option<seq<seq<real>>>)
    requires WellShaped(elements, rows)
    ensures states == States(elements, rows, |rows|)
  {
    var first := FirstState(elements, rows[0]);
    if first.None? {
      StaysRefused(elements, rows, 1, |rows|);
      return None;
    }
    var accepted := [first.value];
    for i := 1 to |rows|
      invariant States(elements, rows, i) == Some(accepted)
    {
      var next := NextRow(elements, rows, i, accepted);
      if next.None? {
        StaysRefused(elements, rows, i + 1, |rows|);
        return None;
      }
      accepted := accepted + [next.value];
    }
    return Some(accepted);
  }

  /** Row `i` read against the state accepted for row `i - 1`. */
  method NextRow(elements: seq<string>, rows: seq<Row>, i: nat, accepted: seq<seq<real>>)
    returns (next: Option<seq<real>>)
    requires WellShaped(elements, rows) && 1 <= i < |rows|
    requires States(elements, rows, i) == Some(accepted)
    ensures next.None? ==> States(elements, rows, i + 1).None?
    ensures next.Some? ==> States(elements, rows, i + 1) == Some(accepted + [next.value])
  {
    AcceptStep(elements, rows, i, accepted);
    var last := accepted[i - 1];
    StateParts(last);
    next := LaterRow(elements, last[0], last[1], last[2..], rows[i]);
  }

  /** A state is its temperature, its pressure and its concentrations. */
  lemma StateParts(last: seq<real>)
    requires |last| >= 2
    ensures [last[0], last[1]] + last[2..] == last
  {
  }

  /** Row `i` is refused, or its state is appended to those before it. */
  lemma AcceptStep(elements: seq<string>, rows: seq<Row>, i: nat, accepted: seq<seq<real>>)
    requires WellShaped(elements, rows) && 1 <= i < |rows|
    requires States(elements, rows, i) == Some(accepted)
    ensures |accepted[i - 1]| == 2 + |elements|
    ensures LaterState(elements, accepted[i - 1], rows[i]).None? ==> States(elements, rows, i + 1).None?
    ensures LaterState(elements, accepted[i - 1], rows[i]).Some? ==>
      States(elements, rows, i + 1) == Some(accepted + [LaterState(elements, accepted[i - 1], rows[i]).value])
  {
  }

  /** One later row: blank fields take the values of the row before. */
  method LaterRow(elements: seq<string>, lastTemp: real, lastPres: real, lastConcentrations: seq<real>, row: Row)
    returns (state: Option<seq<real>>)
    requires |elements| > 0 && |row.concs| == |elements| == |lastConcentrations|
    ensures state == LaterState(elements, [lastTemp, lastPres] + lastConcentrations, row)
  {
    ghost var last := [lastTemp, lastPres] + lastConcentrations;
    assert last[2..] == lastConcentrations;
    var temp, status := ValidEntry(row.temp).0, ValidEntry(row.temp).1;
    if status == 1 {
      temp := lastTemp;
    } else if !(status >= 0 && temp >= 300.0) {
      return None;
    }
    var pres, presStatus := ValidEntry(row.pres).0, ValidEntry(row.pres).1;
    if presStatus == 1 {
      pres := lastPres;
    } else if !(presStatus >= 0 && pres > 0.0) {
      return None;
    }
    var concentrations := [];
    for j := 0 to |elements|
      invariant |concentrations| == j
      invariant forall k :: 0 <= k < j ==> ValidEntry(row.concs[k]).1 != -1
      invariant forall k :: 0 <= k < j ==> concentrations[k] == Inherited(elements, lastConcentrations, row.concs, k)
    {
      var conc, concStatus := ValidEntry(row.concs[j]).0, ValidEntry(row.concs[j]).1;
      if concStatus == -1 {
        return None;
      } else if concStatus == 1 {
        conc := lastConcentrations[IndexOf(elements, elements[j])];
      }
      concentrations := concentrations + [conc];
    }
    ConcentrationsOfRow(elements, lastConcentrations, row.concs, concentrations);
    if !(Largest(concentrations) > 0.0) {
      return None;
    }
    return Some([temp, pres] + concentrations);
  }
}
