/** Where the validation points live. The older program (thermoOptima.py)
    keeps one dictionary from integer keys to points, adds to it with
    `update` and lists it through a temperature filter; the newer one
    (python/thermoOptima.py) keeps a list of validation sets, each a
    dictionary with a 'type' entry and points keyed 0, 1, ... */
module ValidationStore {
  import opened Common
  import opened OrderedDicts

  /** A point of the older program: its state row `[T, P, c1, ...]` and the
      Gibbs energy given for it. */
  datatype ValidationPoint = ValidationPoint(state: seq<real>, gibbs: Option<real>)

  predicate Increasing(ks: seq<int>) {
    forall i, j :: 0 <= i < j < |ks| ==> ks[i] < ks[j]
  }

  /** `int(list(points.keys())[-1]) + 1`, or 0 for an empty dictionary. */
  function NextIndex(points: seq<(int, ValidationPoint)>): (k: int)
    ensures Increasing(KeysOf(points)) ==> forall key :: key in KeysOf(points) ==> key < k
  {
    if |points| == 0 then 0 else points[|points| - 1].0 + 1
  }

  /** The points of `ps` keyed `startIndex`, `startIndex + 1`, ... in order. */
  function Rekeyed(startIndex: int, ps: seq<ValidationPoint>): seq<(int, ValidationPoint)> {
    seq(|ps|, i requires 0 <= i < |ps| => (startIndex + i, ps[i]))
  }

  /** Rekeyed points have consecutive keys from `startIndex` on, the points in
      their original order, and none of the keys below `startIndex`. */
  lemma RekeyedFacts(startIndex: int, ps: seq<ValidationPoint>)
    ensures KeysOf(Rekeyed(startIndex, ps)) == seq(|ps|, i requires 0 <= i < |ps| => startIndex + i)
    ensures ValuesOf(Rekeyed(startIndex, ps)) == ps
    ensures Increasing(KeysOf(Rekeyed(startIndex, ps)))
    ensures forall k :: k in KeysOf(Rekeyed(startIndex, ps)) ==> k >= startIndex
  {
  }

  /** Merging points keyed from `NextIndex(points)` on into increasing keys
      appends them: `update` leaves every stored point as it was. */
  lemma {:induction false} MergeAppends(points: seq<(int, ValidationPoint)>, ps: seq<ValidationPoint>)
    requires Increasing(KeysOf(points))
    ensures Update(points, Rekeyed(NextIndex(points), ps)) == points + Rekeyed(NextIndex(points), ps)
    ensures Increasing(KeysOf(points + Rekeyed(NextIndex(points), ps)))
  {
    var added := Rekeyed(NextIndex(points), ps);
    RekeyedFacts(NextIndex(points), ps);
    UpdateFresh(points, added);
    assert KeysOf(points + added) == KeysOf(points) + KeysOf(added);
  }

  /** The dictionary `self.validationPoints` of the older program. The point
      windows and the data window hold the same object, so what one of them
      merges the others see. */
  class PointStore {
    var points: seq<(int, ValidationPoint)>

    /** Keys only ever grow in insertion order. */
    ghost predicate Valid()
      reads this
    {
      Increasing(KeysOf(points))
    }

    constructor()
      ensures Valid() && points == []
    {
      points := [];
    }

    /** `self.validationPoints.update(newpoints)` with points keyed from
        `NextIndex(points)` on. */
    method Merge(ps: seq<ValidationPoint>)
      requires Valid()
      modifies this
      ensures Valid()
      ensures points == old(points) + Rekeyed(NextIndex(old(points)), ps)
    {
      MergeAppends(points, ps);
      var added := Rekeyed(NextIndex(points), ps);
      points := Update(points, added);
    }

    /** `loadValidation`: the loaded points, whatever their keys in the file,
        are rekeyed from the next free index on and merged; an empty file
        changes nothing. */
    method LoadValidation(newPoints: seq<(string, ValidationPoint)>)
      requires Valid()
      modifies this
      ensures Valid()
      ensures points == old(points) + Rekeyed(NextIndex(old(points)), ValuesOf(newPoints))
    {
      if |newPoints| > 0 {
        var startIndex := if |points| == 0 then 0 else points[|points| - 1].0 + 1;
        var rekeyedPoints := [];
        for i := 0 to |newPoints|
          invariant points == old(points)
          invariant rekeyedPoints == Rekeyed(startIndex, ValuesOf(newPoints)[..i])
        {
          RekeyedFacts(startIndex, ValuesOf(newPoints)[..i]);
          rekeyedPoints := Put(rekeyedPoints, startIndex + i, newPoints[i].1);
          assert ValuesOf(newPoints)[..i + 1] == ValuesOf(newPoints)[..i] + [newPoints[i].1];
        }
        assert ValuesOf(newPoints)[..|newPoints|] == ValuesOf(newPoints);
        MergeAppends(points, ValuesOf(newPoints));
        points := Update(points, rekeyedPoints);
      }
    }
  }

  /** A temperature bound of the data window, possibly infinite. */
  datatype Limit = NegInf | Finite(x: real) | PosInf

  predicate AtLeast(t: real, lo: Limit) {
    lo.NegInf? || (lo.Finite? && lo.x <= t)
  }

  predicate AtMost(t: real, hi: Limit) {
    hi.PosInf? || (hi.Finite? && t <= hi.x)
  }

  ghost predicate HasTemperatures(points: seq<(int, ValidationPoint)>) {
    forall i :: 0 <= i < |points| ==> |points[i].1.state| > 0
  }

  /** The keys `getData` lists: the points with `tlo <= T <= thi`, in order. */
  function Listed(points: seq<(int, ValidationPoint)>, tlo: Limit, thi: Limit): (r: seq<int>)
    requires HasTemperatures(points)
    decreases |points|
  {
    if |points| == 0 then []
    else
      var front := Listed(points[..|points| - 1], tlo, thi);
      var (key, p) := points[|points| - 1];
      if AtLeast(p.state[0], tlo) && AtMost(p.state[0], thi) then front + [key] else front
  }

  /** With distinct keys, a key is listed exactly when its point's
      temperature lies between the bounds. */
  lemma {:induction false} ListedExactly(points: seq<(int, ValidationPoint)>, tlo: Limit, thi: Limit, i: nat)
    requires HasTemperatures(points) && Distinct(KeysOf(points)) && i < |points|
    ensures points[i].0 in Listed(points, tlo, thi) <==>
      AtLeast(points[i].1.state[0], tlo) && AtMost(points[i].1.state[0], thi)
    decreases |points|
  {
    var front := points[..|points| - 1];
    assert KeysOf(front) == KeysOf(points)[..|points| - 1];
    ListedKeys(front, tlo, thi);
    if i < |points| - 1 {
      ListedExactly(front, tlo, thi, i);
      assert KeysOf(points)[i] != KeysOf(points)[|points| - 1];
    } else {
      assert points[i].0 !in KeysOf(front);
    }
  }

  /** Every listed key is a key of the dictionary. */
  lemma {:induction false} ListedKeys(points: seq<(int, ValidationPoint)>, tlo: Limit, thi: Limit)
    requires HasTemperatures(points)
    ensures forall k :: k in Listed(points, tlo, thi) ==> k in KeysOf(points)
    decreases |points|
  {
    if |points| > 0 {
      var front := points[..|points| - 1];
      ListedKeys(front, tlo, thi);
      assert KeysOf(front) == KeysOf(points)[..|points| - 1];
    }
  }

  /** Without bounds every point is listed, in dictionary order. */
  lemma {:induction false} UnfilteredListsAll(points: seq<(int, ValidationPoint)>)
    requires HasTemperatures(points)
    ensures Listed(points, NegInf, PosInf) == KeysOf(points)
    decreases |points|
  {
    if |points| > 0 {
      UnfilteredListsAll(points[..|points| - 1]);
      assert KeysOf(points) == KeysOf(points[..|points| - 1]) + [points[|points| - 1].0];
    }
  }

  /** The filter and list of the older `EditDataWindow`. */
  class EditDataWindow {
    const store: PointStore
    var tlo: Limit
    var thi: Limit
    var data: seq<int>

    /** The window opens unfiltered. */
    constructor(store: PointStore)
      requires HasTemperatures(store.points)
      ensures this.store == store && tlo == NegInf && thi == PosInf
      ensures data == KeysOf(store.points)
    {
      this.store := store;
      tlo, thi := NegInf, PosInf;
      new;
      GetData();
      UnfilteredListsAll(store.points);
    }

    /** `getData`: rebuild the list from the shared dictionary. */
    method GetData()
      requires HasTemperatures(store.points)
      modifies this
      ensures tlo == old(tlo) && thi == old(thi)
      ensures data == Listed(store.points, tlo, thi)
    {
      var points := store.points;
      data := [];
      for i := 0 to |points|
        invariant tlo == old(tlo) && thi == old(thi)
        invariant data == Listed(points[..i], tlo, thi)
      {
        assert points[..i + 1][..i] == points[..i];
        var t := points[i].1.state[0];
        if AtLeast(t, tlo) && AtMost(t, thi) {
          data := data + [points[i].0];
        }
      }
      assert points[..|points|] == points;
    }

    /** 'Apply Filter': a blank bound is infinite; a bound that does not parse
        ends the event there, after the lower bound may already have been
        taken. The list is rebuilt only when both bounds were read. */
    method ApplyFilter(low: Field<real>, high: Field<real>)
      requires HasTemperatures(store.points)
      modifies this
      ensures low.Unparseable? ==> tlo == old(tlo) && thi == old(thi) && data == old(data)
      ensures !low.Unparseable? ==> tlo == (if low.Parsed? then Finite(low.value) else NegInf)
      ensures !low.Unparseable? && high.Unparseable? ==> thi == old(thi) && data == old(data)
      ensures !low.Unparseable? && !high.Unparseable? ==>
        thi == (if high.Parsed? then Finite(high.value) else PosInf)
        && data == Listed(store.points, tlo, thi)
    {
      match low {
        case Parsed(v) => tlo := Finite(v);
        case Blank => tlo := NegInf;
        case Unparseable => return;
      }
      match high {
        case Parsed(v) => thi := Finite(v);
        case Blank => thi := PosInf;
        case Unparseable => return;
      }
      GetData();
    }
  }

  /** A key of a newer validation set: 'type', or a point number. */
  datatype SetKey = TypeKey | Index(i: int)

  /** A value of a newer validation set: the 'type' text, or a point. */
  datatype SetValue<P> = Kind(name: string) | Member(point: P)

  /** The rekeyed set of the loaded dictionary `loaded`: entries of 'type'
      keep their place under `TypeKey`, the others are numbered from 0 in
      order, and a set without 'type' gets 'point' last. */
  function RekeyedSet<P>(loaded: seq<(string, SetValue<P>)>): seq<(SetKey, SetValue<P>)> {
    var numbered := Renumbered(loaded, 0);
    if "type" in KeysOf(loaded) then numbered else numbered + [(TypeKey, Kind("point"))]
  }

  /** Entries from `i` on, numbered from `i - #types before` on. */
  function Renumbered<P>(loaded: seq<(string, SetValue<P>)>, next: int): seq<(SetKey, SetValue<P>)>
    decreases |loaded|
  {
    if |loaded| == 0 then []
    else if loaded[0].0 == "type" then [(TypeKey, loaded[0].1)] + Renumbered(loaded[1..], next)
    else [(Index(next), loaded[0].1)] + Renumbered(loaded[1..], next + 1)
  }

  /** The entries of a set other than 'type'. */
  function Members<K(==), V>(d: seq<(K, V)>, skip: K): seq<V>
    decreases |d|
  {
    if |d| == 0 then [] else (if d[0].0 == skip then [] else [d[0].1]) + Members(d[1..], skip)
  }

  /** The numbered keys, read in order, are `next`, `next + 1`, ... */
  function IndexKeys<P>(d: seq<(SetKey, SetValue<P>)>): seq<int>
    decreases |d|
  {
    if |d| == 0 then [] else (if d[0].0.Index? then [d[0].0.i] else []) + IndexKeys(d[1..])
  }

  function Range(from: int, count: nat): (r: seq<int>)
    ensures |r| == count && forall i :: 0 <= i < count ==> r[i] == from + i
  {
    seq(count, i requires 0 <= i < count => from + i)
  }

  /** Renumbering keeps every loaded value in order, numbers the non-'type'
      entries consecutively and keeps the 'type' entries. */
  lemma RenumberedFacts<P>(loaded: seq<(string, SetValue<P>)>, next: int)
    ensures |Renumbered(loaded, next)| == |loaded|
    ensures ValuesOf(Renumbered(loaded, next)) == ValuesOf(loaded)
    ensures Members(Renumbered(loaded, next), TypeKey) == Members(loaded, "type")
    ensures IndexKeys(Renumbered(loaded, next)) == Range(next, |Members(loaded, "type")|)
    ensures (TypeKey in KeysOf(Renumbered(loaded, next))) <==> "type" in KeysOf(loaded)
  {
    RenumberedValues(loaded, next);
    RenumberedMembers(loaded, next);
    RenumberedIndexKeys(loaded, next);
    RenumberedTypeKey(loaded, next);
  }

  lemma {:induction false} RenumberedValues<P>(loaded: seq<(string, SetValue<P>)>, next: int)
    ensures |Renumbered(loaded, next)| == |loaded|
    ensures ValuesOf(Renumbered(loaded, next)) == ValuesOf(loaded)
    decreases |loaded|
  {
    if |loaded| > 0 {
      var r := Renumbered(loaded, next);
      var next' := if loaded[0].0 == "type" then next else next + 1;
      RenumberedValues(loaded[1..], next');
      assert r[1..] == Renumbered(loaded[1..], next');
      assert ValuesOf(loaded) == [loaded[0].1] + ValuesOf(loaded[1..]);
      assert ValuesOf(r) == [r[0].1] + ValuesOf(r[1..]);
    }
  }

  lemma {:induction false} RenumberedMembers<P>(loaded: seq<(string, SetValue<P>)>, next: int)
    ensures Members(Renumbered(loaded, next), TypeKey) == Members(loaded, "type")
    decreases |loaded|
  {
    if |loaded| > 0 {
      var r := Renumbered(loaded, next);
      var next' := if loaded[0].0 == "type" then next else next + 1;
      RenumberedMembers(loaded[1..], next');
      assert r[1..] == Renumbered(loaded[1..], next');
    }
  }

  lemma {:induction false} RenumberedIndexKeys<P>(loaded: seq<(string, SetValue<P>)>, next: int)
    ensures IndexKeys(Renumbered(loaded, next)) == Range(next, |Members(loaded, "type")|)
    decreases |loaded|
  {
    if |loaded| > 0 {
      var r := Renumbered(loaded, next);
      if loaded[0].0 == "type" {
        RenumberedIndexKeys(loaded[1..], next);
        assert r[1..] == Renumbered(loaded[1..], next);
      } else {
        RenumberedIndexKeys(loaded[1..], next + 1);
        assert r[1..] == Renumbered(loaded[1..], next + 1);
        assert Range(next, |Members(loaded, "type")|) == [next] + Range(next + 1, |Members(loaded[1..], "type")|);
      }
    }
  }

  lemma {:induction false} RenumberedTypeKey<P>(loaded: seq<(string, SetValue<P>)>, next: int)
    ensures (TypeKey in KeysOf(Renumbered(loaded, next))) <==> "type" in KeysOf(loaded)
    decreases |loaded|
  {
    if |loaded| > 0 {
      var r := Renumbered(loaded, next);
      var next' := if loaded[0].0 == "type" then next else next + 1;
      RenumberedTypeKey(loaded[1..], next');
      assert r[1..] == Renumbered(loaded[1..], next');
      InKeysCons(loaded, "type");
      InKeysCons(r, TypeKey);
    }
  }

  /** The rekeyed set holds the loaded points in order, numbered 0..k-1,
      and always has a 'type' entry, which is 'point' unless one was
      loaded. */
  lemma RekeyedSetFacts<P>(loaded: seq<(string, SetValue<P>)>)
    ensures Members(RekeyedSet(loaded), TypeKey) == Members(loaded, "type")
    ensures IndexKeys(RekeyedSet(loaded)) == Range(0, |Members(loaded, "type")|)
    ensures TypeKey in KeysOf(RekeyedSet(loaded))
    ensures "type" !in KeysOf(loaded) ==> Get(RekeyedSet(loaded), TypeKey) == Some(Kind("point"))
  {
    var numbered := Renumbered(loaded, 0);
    RenumberedFacts(loaded, 0);
    if "type" !in KeysOf(loaded) {
      var r := numbered + [(TypeKey, Kind("point"))];
      AppendMembers(numbered, (TypeKey, Kind("point")), TypeKey);
      AppendIndexKeys(numbered, (TypeKey, Kind("point")));
      assert KeysOf(r) == KeysOf(numbered) + [TypeKey];
      assert IndexOf(KeysOf(r), TypeKey) == |numbered|;
    }
  }

  lemma {:induction false} AppendMembers<K, V>(d: seq<(K, V)>, e: (K, V), skip: K)
    requires e.0 == skip
    ensures Members(d + [e], skip) == Members(d, skip)
    decreases |d|
  {
    if |d| > 0 {
      assert (d + [e])[1..] == d[1..] + [e];
      AppendMembers(d[1..], e, skip);
    } else {
      assert Members([e], skip) == [] + Members<K, V>([], skip);
    }
  }

  lemma {:induction false} AppendIndexKeys<P>(d: seq<(SetKey, SetValue<P>)>, e: (SetKey, SetValue<P>))
    requires e.0 == TypeKey
    ensures IndexKeys(d + [e]) == IndexKeys(d)
    decreases |d|
  {
    if |d| > 0 {
      assert (d + [e])[1..] == d[1..] + [e];
      AppendIndexKeys(d[1..], e);
    } else {
      assert IndexKeys([e]) == [] + IndexKeys<P>([]);
    }
  }

  /** What `json.load` gives: one dictionary or a list of them. */
  datatype LoadedFile<P> = Single(d: seq<(string, SetValue<P>)>) | Several(ds: seq<seq<(string, SetValue<P>)>>)

  /** `if isinstance(newVal, dict): newVal = [newVal]`. */
  function AsList<P>(f: LoadedFile<P>): seq<seq<(string, SetValue<P>)>> {
    match f
    case Single(d) => [d]
    case Several(ds) => ds
  }

  /** The sets that loading appends: the non-empty ones, rekeyed, in order. */
  function LoadedSets<P>(ds: seq<seq<(string, SetValue<P>)>>): seq<seq<(SetKey, SetValue<P>)>>
    decreases |ds|
  {
    if |ds| == 0 then []
    else
      var front := LoadedSets(ds[..|ds| - 1]);
      if |ds[|ds| - 1]| > 0 then front + [RekeyedSet(ds[|ds| - 1])] else front
  }

  /** Every appended set comes from a non-empty loaded one and has a 'type'
      entry; there is one per non-empty loaded set. */
  lemma {:induction false} LoadedSetsFacts<P>(ds: seq<seq<(string, SetValue<P>)>>)
    ensures forall s :: s in LoadedSets(ds) ==> TypeKey in KeysOf(s)
    ensures forall s :: s in LoadedSets(ds) ==> exists d :: d in ds && |d| > 0 && s == RekeyedSet(d)
    ensures |LoadedSets(ds)| == |set i | 0 <= i < |ds| && |ds[i]| > 0|
    decreases |ds|
  {
    if |ds| > 0 {
      var front := ds[..|ds| - 1];
      LoadedSetsFacts(front);
      RekeyedSetFacts(ds[|ds| - 1]);
      forall s | s in LoadedSets(front) ensures exists d :: d in ds && |d| > 0 && s == RekeyedSet(d) {
        var d :| d in front && |d| > 0 && s == RekeyedSet(d);
        assert d in ds;
      }
      var all := set i | 0 <= i < |ds| && |ds[i]| > 0;
      var before := set i | 0 <= i < |front| && |front[i]| > 0;
      if |ds[|ds| - 1]| > 0 {
        assert all == before + {|ds| - 1};
      } else {
        assert all == before;
      }
    }
  }

  /** The list of validation sets of the newer program. */
  class ValidationSets<P> {
    var sets: seq<seq<(SetKey, SetValue<P>)>>

    constructor()
      ensures sets == []
    {
      sets := [];
    }

    /** `loadValidation`: each non-empty loaded set, rekeyed, is appended. */
    method LoadValidation(newVal: LoadedFile<P>)
      modifies this
      ensures sets == old(sets) + LoadedSets(AsList(newVal))
    {
      var ds := AsList(newVal);
      for n := 0 to |ds|
        invariant sets == old(sets) + LoadedSets(ds[..n])
      {
        assert ds[..n + 1][..n] == ds[..n];
        var newPoints := ds[n];
        if |newPoints| > 0 {
          var rekeyed := Rekey(newPoints);
          sets := sets + [rekeyed];
        }
      }
      assert ds[..|ds|] == ds;
    }
  }

  /** The rekeying loop over the keys of one loaded dictionary. */
  method Rekey<P>(newPoints: seq<(string, SetValue<P>)>) returns (rekeyedPoints: seq<(SetKey, SetValue<P>)>)
    ensures rekeyedPoints == RekeyedSet(newPoints)
  {
    rekeyedPoints := [];
    var i := 0;
    for n := 0 to |newPoints|
      invariant rekeyedPoints + Renumbered(newPoints[n..], i) == Renumbered(newPoints, 0)
    {
      assert newPoints[n..][1..] == newPoints[n + 1..];
      if newPoints[n].0 == "type" {
        AppendAssoc(rekeyedPoints, [(TypeKey, newPoints[n].1)], Renumbered(newPoints[n + 1..], i));
        rekeyedPoints := rekeyedPoints + [(TypeKey, newPoints[n].1)];
      } else {
        AppendAssoc(rekeyedPoints, [(Index(i), newPoints[n].1)], Renumbered(newPoints[n + 1..], i + 1));
        rekeyedPoints := rekeyedPoints + [(Index(i), newPoints[n].1)];
        i := i + 1;
      }
    }
    assert rekeyedPoints == Renumbered(newPoints, 0);
    RenumberedTypeKey(newPoints, 0);
    if TypeKey !in KeysOf(rekeyedPoints) {
      rekeyedPoints := rekeyedPoints + [(TypeKey, Kind("point"))];
    }
  }
}
