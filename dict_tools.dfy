/** `getParallelDictValues` and `getDictKeyString` of python/dictTools.py over
    nested dictionaries. A dictionary is a `Node` whose entries keep insertion
    order; anything that is not a dictionary is a `Leaf`. */
module DictTools {
  import opened Common

  datatype Tree<T> = Leaf(value: T) | Node(entries: seq<Entry<T>>)
  datatype Entry<T> = Entry(key: string, child: Tree<T>)

  function Keys<T>(es: seq<Entry<T>>): (ks: seq<string>)
    ensures |ks| == |es| && forall i :: 0 <= i < |es| ==> ks[i] == es[i].key
  {
    seq(|es|, i requires 0 <= i < |es| => es[i].key)
  }

  /** Python dictionaries never repeat a key, at any level. */
  predicate WellFormed<T>(v: Tree<T>)
    decreases v
  {
    match v
    case Leaf(_) => true
    case Node(es) => Distinct(Keys(es)) && forall i :: 0 <= i < |es| ==> WellFormed(es[i].child)
  }

  /** `d[key]`: the value stored under `key`, if any. */
  function Find<T>(es: seq<Entry<T>>, key: string): (r: Option<Tree<T>>)
    ensures r.Some? <==> key in Keys(es)
  {
    if |es| == 0 then None
    else if es[0].key == key then Some(es[0].child)
    else
      var r := Find(es[1..], key);
      assert Keys(es) == [es[0].key] + Keys(es[1..]);
      r
  }

  /** In a dictionary without repeated keys, looking up an entry's own key
      finds that entry. */
  lemma {:induction false} FindOwnKey<T>(es: seq<Entry<T>>, i: nat)
    requires i < |es| && Distinct(Keys(es))
    ensures Find(es, es[i].key) == Some(es[i].child)
  {
    if i > 0 {
      assert Keys(es)[0] == es[0].key && Keys(es)[i] == es[i].key;
      assert Keys(es[1..]) == Keys(es)[1..];
      assert es[1..][i - 1] == es[i];
      FindOwnKey(es[1..], i - 1);
    }
  }

  /** `measured` has every key of `validation` at every dictionary level, so
      that every `measured[key]` of the traversal succeeds. */
  predicate Covers<T>(validation: Tree<T>, measured: Tree<T>)
    decreases validation
  {
    match validation
    case Leaf(_) => true
    case Node(es) =>
      measured.Node? && forall i :: 0 <= i < |es| ==>
        Find(measured.entries, es[i].key).Some? && Covers(es[i].child, Find(measured.entries, es[i].key).value)
  }

  /** A dictionary covers itself. */
  lemma {:induction false} CoversItself<T>(v: Tree<T>)
    requires WellFormed(v)
    ensures Covers(v, v)
    decreases v
  {
    match v
    case Leaf(_) =>
    case Node(es) =>
      forall i | 0 <= i < |es|
        ensures Find(es, es[i].key).Some? && Covers(es[i].child, Find(es, es[i].key).value)
      {
        FindOwnKey(es, i);
        CoversItself(es[i].child);
      }
  }

  /** The sequences of `ss` one after another. */
  function Concat<X>(ss: seq<seq<X>>): (r: seq<X>)
    decreases |ss|
  {
    if |ss| == 0 then [] else Concat(ss[..|ss| - 1]) + ss[|ss| - 1]
  }

  lemma ConcatSnoc<X>(ss: seq<seq<X>>, i: nat)
    requires i < |ss|
    ensures Concat(ss[..i + 1]) == Concat(ss[..i]) + ss[i]
  {
    assert ss[..i + 1][..i] == ss[..i];
  }

  function Map<X, Y>(f: X -> Y, s: seq<X>): (r: seq<Y>)
    ensures |r| == |s| && forall i :: 0 <= i < |s| ==> r[i] == f(s[i])
  {
    seq(|s|, i requires 0 <= i < |s| => f(s[i]))
  }

  /** Mapping the concatenation is concatenating the mapped parts. */
  lemma {:induction false} MapConcat<X, Y>(f: X -> Y, ss: seq<seq<X>>)
    ensures Map(f, Concat(ss)) == Concat(Map(s => Map(f, s), ss))
    decreases |ss|
  {
    if |ss| > 0 {
      var front := ss[..|ss| - 1];
      MapConcat(f, front);
      assert Map(s => Map(f, s), ss)[..|ss| - 1] == Map(s => Map(f, s), front);
      assert Map(f, Concat(front) + ss[|ss| - 1]) == Map(f, Concat(front)) + Map(f, ss[|ss| - 1]);
    }
  }

  /** The key paths of the leaves, depth first in insertion order. */
  function Paths<T>(v: Tree<T>): seq<seq<string>>
    decreases v
  {
    match v
    case Leaf(_) => [[]]
    case Node(es) =>
      Concat(seq(|es|, i requires 0 <= i < |es| => Map((p: seq<string>) => [es[i].key] + p, Paths(es[i].child))))
  }

  /** The leaves, depth first in insertion order. */
  function Leaves<T>(v: Tree<T>): seq<T>
    decreases v
  {
    match v
    case Leaf(x) => [x]
    case Node(es) => Concat(seq(|es|, i requires 0 <= i < |es| => Leaves(es[i].child)))
  }

  /** Following a key path into a tree. */
  function At<T>(m: Tree<T>, path: seq<string>): Option<Tree<T>>
    decreases |path|
  {
    if |path| == 0 then Some(m)
    else if m.Leaf? then None
    else
      match Find(m.entries, path[0])
      case None => None
      case Some(child) => At(child, path[1..])
  }

  /** What `getParallelDictValues(validation, measured, values)` appends: for
      each leaf of `validation`, the part of `measured` under the same keys. */
  function Parallel<T>(validation: Tree<T>, measured: Tree<T>): seq<Tree<T>>
    requires Covers(validation, measured)
    decreases validation
  {
    match validation
    case Leaf(_) => [measured]
    case Node(es) =>
      Concat(seq(|es|, i requires 0 <= i < |es| =>
        Parallel(es[i].child, Find(measured.entries, es[i].key).value)))
  }

  /** `f'{activeString}: {key}'`, or just the key when `activeString` is empty. */
  function Extend(active: string, key: string): (s: string)
    ensures |active| == 0 ==> s == key
    ensures |active| > 0 ==> s == active + ": " + key
  {
    if |active| > 0 then active + ": " + key else key
  }

  /** The keys of a path joined onto `active`. */
  function Joined(active: string, path: seq<string>): string
    decreases |path|
  {
    if |path| == 0 then active else Joined(Extend(active, path[0]), path[1..])
  }

  /** What `getDictKeyString(dictionary, activeString, allStrings)` appends. */
  function KeyStrings<T>(v: Tree<T>, active: string): seq<string>
    decreases v
  {
    match v
    case Leaf(_) => [active]
    case Node(es) => Concat(seq(|es|, i requires 0 <= i < |es| => KeyStrings(es[i].child, Extend(active, es[i].key))))
  }

  /** Each value `getParallelDictValues` appends is `measured` at the key path
      of the corresponding leaf of `validation`. */
  lemma {:induction false} ParallelFollowsPaths<T>(validation: Tree<T>, measured: Tree<T>)
    requires Covers(validation, measured)
    ensures Map((p: seq<string>) => At(measured, p), Paths(validation)) == Map(t => Some(t), Parallel(validation, measured))
    decreases validation
  {
    match validation
    case Leaf(_) =>
    case Node(es) =>
      var at := (p: seq<string>) => At(measured, p);
      var some := (t: Tree<T>) => Some(t);
      var prefixed := seq(|es|, i requires 0 <= i < |es| => Map((p: seq<string>) => [es[i].key] + p, Paths(es[i].child)));
      var parts := seq(|es|, i requires 0 <= i < |es| => Parallel(es[i].child, Find(measured.entries, es[i].key).value));
      MapConcat(at, prefixed);
      MapConcat(some, parts);
      forall i | 0 <= i < |es| ensures Map(at, prefixed[i]) == Map(some, parts[i]) {
        var sub := Find(measured.entries, es[i].key).value;
        ParallelFollowsPaths(es[i].child, sub);
        forall j | 0 <= j < |prefixed[i]| ensures at(prefixed[i][j]) == At(sub, Paths(es[i].child)[j]) {
          var p := Paths(es[i].child)[j];
          assert ([es[i].key] + p)[1..] == p;
        }
      }
      assert Map(s => Map(at, s), prefixed) == Map(s => Map(some, s), parts);
  }

  /** Each string `getDictKeyString` appends is the key path of the
      corresponding leaf joined with ": " onto `activeString`. */
  lemma {:induction false} KeyStringsFollowPaths<T>(v: Tree<T>, active: string)
    ensures KeyStrings(v, active) == Map((p: seq<string>) => Joined(active, p), Paths(v))
    decreases v
  {
    match v
    case Leaf(_) =>
    case Node(es) =>
      var join := (p: seq<string>) => Joined(active, p);
      var prefixed := seq(|es|, i requires 0 <= i < |es| => Map((p: seq<string>) => [es[i].key] + p, Paths(es[i].child)));
      var parts := seq(|es|, i requires 0 <= i < |es| => KeyStrings(es[i].child, Extend(active, es[i].key)));
      MapConcat(join, prefixed);
      forall i | 0 <= i < |es| ensures Map(join, prefixed[i]) == parts[i] {
        KeyStringsFollowPaths(es[i].child, Extend(active, es[i].key));
        forall j | 0 <= j < |prefixed[i]|
          ensures join(prefixed[i][j]) == Joined(Extend(active, es[i].key), Paths(es[i].child)[j])
        {
          var p := Paths(es[i].child)[j];
          assert ([es[i].key] + p)[1..] == p;
        }
      }
      assert Map(s => Map(join, s), prefixed) == parts;
  }

  /** When `measured` is `validation` itself, the appended values are exactly
      its leaves in order: a flatten. */
  lemma {:induction false} ParallelWithItselfFlattens<T>(v: Tree<T>)
    requires WellFormed(v)
    ensures Covers(v, v)
    ensures Parallel(v, v) == Map(x => Leaf(x), Leaves(v))
    decreases v
  {
    CoversItself(v);
    match v
    case Leaf(_) =>
    case Node(es) =>
      var leaf := (x: T) => Leaf(x);
      var parts := seq(|es|, i requires 0 <= i < |es| => Leaves(es[i].child));
      MapConcat(leaf, parts);
      forall i | 0 <= i < |es|
        ensures Parallel(es[i].child, Find(es, es[i].key).value) == Map(leaf, parts[i])
      {
        FindOwnKey(es, i);
        ParallelWithItselfFlattens(es[i].child);
      }
      assert seq(|es|, i requires 0 <= i < |es| => Parallel(es[i].child, Find(es, es[i].key).value))
          == Map(s => Map(leaf, s), parts);
  }

  /** Both functions append one entry per leaf. */
  lemma {:induction false} OnePerLeaf<T>(validation: Tree<T>, measured: Tree<T>, active: string)
    requires Covers(validation, measured)
    ensures |Parallel(validation, measured)| == |Paths(validation)|
    ensures |KeyStrings(validation, active)| == |Paths(validation)|
  {
    ParallelFollowsPaths(validation, measured);
    KeyStringsFollowPaths(validation, active);
  }

  /** `getParallelDictValues`: the caller's list `values` is threaded through
      and comes back with the parallel values appended. */
  method GetParallelDictValues<T>(validation: Tree<T>, measured: Tree<T>, values: seq<Tree<T>>)
    returns (appended: seq<Tree<T>>)
    requires Covers(validation, measured)
    ensures appended == values + Parallel(validation, measured)
    decreases validation, 1
  {
    if validation.Leaf? {
      appended := values + [measured];
    } else {
      appended := ParallelEntries(validation, measured, values);
    }
  }

  /** The `for key in validation.keys()` loop of `getParallelDictValues`. */
  method ParallelEntries<T>(validation: Tree<T>, measured: Tree<T>, values: seq<Tree<T>>)
    returns (appended: seq<Tree<T>>)
    requires validation.Node? && Covers(validation, measured)
    ensures appended == values + Parallel(validation, measured)
    decreases validation, 0
  {
    var es := validation.entries;
    ghost var parts := seq(|es|, i requires 0 <= i < |es| =>
      Parallel(es[i].child, Find(measured.entries, es[i].key).value));
    appended := values;
    for i := 0 to |es|
      invariant appended == values + Concat(parts[..i])
    {
      ConcatSnoc(parts, i);
      AppendAssoc(values, Concat(parts[..i]), parts[i]);
      var sub := Find(measured.entries, es[i].key).value;
      appended := GetParallelDictValues(es[i].child, sub, appended);
    }
    assert parts[..|es|] == parts;
  }

  /** `getDictKeyString`: the caller's list `allStrings` is threaded through
      and comes back with the key strings appended. */
  method GetDictKeyString<T>(dictionary: Tree<T>, activeString: string, allStrings: seq<string>)
    returns (appended: seq<string>)
    ensures appended == allStrings + KeyStrings(dictionary, activeString)
    decreases dictionary, 1
  {
    if dictionary.Leaf? {
      appended := allStrings + [activeString];
    } else {
      appended := KeyStringEntries(dictionary, activeString, allStrings);
    }
  }

  /** The `for key in dictionary.keys()` loop of `getDictKeyString`. */
  method KeyStringEntries<T>(dictionary: Tree<T>, activeString: string, allStrings: seq<string>)
    returns (appended: seq<string>)
    requires dictionary.Node?
    ensures appended == allStrings + KeyStrings(dictionary, activeString)
    decreases dictionary, 0
  {
    var es := dictionary.entries;
    ghost var parts := seq(|es|, i requires 0 <= i < |es| => KeyStrings(es[i].child, Extend(activeString, es[i].key)));
    appended := allStrings;
    for i := 0 to |es|
      invariant appended == allStrings + Concat(parts[..i])
    {
      ConcatSnoc(parts, i);
      AppendAssoc(allStrings, Concat(parts[..i]), parts[i]);
      if |activeString| > 0 {
        appended := GetDictKeyString(es[i].child, activeString + ": " + es[i].key, appended);
      } else {
        appended := GetDictKeyString(es[i].child, es[i].key, appended);
      }
    }
    assert parts[..|es|] == parts;
  }

  /** A non-dictionary root appends `activeString` unchanged; an empty
      dictionary appends nothing. */
  lemma RootCases<T>(x: T, active: string)
    ensures KeyStrings(Leaf(x), active) == [active]
    ensures KeyStrings<T>(Node([]), active) == []
  {
  }
}
