/** Python dictionaries as the code uses them: entries in insertion order,
    `d[k] = v` replacing an entry in place or adding it last, and
    `d.update(e)` doing that for each entry of `e` in turn. */
module OrderedDicts {
  import opened Common

  function KeysOf<K, V>(d: seq<(K, V)>): (ks: seq<K>)
    ensures |ks| == |d| && forall i :: 0 <= i < |d| ==> ks[i] == d[i].0
  {
    seq(|d|, i requires 0 <= i < |d| => d[i].0)
  }

  function ValuesOf<K, V>(d: seq<(K, V)>): (vs: seq<V>)
    ensures |vs| == |d| && forall i :: 0 <= i < |d| ==> vs[i] == d[i].1
  {
    seq(|d|, i requires 0 <= i < |d| => d[i].1)
  }

  lemma KeysOfConcat<K, V>(d: seq<(K, V)>, e: seq<(K, V)>)
    ensures KeysOf(d + e) == KeysOf(d) + KeysOf(e)
  {
  }

  /** A key is in a non-empty dictionary when it is the first key or a key
      of the rest. */
  lemma InKeysCons<K, V>(d: seq<(K, V)>, k: K)
    requires |d| > 0
    ensures k in KeysOf(d) <==> d[0].0 == k || k in KeysOf(d[1..])
  {
    assert KeysOf(d) == [d[0].0] + KeysOf(d[1..]);
  }

  /** `d.get(k)`: the value of the first entry with key `k`. */
  function Get<K(==), V>(d: seq<(K, V)>, k: K): (r: Option<V>)
    ensures r.Some? <==> k in KeysOf(d)
    ensures r.Some? ==> d[IndexOf(KeysOf(d), k)].1 == r.value
  {
    if k in KeysOf(d) then Some(d[IndexOf(KeysOf(d), k)].1) else None
  }

  /** `d[k] = v`. */
  function Put<K(==), V>(d: seq<(K, V)>, k: K, v: V): (r: seq<(K, V)>)
  {
    if k in KeysOf(d) then seq(|d|, i requires 0 <= i < |d| => if d[i].0 == k then (k, v) else d[i])
    else d + [(k, v)]
  }

  /** After `d[k] = v` the dictionary still has no repeated key, `k` maps to
      `v`, every other key keeps its value, and the keys are the old ones
      with `k` added last when it is new. */
  lemma PutFacts<K, V>(d: seq<(K, V)>, k: K, v: V)
    requires Distinct(KeysOf(d))
    ensures Distinct(KeysOf(Put(d, k, v)))
    ensures Get(Put(d, k, v), k) == Some(v)
    ensures forall k' :: k' != k ==> Get(Put(d, k, v), k') == Get(d, k')
    ensures KeysOf(Put(d, k, v)) == if k in KeysOf(d) then KeysOf(d) else KeysOf(d) + [k]
  {
    var r := Put(d, k, v);
    if k in KeysOf(d) {
      assert KeysOf(r) == KeysOf(d);
      DistinctIndex(KeysOf(r), k, IndexOf(KeysOf(d), k));
      forall k' | k' != k && k' in KeysOf(d) ensures Get(r, k') == Get(d, k') {
        DistinctIndex(KeysOf(r), k', IndexOf(KeysOf(d), k'));
      }
    } else {
      assert KeysOf(r) == KeysOf(d) + [k];
      forall k' | k' != k && k' in KeysOf(d) ensures Get(r, k') == Get(d, k') {
        DistinctIndex(KeysOf(r), k', IndexOf(KeysOf(d), k'));
      }
      DistinctIndex(KeysOf(r), k, |d|);
    }
  }

  /** Writing a key already present replaces its entry where it stands. */
  lemma PutExisting<K, V>(d: seq<(K, V)>, i: nat, v: V)
    requires Distinct(KeysOf(d)) && i < |d|
    ensures Put(d, d[i].0, v) == d[i := (d[i].0, v)]
  {
    assert KeysOf(d)[i] == d[i].0;
  }

  /** In a sequence without repetitions, the first occurrence of `s[i]` is
      at `i`. */
  lemma DistinctIndex<K>(s: seq<K>, x: K, i: nat)
    requires Distinct(s) && i < |s| && s[i] == x
    ensures IndexOf(s, x) == i
  {
  }

  /** `d.update(e)`. */
  function Update<K(==), V>(d: seq<(K, V)>, e: seq<(K, V)>): seq<(K, V)>
    decreases |e|
  {
    if |e| == 0 then d else Put(Update(d, e[..|e| - 1]), e[|e| - 1].0, e[|e| - 1].1)
  }

  /** When no key of `e` is in `d`, `d.update(e)` appends `e`: the entries
      already in `d` are not touched. */
  lemma {:induction false} UpdateFresh<K, V>(d: seq<(K, V)>, e: seq<(K, V)>)
    requires Distinct(KeysOf(e))
    requires forall k :: k in KeysOf(e) ==> k !in KeysOf(d)
    ensures Update(d, e) == d + e
    decreases |e|
  {
    if |e| > 0 {
      var front := e[..|e| - 1];
      assert KeysOf(front) == KeysOf(e)[..|e| - 1];
      UpdateFresh(d, front);
      var last := e[|e| - 1];
      assert last.0 == KeysOf(e)[|e| - 1];
      assert KeysOf(d + front) == KeysOf(d) + KeysOf(front);
      assert last.0 !in KeysOf(d + front);
      assert d + front + [last] == d + e;
    }
  }

  /** A key that `e` does not mention keeps its value through
      `d.update(e)`. */
  lemma {:induction false} UpdateKeeps<K, V>(d: seq<(K, V)>, e: seq<(K, V)>, k: K)
    requires Distinct(KeysOf(d)) && k !in KeysOf(e)
    ensures Distinct(KeysOf(Update(d, e)))
    ensures Get(Update(d, e), k) == Get(d, k)
    decreases |e|
  {
    if |e| > 0 {
      var front := e[..|e| - 1];
      assert KeysOf(front) == KeysOf(e)[..|e| - 1];
      UpdateKeeps(d, front, k);
      assert e[|e| - 1].0 == KeysOf(e)[|e| - 1];
      PutFacts(Update(d, front), e[|e| - 1].0, e[|e| - 1].1);
    }
  }
}
