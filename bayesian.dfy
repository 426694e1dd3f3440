/** The bound checks in front of the two `Bayesian` optimizers: the newer one
    repairs illegal bounds in place, the older one refuses to run. */
module Bayesian {
  import opened Common

  /** `tags[tag]` as `pbounds`: the search interval of one coefficient. */
  datatype Bounds = Bounds(low: real, high: real)

  predicate Legal(b: Bounds) {
    b.low < b.high
  }

  /** The newer repair of one tag: reversed bounds are swapped, equal bounds
      at zero get upper bound 7, other equal bounds get `high += |high|`. */
  function Repaired(b: Bounds): (r: Bounds)
    ensures Legal(r)
    ensures Legal(b) ==> r == b
    ensures b.low > b.high ==> r == Bounds(b.high, b.low)
    ensures b.low == b.high ==> r.low == b.low
  {
    if b.low > b.high then Bounds(b.high, b.low)
    else if b.low == b.high then
      if b.high == 0.0 then Bounds(b.low, 7.0) else Bounds(b.low, b.high + Abs(b.high))
    else b
  }

  /** Repairing is idempotent: a second pass changes nothing. */
  lemma RepairIdempotent(b: Bounds)
    ensures Repaired(Repaired(b)) == Repaired(b)
  {
  }

  /** Equal bounds are widened by a positive amount: to 7 at zero, to twice
      the bound above zero, and to zero below it. */
  lemma EqualBoundsWidened(b: Bounds)
    requires b.low == b.high
    ensures b.high == 0.0 ==> Repaired(b).high == 7.0
    ensures b.high > 0.0 ==> Repaired(b).high == 2.0 * b.high
    ensures b.high < 0.0 ==> Repaired(b).high == 0.0
  {
  }

  /** The `for tag in tags` loop of the newer `Bayesian`, rewriting each
      tag's bounds in place. */
  method RepairBounds(tags: array<Bounds>)
    modifies tags
    ensures forall k :: 0 <= k < tags.Length ==> tags[k] == Repaired(old(tags[k]))
    ensures forall k :: 0 <= k < tags.Length ==> Legal(tags[k])
  {
    for k := 0 to tags.Length
      invariant forall j :: 0 <= j < k ==> tags[j] == Repaired(old(tags[j]))
      invariant forall j :: k <= j < tags.Length ==> tags[j] == old(tags[j])
    {
      var b := tags[k];
      if b.low > b.high {
        var tempbound := b.low;
        tags[k] := Bounds(b.high, tempbound);
      } else if b.low == b.high {
        if b.high == 0.0 {
          tags[k] := Bounds(b.low, 7.0);
        } else {
          tags[k] := Bounds(b.low, b.high + Abs(b.high));
        }
      }
    }
  }

  /** The older `Bayesian` goes ahead only when every tag has low < high; it
      returns at the first tag with `low >= high`. */
  method CheckBounds(tags: seq<Bounds>) returns (ok: bool)
    ensures ok <==> forall k :: 0 <= k < |tags| ==> Legal(tags[k])
  {
    for k := 0 to |tags|
      invariant forall j :: 0 <= j < k ==> Legal(tags[j])
    {
      if tags[k].low >= tags[k].high {
        return false;
      }
    }
    return true;
  }
}
