/** Stable sorting of the indices of a list by its keys, as Python's `sorted` does.

    The sort is kept as an ordering together with its inverse, built one key at a time, so that
    both the crowding distance and the choice of parents can ask for the rank of an index. */
module Orderings {
  /** Keys of the two sorts in the optimiser: reals, and negated infinite distances. */
  datatype Key = MinusInfinity | Real(value: real) {
    predicate AtMost(other: Key) {
      MinusInfinity? || (other.Real? && value <= other.value)
    }
  }

  /** `order` lists the indices of `keys` in key order, and `place` is its inverse. */
  ghost predicate IsOrdering(order: seq<nat>, place: seq<nat>, keys: seq<Key>) {
    && |order| == |place| == |keys|
    && (forall a | 0 <= a < |order| :: order[a] < |place| && place[order[a]] == a)
    && (forall p | 0 <= p < |place| :: place[p] < |order| && order[place[p]] == p)
    && (forall a, b {:trigger keys[order[a]].AtMost(keys[order[b]])} | 0 <= a <= b < |order| ::
      keys[order[a]].AtMost(keys[order[b]]))
  }

  /** The number of leading elements that the key `x` does not precede. */
  function Slot(order: seq<nat>, keys: seq<Key>, x: Key): (k: nat)
    requires forall a | 0 <= a < |order| :: order[a] < |keys|
    ensures k <= |order|
    ensures forall a | 0 <= a < k :: keys[order[a]].AtMost(x)
    ensures k < |order| ==> !keys[order[k]].AtMost(x)
  {
    if order == [] || !keys[order[0]].AtMost(x) then 0 else 1 + Slot(order[1..], keys, x)
  }

  /** Where the old elements go when a new one takes slot `k`. */
  function Shifted(place: seq<nat>, k: nat): (r: seq<nat>)
    ensures |r| == |place| + 1 && r[|place|] == k
    ensures forall p | 0 <= p < |place| :: r[p] == if place[p] < k then place[p] else place[p] + 1
  {
    seq(|place|, p requires 0 <= p < |place| => if place[p] < k then place[p] else place[p] + 1) + [k]
  }

  function Spliced(order: seq<nat>, k: nat, x: nat): (r: seq<nat>)
    requires k <= |order|
    ensures |r| == |order| + 1
    ensures forall a | 0 <= a < |r| :: r[a] == if a < k then order[a] else if a == k then x else order[a - 1]
  {
    order[..k] + [x] + order[k..]
  }

  lemma SpliceKeepsInverse(order: seq<nat>, place: seq<nat>, k: nat)
    requires |order| == |place| && k <= |order|
    requires forall a | 0 <= a < |order| :: order[a] < |place| && place[order[a]] == a
    requires forall p | 0 <= p < |place| :: place[p] < |order| && order[place[p]] == p
    ensures var r, q := Spliced(order, k, |order|), Shifted(place, k);
      && (forall a | 0 <= a < |r| :: r[a] < |q| && q[r[a]] == a)
      && (forall p | 0 <= p < |q| :: q[p] < |r| && r[q[p]] == p)
  {
  }

  lemma SpliceKeepsSorted(order: seq<nat>, keys: seq<Key>, x: Key)
    requires |order| == |keys| && forall a | 0 <= a < |order| :: order[a] < |keys|
    requires forall a, b {:trigger keys[order[a]].AtMost(keys[order[b]])} | 0 <= a <= b < |order| ::
      keys[order[a]].AtMost(keys[order[b]])
    ensures var r, all := Spliced(order, Slot(order, keys, x), |keys|), keys + [x];
      forall a, b {:trigger all[r[a]].AtMost(all[r[b]])} | 0 <= a <= b < |r| ::
        r[a] < |all| && r[b] < |all| && all[r[a]].AtMost(all[r[b]])
  {
    var k := Slot(order, keys, x);
    forall c | k <= c < |order| ensures x.AtMost(keys[order[c]]) {
      assert keys[order[k]].AtMost(keys[order[c]]);
    }
    var r, all := Spliced(order, k, |keys|), keys + [x];
    forall a, b | 0 <= a <= b < |r| ensures r[a] < |all| && r[b] < |all| && all[r[a]].AtMost(all[r[b]]) {
      if a != k && b != k {
        var c, d := if a < k then a else a - 1, if b < k then b else b - 1;
        assert keys[order[c]].AtMost(keys[order[d]]);
      }
    }
  }

  lemma InsertKeepsOrdering(order: seq<nat>, place: seq<nat>, keys: seq<Key>, x: Key)
    requires IsOrdering(order, place, keys)
    ensures var k := Slot(order, keys, x);
      IsOrdering(Spliced(order, k, |keys|), Shifted(place, k), keys + [x])
  {
    var k := Slot(order, keys, x);
    SpliceKeepsInverse(order, place, k);
    SpliceKeepsSorted(order, keys, x);
  }

  /** The indices in key order, equal keys in index order, and the place of each index. */
  function SortIndices(keys: seq<Key>): (r: (seq<nat>, seq<nat>))
    ensures IsOrdering(r.0, r.1, keys)
  {
    if keys == [] then ([], [])
    else
      var known, x := keys[..|keys| - 1], keys[|keys| - 1];
      var (order, place) := SortIndices(known);
      InsertKeepsOrdering(order, place, known, x);
      assert keys == known + [x];
      (Spliced(order, Slot(order, known, x), |known|), Shifted(place, Slot(order, known, x)))
  }
}
