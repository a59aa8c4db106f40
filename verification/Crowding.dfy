/** `services/optimizer/evolutionary.py`, the crowding distance of one front. */
module Crowding {
  import opened Nsga
  import opened Orderings
  import opened Arithmetic

  datatype Distance = Infinite | Finite(value: real) {
    function Plus(x: real): Distance {
      if Infinite? then Infinite else Finite(value + x)
    }

    /** Its share of the sum of the finite distances. */
    function Share(): real {
      if Infinite? then 0.0 else value
    }
  }

  /** The sum of the finite distances. */
  function FiniteSum(s: seq<Distance>): real {
    if s == [] then 0.0 else FiniteSum(s[..|s| - 1]) + s[|s| - 1].Share()
  }

  lemma {:induction false} SumOfUpdate(s: seq<Distance>, i: nat, d: Distance)
    requires i < |s|
    ensures FiniteSum(s[i := d]) == FiniteSum(s) - s[i].Share() + d.Share()
  {
    var l := |s| - 1;
    if i == l {
      assert s[i := d][..l] == s[..l];
    } else {
      assert s[i := d][..l] == s[..l][i := d];
      SumOfUpdate(s[..l], i, d);
    }
  }

  lemma {:induction false} NoSum(s: seq<Distance>)
    requires forall p | 0 <= p < |s| :: s[p].Share() == 0.0
    ensures FiniteSum(s) == 0.0
  {
    if s != [] { NoSum(s[..|s| - 1]); }
  }

  function Keyed(values: seq<real>): (r: seq<Key>)
    ensures |r| == |values| && forall i | 0 <= i < |r| :: r[i] == Real(values[i])
  {
    seq(|values|, i requires 0 <= i < |values| => Real(values[i]))
  }

  function Largest(s: seq<real>): (r: real)
    requires s != []
    ensures (exists i :: 0 <= i < |s| && s[i] == r) && forall i | 0 <= i < |s| :: s[i] <= r
  {
    if |s| == 1 then s[0]
    else
      var r := Largest(s[..|s| - 1]);
      if s[|s| - 1] > r then s[|s| - 1] else r
  }

  function Smallest(s: seq<real>): (r: real)
    requires s != []
    ensures (exists i :: 0 <= i < |s| && s[i] == r) && forall i | 0 <= i < |s| :: r <= s[i]
  {
    if |s| == 1 then s[0]
    else
      var r := Smallest(s[..|s| - 1]);
      if s[|s| - 1] < r then s[|s| - 1] else r
  }

  /** One objective's values over a front, and an order they can be sorted into. */
  datatype Arrangement = Arrangement(values: seq<real>, order: seq<nat>, place: seq<nat>) {
    ghost predicate Valid() {
      && |order| == |place| == |values|
      && IsOrdering(order, place, Keyed(values))
    }

    /** The value at place `i` of the order. */
    function At(i: nat): real
      requires i < |order| && order[i] < |values|
    {
      values[order[i]]
    }

    lemma Sorted(i: nat, j: nat)
      requires Valid() && i <= j < |values|
      ensures At(i) <= At(j)
    {
      assert Keyed(values)[order[i]].AtMost(Keyed(values)[order[j]]);
    }

    /** The largest value less the smallest one. */
    ghost function Range(): real
      requires Valid() && values != []
    {
      At(|values| - 1) - At(0)
    }

    /** What this objective does to the distance of position `p` of the front: the two ends
        of the order become infinite, the others gain the gap between their neighbours. */
    ghost function Step(p: nat, d: Distance): Distance
      requires Valid() && p < |values|
    {
      if place[p] == 0 || place[p] == |values| - 1 then Infinite
      else if Range() > 0.0 then d.Plus(Gap(place[p], Range()))
      else d
    }

    /** The normalised gap between the neighbours of place `i`. */
    ghost function Gap(i: nat, range: real): real
      requires Valid() && 0 < i < |values| - 1 && range != 0.0
    {
      (At(i + 1) - At(i - 1)) / range
    }

    /** The gaps as a function of the place, zero at the ends. */
    ghost function Gaps(range: real): nat -> real
      requires Valid() && range != 0.0
    {
      i => if Valid() && 0 < i < |values| - 1 then Gap(i, range) else 0.0
    }
  }

  lemma ExtremesAreEnds(a: Arrangement)
    requires a.values != [] && a.Valid()
    ensures Largest(a.values) - Smallest(a.values) == a.Range()
  {
    var n := |a.values|;
    var lo :| 0 <= lo < n && a.values[lo] == Smallest(a.values);
    var hi :| 0 <= hi < n && a.values[hi] == Largest(a.values);
    a.Sorted(0, a.place[lo]);
    a.Sorted(a.place[hi], n - 1);
  }

  lemma QuotientSum(a: real, b: real, y: real)
    requires y != 0.0
    ensures a / y + b / y == (a + b) / y
  {
  }

  /** The sum of the gaps at places `1 .. i`. */
  ghost function GapSum(gaps: nat -> real, i: nat): real {
    if i <= 1 then 0.0 else GapSum(gaps, i - 1) + gaps(i - 1)
  }

  lemma GapBound(a: Arrangement, i: nat, range: real)
    requires a.Valid() && 0 < i < |a.values| - 1 && a.Range() == range > 0.0
    ensures 0.0 <= a.Gap(i, range) <= 1.0
  {
    a.Sorted(0, i - 1);
    a.Sorted(i - 1, i + 1);
    a.Sorted(i + 1, |a.values| - 1);
    ShareIsUnit(a.At(i + 1) - a.At(i - 1), range);
  }

  /** Neighbouring gaps telescope to the two largest values less the two smallest ones. */
  lemma {:induction false} GapsTelescope(a: Arrangement, i: nat, range: real)
    requires a.Valid() && 0 < i < |a.values| && range != 0.0
    ensures GapSum(a.Gaps(range), i) == (a.At(i) + a.At(i - 1) - a.At(1) - a.At(0)) / range
  {
    if i > 1 {
      GapsTelescope(a, i - 1, range);
      QuotientSum(a.At(i - 1) + a.At(i - 2) - a.At(1) - a.At(0), a.At(i) - a.At(i - 2), range);
    }
  }

  lemma GapSumBound(a: Arrangement, range: real)
    requires a.Valid() && |a.values| > 2 && a.Range() == range > 0.0
    ensures GapSum(a.Gaps(range), |a.values| - 1) <= 2.0
  {
    var n := |a.values|;
    a.Sorted(0, 1);
    a.Sorted(n - 2, n - 1);
    a.Sorted(1, n - 2);
    GapsTelescope(a, n - 1, range);
    var half := (a.At(n - 1) + a.At(n - 2) - a.At(1) - a.At(0)) / 2.0;
    ShareIsUnit(half, range);
    QuotientSum(half, half, range);
  }

  ghost predicate NonNegative(s: seq<Distance>) {
    forall p | 0 <= p < |s| && s[p].Finite? :: s[p].value >= 0.0
  }

  /** The two ends of the order become infinite. */
  method MarkEnds(ghost a: Arrangement, order: seq<nat>, distances0: seq<Distance>) returns (distances: seq<Distance>)
    requires a.Valid() && |a.values| == |distances0| && a.order == order && |distances0| > 2 && NonNegative(distances0)
    ensures |distances| == |distances0| && FiniteSum(distances) <= FiniteSum(distances0)
    ensures forall p | 0 <= p < |distances| ::
      distances[p] == if a.place[p] == 0 || a.place[p] == |order| - 1 then Infinite else distances0[p]
  {
    var n := |distances0|;
    SumOfUpdate(distances0, order[0], Infinite);
    distances := distances0[order[0] := Infinite];
    SumOfUpdate(distances, order[n - 1], Infinite);
    distances := distances[order[n - 1] := Infinite];
  }

  function AddGap(s: seq<Distance>, i: nat, gap: real): (r: seq<Distance>)
    requires i < |s|
    ensures r == s[i := s[i].Plus(gap)]
    ensures gap >= 0.0 ==> FiniteSum(r) <= FiniteSum(s) + gap
  {
    SumOfUpdate(s, i, s[i].Plus(gap));
    s[i := s[i].Plus(gap)]
  }

  /** The distances once the places before `i` have their gaps. */
  ghost function Gained(place: seq<nat>, gaps: nat -> real, s: seq<Distance>, i: nat): (r: seq<Distance>)
    requires |s| == |place|
    ensures |r| == |s|
    ensures forall p | 0 <= p < |s| :: r[p] == if 0 < place[p] < i then s[p].Plus(gaps(place[p])) else s[p]
  {
    seq(|s|, p requires 0 <= p < |s| => if 0 < place[p] < i then s[p].Plus(gaps(place[p])) else s[p])
  }

  lemma GainedStep(place: seq<nat>, gaps: nat -> real, s: seq<Distance>, i: nat, p: nat)
    requires |s| == |place| && 0 < i && p < |s| && forall q | 0 <= q < |s| :: place[q] == i <==> q == p
    ensures Gained(place, gaps, s, i + 1) == AddGap(Gained(place, gaps, s, i), p, gaps(i))
  {
  }

  /** The gap at place `i`, as the inner loop computes it. */
  method GapAt(ghost a: Arrangement, values: seq<real>, order: seq<nat>, i: nat, range: real) returns (gap: real)
    requires a.Valid() && a.values == values && a.order == order && 0 < i < |values| - 1 && range > 0.0
    ensures gap == a.Gaps(range)(i)
  {
    gap := (values[order[i + 1]] - values[order[i - 1]]) / range;
  }

  /** The inner loop: each point that is not an end gains its own gap, and no other. */
  method AddGaps(ghost a: Arrangement, ghost gaps: nat -> real, values: seq<real>, order: seq<nat>, range: real,
                 distances0: seq<Distance>)
    returns (distances: seq<Distance>)
    requires a.Valid() && a.values == values && a.order == order && |distances0| == |values| > 2
    requires range > 0.0 && gaps == a.Gaps(range) && forall i: nat | 0 < i < |values| - 1 :: gaps(i) >= 0.0
    ensures distances == Gained(a.place, gaps, distances0, |values| - 1)
    ensures FiniteSum(distances) <= FiniteSum(distances0) + GapSum(gaps, |values| - 1)
  {
    var n := |values|;
    distances := distances0;
    for i := 1 to n - 1
      invariant distances == Gained(a.place, gaps, distances0, i)
      invariant FiniteSum(distances) <= FiniteSum(distances0) + GapSum(gaps, i)
    {
      var gap := GapAt(a, values, order, i, range);
      GainedStep(a.place, gaps, distances0, i, order[i]);
      distances := AddGap(distances, order[i], gap);
    }
  }

  lemma GapsAreBounded(a: Arrangement, range: real)
    requires a.Valid() && |a.values| > 2 && a.Range() == range > 0.0
    ensures forall i: nat | 0 < i < |a.values| - 1 :: a.Gaps(range)(i) >= 0.0
    ensures GapSum(a.Gaps(range), |a.values| - 1) <= 2.0
  {
    forall i: nat | 0 < i < |a.values| - 1 ensures a.Gaps(range)(i) >= 0.0 {
      GapBound(a, i, range);
    }
    GapSumBound(a, range);
  }

  lemma StepIsGained(a: Arrangement, range: real, s: seq<Distance>, marked: seq<Distance>)
    requires a.Valid() && |s| == |marked| == |a.values| > 2 && a.Range() == range
    requires forall p | 0 <= p < |s| ::
      marked[p] == (if a.place[p] == 0 || a.place[p] == |s| - 1 then Infinite else s[p])
    ensures forall p | 0 <= p < |s| ::
      a.Step(p, s[p]) == (if range > 0.0 then Gained(a.place, a.Gaps(range), marked, |s| - 1)[p] else marked[p])
  {
  }

  /** One pass of the loop over the objectives. The gaps telescope, so the finite distances
      gain at most twice the range in all, which is 2 after normalising. */
  method AddObjective(ghost a: Arrangement, values: seq<real>, order: seq<nat>, distances0: seq<Distance>)
    returns (distances: seq<Distance>)
    requires a.Valid() && a.values == values && a.order == order
    requires |distances0| == |values| > 2 && NonNegative(distances0)
    ensures |distances| == |distances0|
    ensures forall p | 0 <= p < |distances| :: distances[p] == a.Step(p, distances0[p])
    ensures FiniteSum(distances) <= FiniteSum(distances0) + 2.0
  {
    distances := MarkEnds(a, order, distances0);
    var range := Largest(values) - Smallest(values);
    ExtremesAreEnds(a);
    StepIsGained(a, range, distances0, distances);
    if range > 0.0 {
      GapsAreBounded(a, range);
      distances := AddGaps(a, a.Gaps(range), values, order, range, distances);
    }
  }

  // ----- the whole front -----

  /** The values of objective `name` for the members of the front, in front order. */
  function ValuesOf(front: seq<nat>, population: seq<Individual>, name: string): (values: seq<real>)
    requires forall k | 0 <= k < |front| :: front[k] < |population| && population[front[k]].objectives.Some?
    ensures |values| == |front|
    ensures forall k | 0 <= k < |front| :: values[k] == Lookup(population[front[k]].objectives.value, name)
  {
    seq(|front|, k requires 0 <= k < |front| => Lookup(population[front[k]].objectives.value, name))
  }

  ghost predicate AllValid(all: seq<Arrangement>, n: nat) {
    forall o | 0 <= o < |all| :: all[o].Valid() && |all[o].values| == n
  }

  /** The distance of position `p` after the objectives arranged in `all`. */
  ghost function Crowd(all: seq<Arrangement>, n: nat, p: nat): Distance
    requires p < n && AllValid(all, n)
  {
    if all == [] then Finite(0.0)
    else all[|all| - 1].Step(p, Crowd(all[..|all| - 1], n, p))
  }

  lemma {:induction false} CrowdBound(all: seq<Arrangement>, n: nat, p: nat)
    requires p < n && AllValid(all, n)
    ensures var d := Crowd(all, n, p); d.Finite? ==> 0.0 <= d.value <= |all| as real
  {
    if all != [] {
      var a := all[|all| - 1];
      CrowdBound(all[..|all| - 1], n, p);
      if 0 < a.place[p] < n - 1 && a.Range() > 0.0 {
        GapBound(a, a.place[p], a.Range());
      }
    }
  }

  /** The ends of an objective's order stay infinite whatever the other objectives do. */
  lemma {:induction false} EndsAreInfinite(all: seq<Arrangement>, n: nat, o: nat, p: nat)
    requires p < n && o < |all| && AllValid(all, n)
    requires all[o].place[p] == 0 || all[o].place[p] == n - 1
    ensures Crowd(all, n, p) == Infinite
  {
    if o < |all| - 1 {
      EndsAreInfinite(all[..|all| - 1], n, o, p);
    }
  }

  /** `all` arranges the values of each objective over the front. */
  ghost predicate Arranges(all: seq<Arrangement>, front: seq<nat>, population: seq<Individual>, names: seq<string>)
    requires forall k | 0 <= k < |front| :: front[k] < |population| && population[front[k]].objectives.Some?
  {
    && |all| == |names| && AllValid(all, |front|)
    && forall o | 0 <= o < |all| :: all[o].values == ValuesOf(front, population, names[o])
  }

  /** A front of one or two points is all infinite. On a larger one each distance is the sum
      of the normalised gaps of its point (infinite at the end of some objective's order),
      between 0 and the number of objectives, and the finite ones sum to at most twice that. */
  method CrowdingDistance(names: seq<string>, front: seq<nat>, population: seq<Individual>)
    returns (distances: seq<Distance>, ghost all: seq<Arrangement>)
    requires forall k | 0 <= k < |front| :: front[k] < |population| && population[front[k]].objectives.Some?
    ensures |distances| == |front|
    ensures |front| <= 2 ==> forall p | 0 <= p < |front| :: distances[p] == Infinite
    ensures |front| > 2 ==> Arranges(all, front, population, names)
    ensures |front| > 2 ==> forall p | 0 <= p < |front| :: distances[p] == Crowd(all, |front|, p)
    ensures forall p | 0 <= p < |front| && distances[p].Finite? :: 0.0 <= distances[p].value <= |names| as real
    ensures FiniteSum(distances) <= 2.0 * |names| as real
  {
    var n := |front|;
    all := [];
    if n <= 2 {
      distances := seq(n, _ => Infinite);
      NoSum(distances);
      return;
    }
    distances := seq(n, _ => Finite(0.0));
    NoSum(distances);
    for o := 0 to |names|
      invariant |distances| == n && Arranges(all, front, population, names[..o])
      invariant forall p | 0 <= p < n :: distances[p] == Crowd(all, n, p)
      invariant FiniteSum(distances) <= 2.0 * o as real
    {
      var values := ValuesOf(front, population, names[o]);
      var (order, place) := SortIndices(Keyed(values));
      ghost var a := Arrangement(values, order, place);
      AllNonNegative(all, distances);
      distances := AddObjective(a, values, order, distances);
      assert (all + [a])[..o] == all;
      all := all + [a];
    }
    forall p | 0 <= p < n && distances[p].Finite? ensures 0.0 <= distances[p].value <= |names| as real {
      CrowdBound(all, n, p);
    }
    assert names[..|names|] == names;
  }

  lemma AllNonNegative(all: seq<Arrangement>, distances: seq<Distance>)
    requires AllValid(all, |distances|)
    requires forall p | 0 <= p < |distances| :: distances[p] == Crowd(all, |distances|, p)
    ensures NonNegative(distances)
  {
    forall p | 0 <= p < |distances| && distances[p].Finite? ensures distances[p].value >= 0.0 {
      CrowdBound(all, |distances|, p);
    }
  }
}
