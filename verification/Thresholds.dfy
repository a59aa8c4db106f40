/** `services/judge/scorer.py`: threshold scores, in steps and interpolated. */
module Thresholds {
  import opened Common
  import opened KnotSearch
  import opened Arithmetic

  datatype Level = Unacceptable | Acceptable | Good | VeryGood | Excellent

  function LevelScore(l: Level): real {
    match l case Unacceptable => 0.0 case Acceptable => 0.5 case Good => 0.7 case VeryGood => 0.85 case Excellent => 1.0
  }

  datatype Threshold = Threshold(acceptable: real, good: real, veryGood: real, excellent: real, lowerIsBetter: bool)

  /** `value` reaches `bound` in the threshold's direction. */
  predicate Reaches(t: Threshold, value: real, bound: real) {
    if t.lowerIsBetter then value <= bound else value >= bound
  }

  /** The best level whose bound is reached. */
  function LevelOf(value: real, t: Threshold): Level {
    if Reaches(t, value, t.excellent) then Excellent
    else if Reaches(t, value, t.veryGood) then VeryGood
    else if Reaches(t, value, t.good) then Good
    else if Reaches(t, value, t.acceptable) then Acceptable
    else Unacceptable
  }

  /** `better` is at least as good as `value`, in the declared direction. */
  predicate Improves(t: Threshold, value: real, better: real) { Reaches(t, better, value) }

  /** Improving a value never lowers its threshold score, even if the bounds are out of order. */
  lemma ThresholdIsMonotone(t: Threshold, value: real, better: real)
    requires Improves(t, value, better)
    ensures LevelScore(LevelOf(value, t)) <= LevelScore(LevelOf(better, t))
  {
  }

  // ----- interpolation -----

  function Knots(t: Threshold): seq<Knot> {
    [Knot(None, 0.0), Knot(Some(t.acceptable), 0.5), Knot(Some(t.good), 0.7), Knot(Some(t.veryGood), 0.85),
      Knot(Some(t.excellent), 1.0)]
  }

  /** The knots in the order the search takes them. */
  function SearchOrder(t: Threshold): seq<Knot> { if t.lowerIsBetter then SortDescending(Knots(t)) else Knots(t) }

  method InterpolateScore(value: real, t: Threshold) returns (score: real)
    ensures score == Interpolated(SearchOrder(t), 0, value, t.lowerIsBetter)
  {
    var knots := SearchOrder(t);
    var i := 0;
    while i < |knots| - 1
      invariant i <= |knots| - 1 || (knots == [] && i == 0)
      invariant Interpolated(knots, i, value, t.lowerIsBetter) == Interpolated(knots, 0, value, t.lowerIsBetter)
    {
      var first, second := knots[i], knots[i + 1];
      if Surrounds(first, second, value, t.lowerIsBetter) {
        if first.at.None? {
          return if value == second.at.value then second.score else first.score;
        }
        return Between(first, second, value);
      }
      i := i + 1;
    }
    score := 1.0;
  }

  /** The bounds improve strictly from level to level. */
  predicate Ordered(t: Threshold) {
    if t.lowerIsBetter then t.acceptable > t.good > t.veryGood > t.excellent
    else t.acceptable < t.good < t.veryGood < t.excellent
  }

  /** The interpolated score of strictly ordered bounds: nothing below acceptable, full marks from
      excellent on, and straight lines between the levels' scores. */
  function Curve(value: real, t: Threshold): real
    requires Ordered(t)
  {
    match LevelOf(value, t)
    case Unacceptable => 0.0
    case Acceptable => Between(Knot(Some(t.acceptable), 0.5), Knot(Some(t.good), 0.7), value)
    case Good => Between(Knot(Some(t.good), 0.7), Knot(Some(t.veryGood), 0.85), value)
    case VeryGood => Between(Knot(Some(t.veryGood), 0.85), Knot(Some(t.excellent), 1.0), value)
    case Excellent => 1.0
  }

  /** For ordered bounds the search computes the curve. */
  lemma OrderedIsCurve(value: real, t: Threshold)
    requires Ordered(t)
    ensures Interpolated(SearchOrder(t), 0, value, t.lowerIsBetter) == Curve(value, t)
  {
    var ks := Knots(t);
    if t.lowerIsBetter { SortedStays(ks); }
    BetweenEnds(ks[1], ks[2]);
    BetweenEnds(ks[2], ks[3]);
    BetweenEnds(ks[3], ks[4]);
    OrderedSearch(value, t, ks);
  }

  lemma OrderedSearch(value: real, t: Threshold, ks: seq<Knot>)
    requires Ordered(t) && ks == Knots(t)
    requires forall k | 1 <= k < 4 ::
      Between(ks[k], ks[k + 1], ks[k].at.value) == ks[k].score &&
      Between(ks[k], ks[k + 1], ks[k + 1].at.value) == ks[k + 1].score
    ensures Interpolated(ks, 0, value, t.lowerIsBetter) == Curve(value, t)
  {
    assert Interpolated(ks, 4, value, t.lowerIsBetter) == 1.0;
    assert Interpolated(ks, 3, value, t.lowerIsBetter) ==
      if Surrounds(ks[3], ks[4], value, t.lowerIsBetter) then Between(ks[3], ks[4], value) else 1.0;
    assert Interpolated(ks, 2, value, t.lowerIsBetter) ==
      if Surrounds(ks[2], ks[3], value, t.lowerIsBetter) then Between(ks[2], ks[3], value)
        else Interpolated(ks, 3, value, t.lowerIsBetter);
    assert Interpolated(ks, 1, value, t.lowerIsBetter) ==
      if Surrounds(ks[1], ks[2], value, t.lowerIsBetter) then Between(ks[1], ks[2], value)
        else Interpolated(ks, 2, value, t.lowerIsBetter);
  }

  /** The score of the next level up. */
  function NextScore(l: Level): real {
    match l case Unacceptable => 0.0 case Acceptable => 0.7 case Good => 0.85 case VeryGood => 1.0 case Excellent => 1.0
  }

  /** The knots around a value that is neither unacceptable nor excellent. */
  function Segment(l: Level, t: Threshold): (r: (Knot, Knot))
    requires l != Unacceptable && l != Excellent
    ensures r.0.at.Some? && r.1.at.Some?
  {
    match l
    case Acceptable => (Knot(Some(t.acceptable), 0.5), Knot(Some(t.good), 0.7))
    case Good => (Knot(Some(t.good), 0.7), Knot(Some(t.veryGood), 0.85))
    case VeryGood => (Knot(Some(t.veryGood), 0.85), Knot(Some(t.excellent), 1.0))
  }

  /** The interpolated score refines the stepwise one: it lies between the score of the level
      reached and that of the next. */
  lemma CurveRefinesSteps(value: real, t: Threshold)
    requires Ordered(t)
    ensures LevelScore(LevelOf(value, t)) <= Curve(value, t) <= NextScore(LevelOf(value, t))
  {
    var l := LevelOf(value, t);
    if l != Unacceptable && l != Excellent {
      var (a, b) := Segment(l, t);
      SegmentIsMonotone(a, b, value, value);
    }
  }

  /** The score that is interpolated for a value. */
  function Smooth(value: real, t: Threshold): real { Interpolated(SearchOrder(t), 0, value, t.lowerIsBetter) }

  /** If lower is better, the bounds must not get worse from level to level. */
  predicate InOrder(t: Threshold) { t.lowerIsBetter ==> t.acceptable >= t.good >= t.veryGood >= t.excellent }

  lemma SortedKnotsAreInOrder(t: Threshold)
    requires t.lowerIsBetter && Sorted(Knots(t))
    ensures InOrder(t)
  {
    var ks := Knots(t);
    assert Descends(ks[1], ks[2]) && Descends(ks[2], ks[3]) && Descends(ks[3], ks[4]);
  }

  /** Improving a value never lowers its interpolated score exactly if higher is better, whatever
      the bounds, or the bounds are in order, ties allowed. */
  lemma SmoothIsMonotoneIfInOrder(t: Threshold)
    ensures (forall value, better | Improves(t, value, better) :: Smooth(value, t) <= Smooth(better, t)) <==> InOrder(t)
  {
    var ks := Knots(t);
    if InOrder(t) {
      if t.lowerIsBetter { SortedStays(ks); }
      forall value, better | Improves(t, value, better) ensures Smooth(value, t) <= Smooth(better, t) {
        RisingIsMonotone(ks, value, better, t.lowerIsBetter);
      }
    } else {
      SortIsSorted(ks);
      SortStaysOrFalls(ks);
      if Sorted(ks) { SortedKnotsAreInOrder(t); }
      var i: nat :| Falls(SortDescending(ks), i);
      var value, better := FallLosesScore(SortDescending(ks), i);
      assert Improves(t, value, better) && Smooth(value, t) > Smooth(better, t);
    }
  }

  /** Such bounds are accepted: here twenty scores more than ten, although lower is better. */
  lemma MisplacedBoundFalls()
    ensures var t := Threshold(10.0, 20.0, 5.0, 1.0, true);
      Improves(t, 20.0, 10.0) && Smooth(20.0, t) == 0.7 && Smooth(10.0, t) == 0.5
  {
    var t := Threshold(10.0, 20.0, 5.0, 1.0, true);
    var ks := Knots(t);
    var a, b, c := ks[0], ks[1], ks[2];
    assert ks[..4] == [a, b, c, ks[3]] && ks[..3] == [a, b, c] && ks[..2] == [a, b] && ks[..1] == [a];
    SortOfFive(ks);
    assert [a, b][1..] == [b] && [a][1..] == [];
    assert Insert(c, [a, b]) == [a, c, b];
    InsertLast(ks[3], [a, c, b]);
    assert [a, c, b] + [ks[3]] == [a, c, b, ks[3]];
    InsertLast(ks[4], [a, c, b, ks[3]]);
    assert Insert(a, []) == [a] && Insert(b, [a]) == [a, b];
    assert SearchOrder(t) == [a, c, b, ks[3]] + [ks[4]];
    BetweenEnds(c, b);
  }

  // ----- steps and curve -----

  lemma KnotBounds(t: Threshold, i: nat)
    requires 1 <= i <= 4
    ensures Smooth(Knots(t)[i].at.value, t) <= Knots(t)[i].score
  {
    if t.lowerIsBetter { SortedKnotBounds(Knots(t), i); } else { RisingKnotBounds(Knots(t), i, false); }
  }

  /** Between the score of the level reached and that of the next. */
  predicate Refines(value: real, t: Threshold) {
    LevelScore(LevelOf(value, t)) <= Smooth(value, t) <= NextScore(LevelOf(value, t))
  }

  /** A bound no better than the one for the next level: whoever just meets it is on the next level,
      but the curve has not got there. */
  lemma TiedBoundLags(t: Threshold, i: nat)
    requires 1 <= i <= 3
    requires Along(Knots(t)[i].at.value, t.lowerIsBetter) >= Along(Knots(t)[i + 1].at.value, t.lowerIsBetter)
    ensures !Refines(Knots(t)[i].at.value, t)
  {
    KnotBounds(t, i);
  }

  /** The interpolated score refines the stepwise one exactly if the bounds improve strictly. */
  lemma SmoothRefinesStepsIfOrdered(t: Threshold)
    ensures (forall value :: Refines(value, t)) <==> Ordered(t)
  {
    if Ordered(t) {
      forall value ensures Refines(value, t) {
        OrderedIsCurve(value, t);
        CurveRefinesSteps(value, t);
      }
    } else {
      var i := if Along(t.acceptable, t.lowerIsBetter) >= Along(t.good, t.lowerIsBetter) then 1
               else if Along(t.good, t.lowerIsBetter) >= Along(t.veryGood, t.lowerIsBetter) then 2 else 3;
      TiedBoundLags(t, i);
    }
  }
}
