/** `services/optimizer/benchmarks/metrics.py`: the hypervolume figure and its exact case. */
module Metrics {
  import opened Common
  import opened Dominance
  import opened Pareto
  import opened DominatedArea
  import opened Sampling

  datatype Figure = Empty | Exact2d(volume: real) | MonteCarlo(volume: real)

  function Volume(f: Figure): real { if f.Empty? then 0.0 else f.volume }

  function AsPoint(v: Vector): Point
    requires |v| == 2
  {
    Point(v[0], v[1])
  }

  function AsPoints(rows: seq<Vector>): (r: seq<Point>)
    requires HasWidth(rows, 2)
    ensures |r| == |rows| && forall i | 0 <= i < |rows| :: r[i] == AsPoint(rows[i])
  {
    seq(|rows|, i requires 0 <= i < |rows| => AsPoint(rows[i]))
  }

  predicate StrictlyBelow(v: Vector, reference: Vector)
    requires |v| == |reference|
  {
    forall i | 0 <= i < |v| :: v[i] < reference[i]
  }

  /** The rows the reference strictly dominates in every objective. */
  function Inside(rows: seq<Vector>, reference: Vector): (r: seq<Vector>)
    requires HasWidth(rows, |reference|)
    ensures HasWidth(r, |reference|)
    ensures forall v | v in r :: v in rows && StrictlyBelow(v, reference)
  {
    if rows == [] then []
    else if StrictlyBelow(rows[0], reference) then [rows[0]] + Inside(rows[1..], reference)
    else Inside(rows[1..], reference)
  }

  /** Sorted by the first objective; how ties are ordered is left open. */
  method Argsort(front: seq<Point>) returns (ordered: seq<Point>)
    ensures SortedByF1(ordered) && multiset(ordered) == multiset(front)
  {
    ordered := Sort(front);
  }

  /** The sweep computes the area of the union of boxes, whatever the order of ties and
      whether or not some of the points are dominated. */
  method Hypervolume2d(front: seq<Point>, reference: Point) returns (volume: real)
    requires forall p | p in front :: IsInside(p, reference)
    ensures volume == Area(front, reference)
  {
    var ordered := Argsort(front);
    volume := 0.0;
    var previousF2 := reference.f2;
    ghost var mu := Below(reference);
    BelowIsCapped(reference);
    for i := 0 to |ordered|
      invariant previousF2 == Lowest(ordered[..i], reference.f2)
      invariant volume == Measure(ordered[..i], mu)
    {
      var p := ordered[i];
      assert p in multiset(ordered);
      assert ordered[..i + 1] == ordered[..i] + [p];
      SweepGain(p, previousF2, reference);
      SweepStep(ordered[..i], p, mu, reference.f2);
      if p.f2 >= previousF2 {
        continue;
      }
      volume := volume + (reference.f1 - p.f1) * (previousF2 - p.f2);
      previousF2 := p.f2;
    }
    assert ordered[..|ordered|] == ordered;
    MeasurePermutes(ordered, front, mu);
  }

  /** The part of a point's box that lies below the lowest point so far. */
  lemma SweepGain(p: Point, l: real, ref: Point)
    requires IsInside(p, ref) && l <= ref.f2
    ensures BoxArea(p, ref) - BoxArea(Point(p.f1, Max(p.f2, l)), ref) ==
      if p.f2 >= l then 0.0 else (ref.f1 - p.f1) * (l - p.f2)
  {
    assert p == Point(p.f1, p.f2);
    if p.f2 < l {
      StripArea(p.f1, p.f2, l, ref);
    }
  }

  lemma SweepStep(s: seq<Point>, p: Point, mu: Point -> real, top: real)
    requires CappedAt(mu, top) && p.f2 < top && forall i | 0 <= i < |s| :: s[i].f1 <= p.f1
    ensures Lowest(s + [p], top) == Min(p.f2, Lowest(s, top))
    ensures Measure(s + [p], mu) == Measure(s, mu) + mu(p) - mu(Point(p.f1, Max(p.f2, Lowest(s, top))))
  {
    LowestOfAppend(s, p, top);
    MeasureOfSweepStep(s, p, mu, top);
  }

  ghost predicate NoneInside(rows: seq<Vector>, reference: Vector)
    requires HasWidth(rows, |reference|)
  {
    forall v | v in rows :: !StrictlyBelow(v, reference)
  }

  /** What the figure of some rows must be: nothing exactly if no row lies inside the reference; with
      two objectives the area that all the rows dominate, otherwise the estimate for all inside. */
  ghost predicate IsFigureOf(figure: Figure, rows: seq<Vector>, reference: Vector, draws: Draws)
    requires HasWidth(rows, |reference|) && |reference| >= 1 && draws.Valid()
  {
    && (figure == Empty <==> NoneInside(rows, reference))
    && (figure.Exact2d? ==> |reference| == 2)
    && (|reference| == 2 ==> !figure.MonteCarlo? && Volume(figure) == Area(AsPoints(rows), AsPoint(reference)))
    && (figure.MonteCarlo? ==> figure.volume == Estimate(Inside(rows, reference), reference, draws))
  }

  /** Dominated points and points outside the reference are filtered out on the way. */
  method Hypervolume(points: seq<Vector>, reference: Vector, draws: Draws) returns (figure: Figure)
    requires HasWidth(points, |reference|) && |reference| >= 1 && draws.Valid()
    ensures IsFigureOf(figure, points, reference, draws)
  {
    if |points| == 0 {
      if |reference| == 2 { AreaOfInside(points, reference); }
      return Empty;
    }
    var inside := Inside(points, reference);
    InsideFindsAll(points, reference);
    if inside == [] {
      if |reference| == 2 { AreaOfInside(points, reference); }
      return Empty;
    }
    assert inside[0] in inside;
    figure := FigureOfInside(inside, reference, draws);
    if |reference| == 2 { AreaOfInside(points, reference); }
  }

  method ExactVolume(front: seq<Vector>, reference: Vector) returns (volume: real)
    requires |reference| == 2 && HasWidth(front, 2) && forall v | v in front :: StrictlyBelow(v, reference)
    ensures volume == Area(AsPoints(front), AsPoint(reference))
  {
    forall k | 0 <= k < |front| ensures IsInside(AsPoints(front)[k], AsPoint(reference)) {
      assert front[k] in front;
    }
    volume := Hypervolume2d(AsPoints(front), AsPoint(reference));
  }

  method FigureOfInside(inside: seq<Vector>, reference: Vector, draws: Draws) returns (figure: Figure)
    requires HasWidth(inside, |reference|) && |reference| >= 1 && draws.Valid()
    requires forall v | v in inside :: StrictlyBelow(v, reference)
    ensures |reference| == 2 ==> figure == Exact2d(Area(AsPoints(inside), AsPoint(reference)))
    ensures |reference| != 2 ==> figure == MonteCarlo(Estimate(inside, reference, draws))
  {
    var front := NonDominated(inside);
    FrontIsInside(inside, reference);
    if |reference| == 2 {
      AreaOfFront(inside, AsPoint(reference));
      var volume := ExactVolume(front, reference);
      return Exact2d(volume);
    }
    var estimate := HypervolumeMonteCarlo(front, reference, draws);
    EstimateOfFront(inside, reference, draws);
    return MonteCarlo(estimate);
  }

  lemma FrontIsInside(rows: seq<Vector>, reference: Vector)
    requires HasWidth(rows, |reference|)
    ensures HasWidth(Front(rows), |reference|)
    ensures (forall v | v in rows :: StrictlyBelow(v, reference)) ==>
      forall v | v in Front(rows) :: StrictlyBelow(v, reference)
  {
    forall k | 0 <= k < |Front(rows)| ensures Front(rows)[k] in rows { FrontIsSubset(rows, k); }
  }

  /** Filtering to the non-dominated rows does not change the estimate. */
  lemma EstimateOfFront(rows: seq<Vector>, reference: Vector, draws: Draws)
    requires HasWidth(rows, |reference|) && draws.Valid()
    ensures HasWidth(Front(rows), |reference|)
    ensures Estimate(Front(rows), reference, draws) == Estimate(rows, reference, draws)
  {
    FrontIsInside(rows, reference);
    FrontIsCoveringFilter(rows);
    CoveringFilterCovers(Front(rows), rows);
    MutualCoverSameEstimate(Front(rows), rows, reference, draws);
  }

  lemma RowInsideIsCovered(t: seq<Vector>, row: Vector, reference: Vector)
    requires HasWidth(t, |reference|) && |row| == |reference| && RowIsCovered(t, row) && StrictlyBelow(row, reference)
    ensures RowIsCovered(Inside(t, reference), row)
  {
    InsideFindsAll(t, reference);
    var j :| 0 <= j < |t| && NoWorse(t[j], row);
    assert StrictlyBelow(t[j], reference) && t[j] in t;
    var l :| 0 <= l < |Inside(t, reference)| && Inside(t, reference)[l] == t[j];
  }

  lemma InsideIsCovered(t: seq<Vector>, s: seq<Vector>, reference: Vector)
    requires HasWidth(s, |reference|) && HasWidth(t, |reference|) && CoversRows(t, s)
    ensures CoversRows(Inside(t, reference), Inside(s, reference))
  {
    forall k | 0 <= k < |Inside(s, reference)|
      ensures RowIsCovered(Inside(t, reference), Inside(s, reference)[k])
    {
      var row := Inside(s, reference)[k];
      assert row in Inside(s, reference);
      var i :| 0 <= i < |s| && s[i] == row;
      assert RowIsCovered(t, s[i]);
      RowInsideIsCovered(t, row, reference);
    }
  }

  lemma FrontCoversBack(rows: seq<Vector>, reference: Vector)
    requires HasWidth(rows, |reference|)
    ensures HasWidth(Front(rows), |reference|) && CoversRows(Front(rows), rows) && CoversRows(rows, Front(rows))
  {
    FrontIsInside(rows, reference);
    FrontIsCoveringFilter(rows);
    CoveringFilterCovers(Front(rows), rows);
  }

  lemma EstimateOfInside(rows: seq<Vector>, reference: Vector, draws: Draws)
    requires HasWidth(rows, |reference|) && HasWidth(Front(rows), |reference|) && draws.Valid()
    ensures Estimate(Inside(Front(rows), reference), reference, draws) ==
      Estimate(Inside(rows, reference), reference, draws)
  {
    FrontCoversBack(rows, reference);
    InsideIsCovered(Front(rows), rows, reference);
    InsideIsCovered(rows, Front(rows), reference);
    MutualCoverSameEstimate(Inside(Front(rows), reference), Inside(rows, reference), reference, draws);
  }

  lemma SomeInside(t: seq<Vector>, s: seq<Vector>, reference: Vector)
    requires HasWidth(s, |reference|) && HasWidth(t, |reference|) && CoversRows(t, s)
    ensures (exists v :: v in s && StrictlyBelow(v, reference)) ==> exists v :: v in t && StrictlyBelow(v, reference)
  {
    if v :| v in s && StrictlyBelow(v, reference) {
      var k :| 0 <= k < |s| && s[k] == v;
      assert RowIsCovered(t, s[k]);
      var i :| 0 <= i < |t| && NoWorse(t[i], v);
      assert t[i] in t && StrictlyBelow(t[i], reference);
    }
  }

  lemma {:induction false} InsideFindsAll(rows: seq<Vector>, reference: Vector)
    requires HasWidth(rows, |reference|)
    ensures forall v | v in rows && StrictlyBelow(v, reference) :: v in Inside(rows, reference)
  {
    if rows != [] {
      InsideFindsAll(rows[1..], reference);
    }
  }

  /** Filtering to the rows inside the reference does not change the area. */
  lemma AreaOfInside(rows: seq<Vector>, reference: Vector)
    requires |reference| == 2 && HasWidth(rows, 2)
    ensures Area(AsPoints(Inside(rows, reference)), AsPoint(reference)) == Area(AsPoints(rows), AsPoint(reference))
  {
    AreaOfInsideAfter([], rows, reference);
    assert [] + AsPoints(rows) == AsPoints(rows);
    assert [] + AsPoints(Inside(rows, reference)) == AsPoints(Inside(rows, reference));
  }

  lemma {:induction false} AreaOfInsideAfter(a: seq<Point>, rows: seq<Vector>, reference: Vector)
    requires |reference| == 2 && HasWidth(rows, 2)
    ensures Area(a + AsPoints(Inside(rows, reference)), AsPoint(reference)) ==
      Area(a + AsPoints(rows), AsPoint(reference))
    decreases rows
  {
    if rows != [] {
      var p, t := AsPoint(rows[0]), rows[1..];
      assert a + AsPoints(rows) == a + [p] + AsPoints(t);
      if StrictlyBelow(rows[0], reference) {
        assert a + AsPoints([rows[0]] + Inside(t, reference)) == a + [p] + AsPoints(Inside(t, reference));
        AreaOfInsideAfter(a + [p], t, reference);
      } else {
        MoveToFront(a, p, AsPoints(t), Below(AsPoint(reference)));
        OutsideAddsNothing(p, a + AsPoints(t), AsPoint(reference));
        AreaOfInsideAfter(a, t, reference);
      }
    }
  }

  lemma MutualCoverSameArea(s: seq<Vector>, t: seq<Vector>, reference: Point)
    requires HasWidth(s, 2) && HasWidth(t, 2) && CoversRows(s, t) && CoversRows(t, s)
    ensures Area(AsPoints(s), reference) == Area(AsPoints(t), reference)
  {
    CoversPoints(s, t);
    CoversPoints(t, s);
    CoveringEachOther(AsPoints(s), AsPoints(t), reference);
  }

  lemma CoversPoints(t: seq<Vector>, s: seq<Vector>)
    requires HasWidth(s, 2) && HasWidth(t, 2) && CoversRows(t, s)
    ensures Covers(AsPoints(t), AsPoints(s))
  {
    forall k | 0 <= k < |s| ensures PointIsCovered(AsPoints(t), AsPoints(s)[k]) {
      assert RowIsCovered(t, s[k]);
      var i :| 0 <= i < |t| && NoWorse(t[i], s[k]);
      assert AsPoints(t)[i] in AsPoints(t);
    }
  }

  lemma NoneInsideOfFront(rows: seq<Vector>, reference: Vector)
    requires HasWidth(rows, |reference|) && HasWidth(Front(rows), |reference|)
    ensures NoneInside(Front(rows), reference) <==> NoneInside(rows, reference)
  {
    FrontCoversBack(rows, reference);
    SomeInside(Front(rows), rows, reference);
    SomeInside(rows, Front(rows), reference);
  }

  /** Filtering to the non-dominated rows does not change the area. */
  lemma AreaOfFront(rows: seq<Vector>, reference: Point)
    requires HasWidth(rows, 2)
    ensures HasWidth(Front(rows), 2)
    ensures Area(AsPoints(Front(rows)), reference) == Area(AsPoints(rows), reference)
  {
    FrontIsCoveringFilter(rows);
    FrontIsInside(rows, [reference.f1, reference.f2]);
    CoveringFilterCovers(Front(rows), rows);
    MutualCoverSameArea(rows, Front(rows), reference);
  }

  /** So the figure of the front is that of all the rows. */
  lemma FigureOfFront(figure: Figure, rows: seq<Vector>, reference: Vector, draws: Draws)
    requires HasWidth(rows, |reference|) && |reference| >= 1 && draws.Valid()
    ensures HasWidth(Front(rows), |reference|)
    ensures IsFigureOf(figure, Front(rows), reference, draws) <==> IsFigureOf(figure, rows, reference, draws)
  {
    FrontIsInside(rows, reference);
    NoneInsideOfFront(rows, reference);
    EstimateOfInside(rows, reference, draws);
    if |reference| == 2 { AreaOfFront(rows, AsPoint(reference)); }
  }

  /** The lower corner of the box that samples for these rows are drawn from. */
  function BoxOf(rows: seq<Vector>, reference: Vector): Vector
    requires HasWidth(rows, |reference|)
  {
    BoxLow(Inside(rows, reference), reference)
  }

  lemma FigureGrowsInItsBox(f: Figure, g: Figure, a: seq<Vector>, b: seq<Vector>, reference: Vector, draws: Draws)
    requires HasWidth(a, |reference|) && HasWidth(b, |reference|) && |reference| >= 1 && draws.Valid()
    requires IsFigureOf(f, a, reference, draws) && IsFigureOf(g, b, reference, draws)
    requires CoversRows(b, a) && f.MonteCarlo? && BoxOf(a, reference) == BoxOf(b, reference)
    ensures g.MonteCarlo? && f.volume <= g.volume
  {
    SomeInside(b, a, reference);
    InsideIsCovered(b, a, reference);
    EstimateGrowsInItsBox(Inside(a, reference), Inside(b, reference), reference, draws);
  }
}
