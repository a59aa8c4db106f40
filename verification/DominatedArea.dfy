/** The area dominated by a set of two-objective points. */
module DominatedArea {
  import opened Common
  import Gathering

  /** Smaller is better, and a point dominates the box between it and a reference corner, so
      the area is that of a union of boxes sharing a corner.

      `Measure` defines the measure of the union by inclusion and exclusion, over all reals:
      adding a box adds its own measure minus what it shares with the union of the others, and
      two boxes share the box of their join. `AreaCountsCells` grounds it: for points on a grid
      the area is the number of grid cells that at least one of them dominates. */
  datatype Point = Point(f1: real, f2: real)

  /** The box of the join is the intersection of the two boxes. */
  function Join(p: Point, q: Point): Point {
    Point(Max(p.f1, q.f1), Max(p.f2, q.f2))
  }

  function JoinAll(p: Point, s: seq<Point>): (r: seq<Point>)
    ensures |r| == |s| && forall i | 0 <= i < |s| :: r[i] == Join(p, s[i])
  {
    seq(|s|, i requires 0 <= i < |s| => Join(p, s[i]))
  }

  /** Measure of the union of the boxes of `s`, when one box of corner `p` measures `mu(p)`. */
  function Measure(s: seq<Point>, mu: Point -> real): real
    decreases |s|
  {
    if s == [] then 0.0
    else mu(s[0]) + Measure(s[1..], mu) - Measure(JoinAll(s[0], s[1..]), mu)
  }

  function Span(low: real, high: real): real { if low < high then high - low else 0.0 }

  function BoxArea(p: Point, ref: Point): real {
    Span(p.f1, ref.f1) * Span(p.f2, ref.f2)
  }

  function Below(ref: Point): Point -> real {
    p => BoxArea(p, ref)
  }

  /** The area that the points of `s` dominate below the reference. */
  function Area(s: seq<Point>, ref: Point): real {
    Measure(s, Below(ref))
  }

  /** `q` is at least as good as `p` in both objectives. */
  predicate WeaklyDominates(q: Point, p: Point) { q.f1 <= p.f1 && q.f2 <= p.f2 }

  predicate IsInside(p: Point, ref: Point) { p.f1 < ref.f1 && p.f2 < ref.f2 }

  // ----- the measure does not depend on the order of the points -----

  lemma MeasureOfPair(p: Point, q: Point, s: seq<Point>, mu: Point -> real)
    ensures Measure([p] + ([q] + s), mu) ==
      mu(p) + mu(q) - mu(Join(p, q)) + Measure(s, mu)
      - Measure(JoinAll(q, s), mu) - Measure(JoinAll(p, s), mu) + Measure(JoinAll(Join(p, q), s), mu)
  {
    assert JoinAll(p, [q] + s) == [Join(p, q)] + JoinAll(p, s);
    assert JoinAll(Join(p, q), JoinAll(p, s)) == JoinAll(Join(p, q), s);
  }

  lemma SwapFirstTwo(p: Point, q: Point, s: seq<Point>, mu: Point -> real)
    ensures Measure([p] + ([q] + s), mu) == Measure([q] + ([p] + s), mu)
  {
    MeasureOfPair(p, q, s, mu);
    MeasureOfPair(q, p, s, mu);
    assert Join(p, q) == Join(q, p);
  }

  lemma JoinAllParts(x: Point, a: seq<Point>, p: Point, b: seq<Point>)
    ensures JoinAll(x, a + [p] + b) == JoinAll(x, a) + [Join(x, p)] + JoinAll(x, b)
    ensures JoinAll(x, [p] + (a + b)) == [Join(x, p)] + (JoinAll(x, a) + JoinAll(x, b))
    ensures JoinAll(x, a + b) == JoinAll(x, a) + JoinAll(x, b)
  {
  }

  lemma Regroup(a: seq<Point>, p: Point, b: seq<Point>)
    requires a != []
    ensures a + [p] + b == [a[0]] + (a[1..] + [p] + b)
    ensures [p] + (a + b) == [p] + ([a[0]] + (a[1..] + b))
  {
    assert a + b == [a[0]] + (a[1..] + b);
  }

  lemma {:induction false} MoveToFront(a: seq<Point>, p: Point, b: seq<Point>, mu: Point -> real)
    ensures Measure(a + [p] + b, mu) == Measure([p] + (a + b), mu)
    decreases |a|
  {
    if a == [] {
      assert a + [p] + b == [p] + (a + b);
    } else {
      var x, t := a[0], a[1..];
      Regroup(a, p, b);
      SwapFirstTwo(x, p, t + b, mu);
      assert Measure([x] + (t + [p] + b), mu) == Measure([x] + ([p] + (t + b)), mu) by {
        MoveToFront(t, p, b, mu);
        JoinAllParts(x, t, p, b);
        MoveToFront(JoinAll(x, t), Join(x, p), JoinAll(x, b), mu);
      }
    }
  }

  lemma JoinAllMultiset(p: Point, x: Point, u: seq<Point>, a: seq<Point>, b: seq<Point>)
    requires multiset(JoinAll(p, u)) == multiset(JoinAll(p, a + b))
    ensures multiset(JoinAll(p, [x] + u)) == multiset(JoinAll(p, a + [x] + b))
  {
    JoinAllParts(p, a, x, b);
    assert JoinAll(p, [x] + u) == [Join(p, x)] + JoinAll(p, u);
  }

  lemma {:induction false} JoinAllPermutes(p: Point, s: seq<Point>, t: seq<Point>)
    requires multiset(s) == multiset(t)
    ensures multiset(JoinAll(p, s)) == multiset(JoinAll(p, t))
    decreases |s|
  {
    Gathering.SameSize(s, t);
    if s != [] {
      var x := s[0];
      var a, b := Gathering.ExtractHead(s, t);
      JoinAllPermutes(p, s[1..], a + b);
      JoinAllMultiset(p, x, s[1..], a, b);
      assert [x] + s[1..] == s;
    }
  }

  lemma {:induction false} MeasurePermutes(s: seq<Point>, t: seq<Point>, mu: Point -> real)
    requires multiset(s) == multiset(t)
    ensures Measure(s, mu) == Measure(t, mu)
    decreases |s|
  {
    Gathering.SameSize(s, t);
    if s != [] {
      var x := s[0];
      var a, b := Gathering.ExtractHead(s, t);
      MeasurePermutes(s[1..], a + b, mu);
      JoinAllPermutes(x, s[1..], a + b);
      MeasurePermutes(JoinAll(x, s[1..]), JoinAll(x, a + b), mu);
      MoveToFront(a, x, b, mu);
    }
  }

  // ----- points in one column, and the next point of a left-to-right sweep -----

  /** Least second objective of `s`, not above `top`. */
  function Lowest(s: seq<Point>, top: real): (r: real)
    ensures r <= top
  {
    if s == [] then top else Min(s[0].f2, Lowest(s[1..], top))
  }

  lemma {:induction false} LowestOfAppend(s: seq<Point>, p: Point, top: real)
    ensures Lowest(s + [p], top) == Min(p.f2, Lowest(s, top))
  {
    if s == [] {
      assert s + [p] == [p];
    } else {
      LowestOfAppend(s[1..], p, top);
      assert (s + [p])[1..] == s[1..] + [p];
    }
  }

  lemma {:induction false} LowestOfJoin(p: Point, s: seq<Point>, top: real)
    ensures Lowest(JoinAll(p, s), top) == Max(Min(p.f2, top), Lowest(s, top))
  {
    if s != [] {
      LowestOfJoin(p, s[1..], top);
      assert JoinAll(p, s)[1..] == JoinAll(p, s[1..]);
    }
  }

  /** Boxes starting at or above `top` measure nothing. */
  ghost predicate CappedAt(mu: Point -> real, top: real) {
    forall p: Point | p.f2 >= top :: mu(p) == 0.0
  }

  lemma {:induction false} MeasureOfColumn(s: seq<Point>, x: real, mu: Point -> real, top: real)
    requires CappedAt(mu, top)
    requires forall i | 0 <= i < |s| :: s[i].f1 == x
    ensures Measure(s, mu) == mu(Point(x, Lowest(s, top)))
    decreases |s|
  {
    if s != [] {
      var p, t := s[0], s[1..];
      MeasureOfColumn(t, x, mu, top);
      MeasureOfColumn(JoinAll(p, t), x, mu, top);
      LowestOfJoin(p, t, top);
      assert p == Point(x, p.f2);
    }
  }

  /** What a point adds when everything before it lies to its left: its own box, less the
      part of it above the lowest point so far. */
  lemma MeasureOfSweepStep(s: seq<Point>, p: Point, mu: Point -> real, top: real)
    requires CappedAt(mu, top)
    requires forall i | 0 <= i < |s| :: s[i].f1 <= p.f1
    ensures Measure(s + [p], mu) ==
      Measure(s, mu) + mu(p) - mu(Point(p.f1, Max(Min(p.f2, top), Lowest(s, top))))
  {
    assert s + [p] + [] == s + [p] && s + [] == s;
    MoveToFront(s, p, [], mu);
    MeasureOfColumn(JoinAll(p, s), p.f1, mu, top);
    LowestOfJoin(p, s, top);
  }

  lemma BelowIsCapped(ref: Point)
    ensures CappedAt(Below(ref), ref.f2)
  {
    forall p: Point | p.f2 >= ref.f2 ensures Below(ref)(p) == 0.0 {
      assert Span(p.f2, ref.f2) == 0.0;
    }
  }

  /** The part of a column between two heights is its width times their difference. */
  lemma StripArea(x: real, low: real, high: real, ref: Point)
    requires low <= high <= ref.f2
    ensures BoxArea(Point(x, low), ref) - BoxArea(Point(x, high), ref) == Span(x, ref.f1) * (high - low)
  {
  }

  // ----- monotonicity -----

  predicate SortedByF1(s: seq<Point>) {
    forall i, j | 0 <= i <= j < |s| :: s[i].f1 <= s[j].f1
  }

  /** Where `p` belongs in a sorted sequence, before any ties. */
  function Position(s: seq<Point>, p: Point): (k: nat)
    requires SortedByF1(s)
    ensures k <= |s|
    ensures forall i | 0 <= i < k :: s[i].f1 < p.f1
    ensures forall i | k <= i < |s| :: p.f1 <= s[i].f1
  {
    if s == [] || p.f1 <= s[0].f1 then 0 else 1 + Position(s[1..], p)
  }

  function Insert(s: seq<Point>, p: Point): (r: seq<Point>)
    requires SortedByF1(s)
    ensures SortedByF1(r) && multiset(r) == multiset(s) + multiset{p}
  {
    var k := Position(s, p);
    assert s == s[..k] + s[k..];
    s[..k] + [p] + s[k..]
  }

  function Sort(s: seq<Point>): (r: seq<Point>)
    ensures SortedByF1(r) && multiset(r) == multiset(s)
  {
    if s == [] then []
    else
      assert s == [s[0]] + s[1..];
      Insert(Sort(s[1..]), s[0])
  }

  /** Strips further left are at least as large. */
  lemma StripBound(x: real, left: real, low: real, high: real, ref: Point)
    requires left <= x && low <= high <= ref.f2
    ensures 0.0 <= BoxArea(Point(x, low), ref) - BoxArea(Point(x, high), ref)
      <= BoxArea(Point(left, low), ref) - BoxArea(Point(left, high), ref)
  {
    StripProductBound(Span(x, ref.f1), Span(left, ref.f1), low, high, ref.f2);
  }

  lemma StripProductBound(w: real, v: real, low: real, high: real, top: real)
    requires 0.0 <= w <= v && low <= high
    ensures 0.0 <= w * (top - low) - w * (top - high) <= v * (top - low) - v * (top - high)
  {
    assert (v - w) * (high - low) >= 0.0;
    assert v * (high - low) == w * (high - low) + (v - w) * (high - low);
  }

  lemma {:induction false} SortedAreaBound(s: seq<Point>, p: Point, ref: Point)
    requires SortedByF1(s) && forall i | 0 <= i < |s| :: WeaklyDominates(p, s[i])
    ensures 0.0 <= Area(s, ref) <= BoxArea(Point(p.f1, Lowest(s, ref.f2)), ref)
    ensures Min(p.f2, ref.f2) <= Lowest(s, ref.f2)
    decreases |s|
  {
    var top := ref.f2;
    BelowIsCapped(ref);
    if s == [] {
      assert Below(ref)(Point(p.f1, top)) == 0.0;
    } else {
      var t, q := s[..|s| - 1], s[|s| - 1];
      assert s == t + [q];
      SortedAreaBound(t, p, ref);
      MeasureOfSweepStep(t, q, Below(ref), top);
      LowestOfAppend(t, q, top);
      var l := Lowest(t, top);
      if q.f2 < l {
        StripBound(q.f1, p.f1, q.f2, l, ref);
      } else {
        assert q.f2 >= top ==> Below(ref)(q) == 0.0 && Below(ref)(Point(q.f1, top)) == 0.0;
        assert q == Point(q.f1, q.f2);
      }
    }
  }

  /** Points inside the box of `p` cover no more than that box. */
  lemma AreaBound(s: seq<Point>, p: Point, ref: Point)
    requires forall i | 0 <= i < |s| :: WeaklyDominates(p, s[i])
    ensures 0.0 <= Area(s, ref) <= BoxArea(p, ref)
  {
    var t := Sort(s);
    MeasurePermutes(s, t, Below(ref));
    forall i | 0 <= i < |t| ensures WeaklyDominates(p, t[i]) {
      assert t[i] in multiset(t);
    }
    SortedAreaBound(t, p, ref);
    if p.f2 < ref.f2 {
      StripBound(p.f1, p.f1, p.f2, Lowest(t, ref.f2), ref);
    } else {
      BelowIsCapped(ref);
      assert Below(ref)(p) == 0.0 && Below(ref)(Point(p.f1, Lowest(t, ref.f2))) == 0.0;
    }
  }

  /** One more point never takes area away. */
  lemma AreaGrowsByOne(p: Point, s: seq<Point>, ref: Point)
    ensures Area(s, ref) <= Area([p] + s, ref)
  {
    AreaBound(JoinAll(p, s), p, ref);
  }

  /** More points never take area away. */
  lemma {:induction false} AreaIsMonotone(s: seq<Point>, t: seq<Point>, ref: Point)
    ensures Area(s, ref) <= Area(s + t, ref)
    decreases |t|
  {
    if t == [] {
      assert s + t == s;
    } else {
      assert s + t == s + [t[0]] + t[1..];
      MoveToFront(s, t[0], t[1..], Below(ref));
      AreaGrowsByOne(t[0], s + t[1..], ref);
      AreaIsMonotone(s, t[1..], ref);
    }
  }

  // ----- dominated points, and points outside the reference, add nothing -----

  lemma JoinedSplit(p: Point, s: seq<Point>, q: Point) returns (a: seq<Point>, b: seq<Point>)
    requires q in s && WeaklyDominates(q, p)
    ensures JoinAll(p, s) == a + [p] + b && JoinAll(p, a + b) == a + b
  {
    var k :| 0 <= k < |s| && s[k] == q;
    a, b := JoinAll(p, s[..k]), JoinAll(p, s[k + 1..]);
  }

  lemma DominatedAddsNothing(p: Point, s: seq<Point>, q: Point, mu: Point -> real)
    requires q in s && WeaklyDominates(q, p)
    ensures Measure([p] + s, mu) == Measure(s, mu)
  {
    var a, b := JoinedSplit(p, s, q);
    MoveToFront(a, p, b, mu);
  }

  /** `t` holds, for each point of `s`, one that is at least as good. */
  ghost predicate Covers(t: seq<Point>, s: seq<Point>) {
    forall i | 0 <= i < |s| :: PointIsCovered(t, s[i])
  }

  ghost predicate PointIsCovered(t: seq<Point>, p: Point) {
    exists q :: q in t && WeaklyDominates(q, p)
  }

  lemma {:induction false} CoveredAddsNothing(s: seq<Point>, t: seq<Point>, mu: Point -> real)
    requires Covers(t, s)
    ensures Measure(s + t, mu) == Measure(t, mu)
  {
    if s == [] {
      assert s + t == t;
    } else {
      var p := s[0];
      assert PointIsCovered(t, s[0]);
      var q :| q in t && WeaklyDominates(q, p);
      assert s + t == [p] + (s[1..] + t);
      DominatedAddsNothing(p, s[1..] + t, q, mu);
      CoveredAddsNothing(s[1..], t, mu);
    }
  }

  /** Two point sets that cover each other have the same area. */
  lemma CoveringEachOther(s: seq<Point>, t: seq<Point>, ref: Point)
    requires Covers(t, s) && Covers(s, t)
    ensures Area(s, ref) == Area(t, ref)
  {
    CoveredAddsNothing(s, t, Below(ref));
    CoveredAddsNothing(t, s, Below(ref));
    MeasurePermutes(s + t, t + s, Below(ref));
  }

  lemma {:induction false} OutsideIsEmpty(s: seq<Point>, ref: Point)
    requires forall i | 0 <= i < |s| :: !IsInside(s[i], ref)
    ensures Area(s, ref) == 0.0
    decreases |s|
  {
    if s != [] {
      OutsideIsEmpty(s[1..], ref);
      OutsideIsEmpty(JoinAll(s[0], s[1..]), ref);
      assert Below(ref)(s[0]) == 0.0;
    }
  }

  /** A point that the reference does not strictly dominate adds nothing. */
  lemma OutsideAddsNothing(p: Point, s: seq<Point>, ref: Point)
    requires !IsInside(p, ref)
    ensures Area([p] + s, ref) == Area(s, ref)
  {
    OutsideIsEmpty(JoinAll(p, s), ref);
    assert Below(ref)(p) == 0.0;
  }

  // ----- on a grid, the area counts dominated cells -----

  datatype GridPoint = GridPoint(x: int, y: int)

  function Embed(p: GridPoint): Point {
    Point(p.x as real, p.y as real)
  }

  function EmbedAll(s: seq<GridPoint>): (r: seq<Point>)
    ensures |r| == |s| && forall i | 0 <= i < |s| :: r[i] == Embed(s[i])
  {
    seq(|s|, i requires 0 <= i < |s| => Embed(s[i]))
  }

  function GridJoin(p: GridPoint, q: GridPoint): GridPoint {
    GridPoint(if p.x < q.x then q.x else p.x, if p.y < q.y then q.y else p.y)
  }

  function GridJoinAll(p: GridPoint, s: seq<GridPoint>): (r: seq<GridPoint>)
    ensures |r| == |s| && forall i | 0 <= i < |s| :: r[i] == GridJoin(p, s[i])
  {
    seq(|s|, i requires 0 <= i < |s| => GridJoin(p, s[i]))
  }

  /** The unit cells below the reference that `p` dominates, named by their best corner. */
  function BoxCells(p: GridPoint, ref: GridPoint): set<(int, int)> {
    set x, y | p.x <= x < ref.x && p.y <= y < ref.y :: (x, y)
  }

  /** The cells at least one point dominates, see `CellsAreDominated`. */
  function Cells(s: seq<GridPoint>, ref: GridPoint): set<(int, int)> {
    if s == [] then {} else BoxCells(s[0], ref) + Cells(s[1..], ref)
  }

  lemma {:induction false} CellsAreDominated(s: seq<GridPoint>, ref: GridPoint, x: int, y: int)
    ensures (x, y) in Cells(s, ref) <==>
      x < ref.x && y < ref.y && exists i :: 0 <= i < |s| && s[i].x <= x && s[i].y <= y
  {
    if s != [] {
      var t := s[1..];
      CellsAreDominated(t, ref, x, y);
      if i :| 0 <= i < |t| && t[i].x <= x && t[i].y <= y {
        assert s[i + 1] == t[i];
      }
      if i :| 0 <= i < |s| && s[i].x <= x && s[i].y <= y {
        assert i == 0 || t[i - 1] == s[i];
      }
    }
  }

  function Length(low: int, high: int): nat { if low < high then high - low else 0 }

  function Row(low: int, high: int, y: int): set<(int, int)> {
    set x | low <= x < high :: (x, y)
  }

  lemma {:induction false} RowSize(low: int, high: int, y: int)
    ensures |Row(low, high, y)| == Length(low, high)
    decreases high - low
  {
    if low < high {
      RowSize(low, high - 1, y);
      assert Row(low, high, y) == Row(low, high - 1, y) + {(high - 1, y)};
    } else {
      assert Row(low, high, y) == {};
    }
  }

  lemma OneMoreRow(n: nat, m: nat)
    ensures n * (m + 1) == n * m + n
  {
  }

  lemma {:induction false} BoxSize(p: GridPoint, ref: GridPoint)
    ensures |BoxCells(p, ref)| == Length(p.x, ref.x) * Length(p.y, ref.y)
    decreases ref.y - p.y
  {
    if p.y < ref.y {
      var below, row := GridPoint(ref.x, ref.y - 1), Row(p.x, ref.x, ref.y - 1);
      BoxSize(p, below);
      RowSize(p.x, ref.x, ref.y - 1);
      assert BoxCells(p, ref) == BoxCells(p, below) + row;
      assert BoxCells(p, below) !! row;
      OneMoreRow(Length(p.x, ref.x), Length(p.y, ref.y - 1));
    } else {
      assert BoxCells(p, ref) == {};
    }
  }

  lemma BoxAreaCountsCells(p: GridPoint, ref: GridPoint)
    ensures BoxArea(Embed(p), Embed(ref)) == |BoxCells(p, ref)| as real
  {
    BoxSize(p, ref);
  }

  lemma {:induction false} SharedCells(p: GridPoint, t: seq<GridPoint>, ref: GridPoint)
    ensures Cells(GridJoinAll(p, t), ref) == BoxCells(p, ref) * Cells(t, ref)
  {
    if t != [] {
      SharedCells(p, t[1..], ref);
      assert GridJoinAll(p, t)[1..] == GridJoinAll(p, t[1..]);
      assert BoxCells(GridJoin(p, t[0]), ref) == BoxCells(p, ref) * BoxCells(t[0], ref);
    }
  }

  lemma CellsOfCons(p: GridPoint, t: seq<GridPoint>, ref: GridPoint)
    ensures |Cells([p] + t, ref)| == |BoxCells(p, ref)| + |Cells(t, ref)| - |Cells(GridJoinAll(p, t), ref)|
  {
    assert ([p] + t)[1..] == t;
    SharedCells(p, t, ref);
  }

  /** `count` obeys inclusion and exclusion on grid points, with the boxes `mu` measures. */
  ghost predicate SameRecursion(count: seq<GridPoint> -> nat, mu: Point -> real) {
    && count([]) == 0
    && (forall p, t :: count([p] + t) as real == mu(Embed(p)) + count(t) as real - count(GridJoinAll(p, t)) as real)
  }

  lemma {:induction false} MeasureIsCount(s: seq<GridPoint>, count: seq<GridPoint> -> nat, mu: Point -> real)
    requires SameRecursion(count, mu)
    ensures Measure(EmbedAll(s), mu) == count(s) as real
    decreases |s|
  {
    if s != [] {
      var p, t := s[0], s[1..];
      assert s == [p] + t;
      MeasureIsCount(t, count, mu);
      MeasureIsCount(GridJoinAll(p, t), count, mu);
      assert EmbedAll(s)[1..] == EmbedAll(t);
      assert JoinAll(Embed(p), EmbedAll(t)) == EmbedAll(GridJoinAll(p, t));
    }
  }

  function CellCount(ref: GridPoint): seq<GridPoint> -> nat {
    s => |Cells(s, ref)|
  }

  lemma CellCountRecursion(ref: GridPoint)
    ensures SameRecursion(CellCount(ref), Below(Embed(ref)))
  {
    forall p, t ensures CellCount(ref)([p] + t) as real
      == Below(Embed(ref))(Embed(p)) + CellCount(ref)(t) as real - CellCount(ref)(GridJoinAll(p, t)) as real
    {
      BoxAreaCountsCells(p, ref);
      CellsOfCons(p, t, ref);
    }
  }

  /** On integer points, the area is the number of dominated unit cells. */
  lemma AreaCountsCells(s: seq<GridPoint>, ref: GridPoint)
    ensures Area(EmbedAll(s), Embed(ref)) == |Cells(s, ref)| as real
  {
    CellCountRecursion(ref);
    MeasureIsCount(s, CellCount(ref), Below(Embed(ref)));
  }
}
