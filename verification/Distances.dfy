/** `services/optimizer/benchmarks/metrics.py`: how far the true front is from the one found.

    The Euclidean distance between two rows is a parameter, of which only this is used: it is never
    negative, and nothing exactly between equal rows. */
module Distances {
  import opened Common
  import opened Arithmetic
  import opened Dominance
  import opened Pareto
  import opened Ranking

  type Gap = (Vector, Vector) -> real

  ghost predicate IsGap(gap: Gap) { forall p, q :: gap(p, q) >= 0.0 && (gap(p, q) == 0.0 <==> p == q) }

  /** The distance from a row to the nearest one of the others. */
  function Nearest(q: Vector, rows: seq<Vector>, gap: Gap): (d: real)
    requires rows != []
    ensures (exists r :: r in rows && d == gap(q, r)) && forall r | r in rows :: d <= gap(q, r)
  {
    var n := |rows| - 1;
    if n == 0 then gap(q, rows[0]) else Min(Nearest(q, rows[..n], gap), gap(q, rows[n]))
  }

  /** The distances of the true rows, added up. */
  function NearestTotal(truth: seq<Vector>, rows: seq<Vector>, gap: Gap): real
    requires rows != []
  {
    if truth == [] then 0.0
    else NearestTotal(truth[..|truth| - 1], rows, gap) + Nearest(truth[|truth| - 1], rows, gap)
  }

  /** The mean distance from a row of the true front to the nearest row found; infinite if there is
      nothing to measure. */
  function Distance(truth: seq<Vector>, rows: seq<Vector>, gap: Gap): Option<real> {
    if rows == [] || truth == [] then None else Some(NearestTotal(truth, rows, gap) / |truth| as real)
  }

  /** Of one row it is the row's own distance. */
  lemma DistanceOfOne(q: Vector, rows: seq<Vector>, gap: Gap)
    requires rows != []
    ensures Distance([q], rows, gap) == Some(Nearest(q, rows, gap))
  {
    assert [q][..0] == [];
    assert NearestTotal([q], rows, gap) == Nearest(q, rows, gap);
  }

  /** With a row more, the sum of the distances grows by the distance of that row. */
  lemma DistanceIsMean(truth: seq<Vector>, q: Vector, rows: seq<Vector>, gap: Gap, mean: real, total: real)
    requires Distance(truth, rows, gap) == Some(mean) && total == mean * |truth| as real
    ensures Distance(truth + [q], rows, gap) == Some((total + Nearest(q, rows, gap)) / (|truth| + 1) as real)
  {
    var more := truth + [q];
    assert more[..|more| - 1] == truth;
    Undivided(NearestTotal(truth, rows, gap), |truth| as real);
    assert NearestTotal(more, rows, gap) == total + Nearest(q, rows, gap);
  }

  lemma Undivided(x: real, n: real)
    requires n > 0.0
    ensures x / n * n == x
  {
  }

  lemma {:induction false} TotalsInOrder(truth: seq<Vector>, some: seq<Vector>, more: seq<Vector>, gap: Gap)
    requires some != [] && more != [] && forall r | r in some :: r in more
    ensures NearestTotal(truth, more, gap) <= NearestTotal(truth, some, gap)
  {
    if truth != [] { TotalsInOrder(truth[..|truth| - 1], some, more, gap); }
  }

  /** With more rows found the true front is no further away. */
  lemma MoreRowsAreNoFurther(truth: seq<Vector>, some: seq<Vector>, more: seq<Vector>, gap: Gap)
    requires truth != [] && some != [] && forall r | r in some :: r in more
    ensures more != [] && Distance(truth, more, gap).value <= Distance(truth, some, gap).value
  {
    assert some[0] in more;
    TotalsInOrder(truth, some, more, gap);
    DivideInOrder(NearestTotal(truth, more, gap), NearestTotal(truth, some, gap), |truth| as real);
  }

  lemma DivideInOrder(x: real, y: real, n: real)
    requires x <= y && n > 0.0
    ensures x / n <= y / n && (x == 0.0 <==> x / n == 0.0)
  {
    Undivided(x, n);
    Undivided(y, n);
  }

  lemma {:induction false} NothingInTotal(truth: seq<Vector>, rows: seq<Vector>, gap: Gap)
    requires rows != [] && IsGap(gap)
    ensures NearestTotal(truth, rows, gap) >= 0.0
    ensures NearestTotal(truth, rows, gap) == 0.0 <==> forall q | q in truth :: q in rows
  {
    if truth != [] {
      var front, last := truth[..|truth| - 1], truth[|truth| - 1];
      NothingInTotal(front, rows, gap);
      assert truth == front + [last];
      assert Nearest(last, rows, gap) == 0.0 <==> last in rows;
    }
  }

  /** It is nothing exactly if every row of the true front is found. */
  lemma NoDistanceIfAllFound(truth: seq<Vector>, rows: seq<Vector>, gap: Gap)
    requires IsGap(gap) && truth != [] && rows != []
    ensures Distance(truth, rows, gap).value >= 0.0
    ensures Distance(truth, rows, gap) == Some(0.0) <==> forall q | q in truth :: q in rows
  {
    NothingInTotal(truth, rows, gap);
    QuotientIsNonNegative(NearestTotal(truth, rows, gap), |truth| as real);
    DivideInOrder(NearestTotal(truth, rows, gap), NearestTotal(truth, rows, gap), |truth| as real);
  }

  /** Yet it can rise as the archive grows: a row that dominates the only one found takes its place
      on the front, and the true row moves exactly as far away as it is further from the new one. */
  lemma DistanceCanRise(t: Vector, x: Vector, better: Vector, gap: Gap)
    requires DominatesMin(better, x)
    ensures Distance([t], Front([x]), gap) == Some(gap(t, x))
    ensures Distance([t], Front([x, better]), gap) == Some(gap(t, better))
  {
    OnlyRow(x);
    OnlyBetterRow(x, better);
    DistanceOfOne(t, [x], gap);
    DistanceOfOne(t, [better], gap);
  }

  lemma OnlyRow(x: Vector)
    ensures Front([x]) == [x]
  {
    var dom := MinTable([x]);
    assert dom[0] == {};
    assert Undominated(dom, 1) == Undominated(dom, 0) + [0];
  }

  lemma OnlyBetterRow(x: Vector, better: Vector)
    requires DominatesMin(better, x)
    ensures Front([x, better]) == [better]
  {
    var dom := MinTable([x, better]);
    assert 1 in dom[0];
    assert dom[1] == {};
    assert Undominated(dom, 2) == [1];
  }
}
