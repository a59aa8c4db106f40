/** `services/optimizer/benchmarks/metrics.py`, the shrinking-mask filter. */
module Pareto {
  import opened Common
  import opened Ranking
  import opened Dominance

  ghost predicate IsMatrix(points: seq<Vector>) {
    forall i, j | 0 <= i < |points| && 0 <= j < |points| :: |points[i]| == |points[j]|
  }

  /** The rows no other row dominates, in their original order. */
  ghost function Front(points: seq<Vector>): seq<Vector> {
    Select(points, Undominated(MinTable(points), |points|))
  }

  /** Positions at which the mask is set, below `n`. */
  function SetPositions(mask: seq<bool>, n: nat): (r: seq<nat>)
    requires n <= |mask|
    ensures forall k | 0 <= k < |r| :: r[k] < n && mask[r[k]]
  {
    if n == 0 then [] else SetPositions(mask, n - 1) + (if mask[n - 1] then [n - 1] else [])
  }

  lemma {:induction false} MaskIsUndominated(mask: seq<bool>, dom: Table, n: nat)
    requires n <= |mask| && n <= |dom|
    requires forall j | 0 <= j < n :: mask[j] <==> dom[j] == {}
    ensures SetPositions(mask, n) == Undominated(dom, n)
  {
    if n > 0 {
      MaskIsUndominated(mask, dom, n - 1);
    }
  }

  predicate WeaklyBetter(a: Vector, b: Vector)
    requires |a| == |b|
  {
    forall i | 0 <= i < |a| :: a[i] <= b[i]
  }

  predicate StrictlyBetter(a: Vector, b: Vector)
    requires |a| == |b|
  {
    exists i | 0 <= i < |a| :: a[i] < b[i]
  }

  /** The first `i` rows have their final verdict and the others are still kept. */
  ghost predicate Scanned(points: seq<Vector>, keep: seq<bool>, i: nat) {
    && |keep| == |points|
    && (forall j | 0 <= j < |points| :: keep[j] <==> j >= i || MinTable(points)[j] == {})
  }

  predicate BeatenByKept(points: seq<Vector>, keep: seq<bool>, i: nat)
    requires IsMatrix(points) && |keep| == |points| && i < |points|
  {
    exists j | 0 <= j < |points| ::
      keep[j] && WeaklyBetter(points[j], points[i]) && StrictlyBetter(points[j], points[i])
  }

  /** Comparing with the kept rows only gives the same verdict as comparing with all rows. */
  lemma KeptRowsSuffice(points: seq<Vector>, keep: seq<bool>, i: nat)
    requires IsMatrix(points) && |keep| == |points| && i < |points|
    requires forall j | 0 <= j < |points| && MinTable(points)[j] == {} :: keep[j]
    ensures BeatenByKept(points, keep, i) <==> MinTable(points)[i] != {}
  {
    var dom := MinTable(points);
    if dom[i] != {} {
      var d := UndominatedCovers(dom, i);
      assert DominatesMin(points[d], points[i]) && keep[d];
      assert WeaklyBetter(points[d], points[i]) && StrictlyBetter(points[d], points[i]);
    }
    if BeatenByKept(points, keep, i) {
      var j: nat :| j < |points| && keep[j] && WeaklyBetter(points[j], points[i]) &&
        StrictlyBetter(points[j], points[i]);
      assert DominatesMin(points[j], points[i]);
      assert j in dom[i];
    }
  }

  /** Rows are dropped while the scan is still running, so a row is only compared with the
      rows kept so far; the result is the declarative front all the same. A matrix without
      columns counts as empty. */
  method NonDominated(points: seq<Vector>) returns (front: seq<Vector>)
    requires IsMatrix(points)
    ensures front == if |points| == 0 || |points[0]| == 0 then [] else Front(points)
  {
    if |points| == 0 || |points[0]| == 0 {
      return [];
    }
    var n := |points|;
    var keep := new bool[n](_ => true);
    for i := 0 to n
      invariant Scanned(points, keep[..], i)
    {
      if !keep[i] {
        continue;
      }
      KeptRowsSuffice(points, keep[..], i);
      if BeatenByKept(points, keep[..], i) {
        keep[i] := false;
      }
    }
    MaskIsUndominated(keep[..], MinTable(points), n);
    front := Select(points, SetPositions(keep[..], n));
  }

  /** Every dropped row is dominated by a kept one, and no kept row is dominated at all. */
  lemma FrontCovers(points: seq<Vector>, p: Vector)
    requires p in points
    ensures p in Front(points) <==> forall q | q in points :: !DominatesMin(q, p)
    ensures p !in Front(points) ==> exists q :: q in Front(points) && DominatesMin(q, p)
  {
    var dom := MinTable(points);
    var u := Undominated(dom, |points|);
    var i :| 0 <= i < |points| && points[i] == p;
    if dom[i] == {} {
      assert i in u;
      var k :| 0 <= k < |u| && u[k] == i;
      assert Front(points)[k] == p;
      forall q | q in points ensures !DominatesMin(q, p) {
        var j :| 0 <= j < |points| && points[j] == q;
        assert j !in dom[i];
      }
    } else {
      var d := UndominatedCovers(dom, i);
      assert d in u;
      var k :| 0 <= k < |u| && u[k] == d;
      assert points[d] in Front(points) && DominatesMin(points[d], p) by { assert Front(points)[k] == points[d]; }
      forall l | 0 <= l < |u| ensures Front(points)[l] != p {
        assert d !in dom[u[l]];
      }
    }
  }

  predicate NoWorse(a: Vector, b: Vector) {
    |a| == |b| && forall i | 0 <= i < |a| :: a[i] <= b[i]
  }

  /** `t` holds, for each row of `s`, one that is no worse in any objective. */
  ghost predicate CoversRows(t: seq<Vector>, s: seq<Vector>) {
    forall k | 0 <= k < |s| :: RowIsCovered(t, s[k])
  }

  ghost predicate RowIsCovered(t: seq<Vector>, row: Vector) {
    exists i :: 0 <= i < |t| && NoWorse(t[i], row)
  }

  /** Every dropped row has a kept row that dominates it. */
  ghost predicate CoveringFilter(front: seq<Vector>, rows: seq<Vector>) {
    && (forall k | 0 <= k < |front| :: front[k] in rows)
    && (forall k | 0 <= k < |rows| :: rows[k] in front || exists q :: q in front && DominatesMin(q, rows[k]))
  }

  lemma FrontIsCoveringFilter(rows: seq<Vector>)
    ensures CoveringFilter(Front(rows), rows)
  {
    forall k | 0 <= k < |rows|
      ensures rows[k] in Front(rows) || exists q :: q in Front(rows) && DominatesMin(q, rows[k])
    {
      FrontCovers(rows, rows[k]);
    }
    forall k | 0 <= k < |Front(rows)| ensures Front(rows)[k] in rows {
      FrontIsSubset(rows, k);
    }
  }

  lemma CoveringFilterCovers(front: seq<Vector>, rows: seq<Vector>)
    requires CoveringFilter(front, rows)
    ensures CoversRows(front, rows) && CoversRows(rows, front)
  {
    forall k | 0 <= k < |rows| ensures RowIsCovered(front, rows[k]) {
      var v := rows[k];
      if v !in front {
        v :| v in front && DominatesMin(v, rows[k]);
      }
      var i :| 0 <= i < |front| && front[i] == v;
      assert NoWorse(front[i], rows[k]);
    }
    forall k | 0 <= k < |front| ensures RowIsCovered(rows, front[k]) {
      var i :| 0 <= i < |rows| && rows[i] == front[k];
      assert NoWorse(rows[i], front[k]);
    }
  }

  /** Filtering twice is filtering once. */
  lemma FrontIsIdempotent(points: seq<Vector>)
    ensures Front(Front(points)) == Front(points)
  {
    var f := Front(points);
    var dom := MinTable(f);
    forall i, j | 0 <= i < |f| && 0 <= j < |f| ensures !DominatesMin(f[i], f[j]) {
      assert f[i] in points && f[j] in f && f[j] in points by { FrontIsSubset(points, i); FrontIsSubset(points, j); }
      FrontCovers(points, f[j]);
    }
    AllUndominated(dom, |f|);
    assert Select(f, Undominated(dom, |f|)) == f;
  }

  lemma FrontIsSubset(points: seq<Vector>, k: nat)
    requires k < |Front(points)|
    ensures Front(points)[k] in points
  {
    var u := Undominated(MinTable(points), |points|);
    assert u[k] in u;
  }

  lemma {:induction false} AllUndominated(dom: Table, n: nat)
    requires n <= |dom| && forall j | 0 <= j < n :: dom[j] == {}
    ensures |Undominated(dom, n)| == n && forall k | 0 <= k < n :: Undominated(dom, n)[k] == k
  {
    if n > 0 { AllUndominated(dom, n - 1); }
  }
}
