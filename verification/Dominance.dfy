/** Pareto dominance between objective vectors, and the table of dominators it induces.

    The evolutionary optimiser and the orchestrator compare vectors whose larger entries are
    better, the benchmark metrics vectors whose smaller ones are; negation turns one into the other. */
module Dominance {
  import opened Common
  import opened Ranking

  type Vector = seq<real>

  /** No worse anywhere and better somewhere, larger being better. */
  predicate Dominates(a: Vector, b: Vector) {
    && |a| == |b|
    && (forall i | 0 <= i < |a| :: a[i] >= b[i])
    && (exists i | 0 <= i < |a| :: a[i] > b[i])
  }

  /** The same, smaller being better. */
  predicate DominatesMin(a: Vector, b: Vector) {
    && |a| == |b|
    && (forall i | 0 <= i < |a| :: a[i] <= b[i])
    && (exists i | 0 <= i < |a| :: a[i] < b[i])
  }

  ghost predicate HasWidth(rows: seq<Vector>, m: nat) {
    forall i | 0 <= i < |rows| :: |rows[i]| == m
  }

  function Negate(v: Vector): Vector {
    seq(|v|, i requires 0 <= i < |v| => -v[i])
  }

  /** Points that carry no objectives neither dominate nor are dominated. */
  predicate Beats(a: Option<Vector>, b: Option<Vector>) {
    a.Some? && b.Some? && Dominates(a.value, b.value)
  }

  /** `dom` is the table of dominators of `pts`; there is exactly one. */
  ghost predicate IsTableOf(dom: Table, pts: seq<Option<Vector>>) {
    && |dom| == |pts|
    && StrictOrder(dom)
    && forall i: nat, j {:trigger i in dom[j]} | i < |pts| && 0 <= j < |pts| :: i in dom[j] <==> Beats(pts[i], pts[j])
  }

  ghost function TableOf(pts: seq<Option<Vector>>): (dom: Table)
    ensures IsTableOf(dom, pts)
  {
    TableExists(pts);
    var dom :| IsTableOf(dom, pts);
    dom
  }

  lemma TableExists(pts: seq<Option<Vector>>)
    ensures exists dom :: IsTableOf(dom, pts)
  {
    var all := Indices(|pts|);
    var dom := seq(|pts|, j requires 0 <= j < |pts| => set i | i in all && Beats(pts[i], pts[j]));
    forall i, j | 0 <= j < |dom| && i in dom[j] ensures dom[i] <= dom[j] {
      assert forall h | h in dom[i] :: h in dom[j];
    }
    assert IsTableOf(dom, pts);
  }

  lemma TableIsUnique(dom: Table, other: Table, pts: seq<Option<Vector>>)
    requires IsTableOf(dom, pts) && IsTableOf(other, pts)
    ensures dom == other
  {
    forall j | 0 <= j < |pts| ensures dom[j] == other[j] {
      assert forall i :: i in dom[j] ==> i in other[j];
      assert forall i :: i in other[j] ==> i in dom[j];
    }
  }

  /** Minimising is maximising the negated vectors. */
  lemma MinimisingIsNegated(a: Vector, b: Vector)
    ensures DominatesMin(a, b) <==> Dominates(Negate(a), Negate(b))
  {
    if DominatesMin(a, b) {
      var i :| 0 <= i < |a| && a[i] < b[i];
      assert Negate(a)[i] > Negate(b)[i];
    }
    if Dominates(Negate(a), Negate(b)) {
      var i :| 0 <= i < |Negate(a)| && Negate(a)[i] > Negate(b)[i];
      assert a[i] < b[i];
      forall k | 0 <= k < |a| ensures a[k] <= b[k] {
        assert Negate(a)[k] >= Negate(b)[k];
      }
    }
  }

  ghost function Negated(points: seq<Vector>): (r: seq<Option<Vector>>)
    ensures |r| == |points| && forall i | 0 <= i < |r| :: r[i] == Some(Negate(points[i]))
  {
    seq(|points|, i requires 0 <= i < |points| => Some(Negate(points[i])))
  }

  /** Dominators of each row of a minimisation problem. */
  ghost function MinTable(points: seq<Vector>): (dom: Table)
    ensures |dom| == |points| && StrictOrder(dom)
    ensures forall i: nat, j {:trigger i in dom[j]} | i < |points| && 0 <= j < |points| :: i in dom[j] <==>
      DominatesMin(points[i], points[j])
  {
    forall i: nat, j | i < |points| && 0 <= j < |points|
      ensures DominatesMin(points[i], points[j]) <==> Beats(Negated(points)[i], Negated(points)[j])
    {
      MinimisingIsNegated(points[i], points[j]);
    }
    TableOf(Negated(points))
  }
}
