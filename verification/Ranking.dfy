/** Ranks of a finite strict partial order. */
module Ranking {
  /** The order, as a table of dominator sets: `dom[j]` holds the indices of the points that
      dominate point `j`.

      Every Pareto routine of the optimiser (the counting sort, the shrinking mask, the
      orchestrator's double loop) works on indices into a list of points and only asks who
      dominates whom, so their common specification is stated here once, on that table. */
  type Table = seq<set<nat>>

  ghost predicate StrictOrder(dom: Table) {
    && (forall i, j {:trigger i in dom[j]} | 0 <= j < |dom| && i in dom[j] :: i < |dom| && i != j)
    && (forall i, j {:trigger i in dom[j]} | 0 <= j < |dom| && i in dom[j] :: dom[i] <= dom[j])
  }

  /** Some chain of `k` points leads down to `i`, each dominating the next. */
  ghost predicate HasChain(dom: Table, i: nat, k: nat)
    requires StrictOrder(dom) && i < |dom|
    decreases k
  {
    k == 0 || exists d :: d in dom[i] && HasChain(dom, d, k - 1)
  }

  /** The longest chain of dominators of `i` has length exactly `k`. */
  ghost predicate RankIs(dom: Table, i: nat, k: nat)
    requires StrictOrder(dom) && i < |dom|
  {
    HasChain(dom, i, k) && !HasChain(dom, i, k + 1)
  }

  ghost predicate NoDuplicates<T(!new)>(s: seq<T>) {
    forall a, b | 0 <= a < b < |s| :: s[a] != s[b]
  }

  /** `front` lists exactly the points of rank `k`, each once. */
  ghost predicate IsFront(dom: Table, front: seq<nat>, k: nat)
    requires StrictOrder(dom)
  {
    && NoDuplicates(front)
    && (forall i: nat :: i in front <==> i < |dom| && RankIs(dom, i, k))
  }

  /** `fronts[k]` lists the points of rank `k`, no front is empty and no point is left over. */
  ghost predicate Ranked(dom: Table, fronts: seq<seq<nat>>)
    requires StrictOrder(dom)
  {
    && (forall k | 0 <= k < |fronts| :: fronts[k] != [] && IsFront(dom, fronts[k], k))
    && (forall i: nat | i < |dom| :: Placed(fronts, i))
  }

  ghost predicate Placed(fronts: seq<seq<nat>>, i: nat) {
    exists k :: 0 <= k < |fronts| && i in fronts[k]
  }

  /** The points nobody dominates, in index order, among the first `n`. */
  function Undominated(dom: Table, n: nat): (r: seq<nat>)
    requires n <= |dom|
    ensures forall i: nat :: i in r <==> i < n && dom[i] == {}
    ensures |r| <= n && forall k | 0 <= k < |r| :: r[k] < n && dom[r[k]] == {}
    ensures forall a, b | 0 <= a < b < |r| :: r[a] < r[b]
  {
    if n == 0 then []
    else
      var r := Undominated(dom, n - 1);
      assert forall a | 0 <= a < |r| :: r[a] in r;
      if dom[n - 1] == {} then r + [n - 1] else r
  }

  // ----- chains are bounded, and ranks leave no gap -----

  /** A dominator is dominated by strictly fewer points. */
  lemma DominatorIsSmaller(dom: Table, d: nat, i: nat)
    requires StrictOrder(dom) && i < |dom| && d in dom[i]
    ensures d < |dom| && |dom[d]| < |dom[i]|
  {
    assert d !in dom[d];
    SubsetSize(dom[d], dom[i] - {d});
  }

  lemma {:induction false} SubsetSize<T>(a: set<T>, b: set<T>)
    requires a <= b
    ensures |a| <= |b|
  {
    if a != {} {
      var x :| x in a;
      SubsetSize(a - {x}, b - {x});
    }
  }

  /** A chain above `i` uses distinct dominators of `i`, so it is no longer than their number. */
  lemma {:induction false} ChainIsBounded(dom: Table, i: nat, k: nat)
    requires StrictOrder(dom) && i < |dom| && HasChain(dom, i, k)
    ensures k <= |dom[i]| < |dom|
    decreases k
  {
    var all := Indices(|dom|);
    assert i in all && dom[i] <= all - {i};
    SubsetSize(dom[i], all - {i});
    if k > 0 {
      var d :| d in dom[i] && HasChain(dom, d, k - 1);
      ChainIsBounded(dom, d, k - 1);
      DominatorIsSmaller(dom, d, i);
    }
  }

  ghost function Indices(n: nat): (r: set<nat>)
    ensures |r| == n && forall x: nat :: x in r <==> x < n
  {
    if n == 0 then {} else Indices(n - 1) + {n - 1}
  }

  lemma {:induction false} ChainShortensTo(dom: Table, i: nat, k: nat, l: nat)
    requires StrictOrder(dom) && i < |dom| && HasChain(dom, i, k) && l <= k
    ensures HasChain(dom, i, l)
    decreases k
  {
    if l < k {
      ChainShortensTo(dom, i, k - 1, l);
    }
  }

  /** If no point has rank `k`, every chain of length `k` could be extended for ever. */
  lemma {:induction false} EmptyRankExtends(dom: Table, i: nat, k: nat, l: nat)
    requires StrictOrder(dom) && i < |dom| && k <= l && HasChain(dom, i, k)
    requires forall j: nat | j < |dom| :: !RankIs(dom, j, k)
    ensures HasChain(dom, i, l)
    decreases l
  {
    if k < l {
      assert !RankIs(dom, i, k);
      var d :| d in dom[i] && HasChain(dom, d, k);
      EmptyRankExtends(dom, d, k, l - 1);
    }
  }

  /** Once a rank is empty, nothing of that rank or above is left. */
  lemma EmptyRankEndsAll(dom: Table, k: nat)
    requires StrictOrder(dom)
    requires forall j: nat | j < |dom| :: !RankIs(dom, j, k)
    ensures forall i: nat | i < |dom| :: !HasChain(dom, i, k)
  {
    forall i: nat | i < |dom| ensures !HasChain(dom, i, k) {
      if HasChain(dom, i, k) {
        EmptyRankExtends(dom, i, k, k + |dom|);
        ChainIsBounded(dom, i, k + |dom|);
      }
    }
  }

  /** Every point has a rank, and it is unique. */
  lemma RankIsUnique(dom: Table, i: nat, k: nat, l: nat)
    requires StrictOrder(dom) && i < |dom| && RankIs(dom, i, k) && RankIs(dom, i, l)
    ensures k == l
  {
    if k < l {
      ChainShortensTo(dom, i, l, k + 1);
    } else if l < k {
      ChainShortensTo(dom, i, k, l + 1);
    }
  }

  lemma {:induction false} RankBelow(dom: Table, i: nat, bound: nat) returns (k: nat)
    requires StrictOrder(dom) && i < |dom| && !HasChain(dom, i, bound)
    ensures k < bound && RankIs(dom, i, k)
    decreases bound
  {
    if HasChain(dom, i, bound - 1) {
      k := bound - 1;
    } else {
      k := RankBelow(dom, i, bound - 1);
    }
  }

  // ----- what a ranking says about its fronts -----

  /** No index stands twice, neither in two fronts nor twice in one. */
  lemma FrontsAreDisjoint(dom: Table, fronts: seq<seq<nat>>, k: nat, l: nat, a: nat, b: nat)
    requires StrictOrder(dom) && Ranked(dom, fronts)
    requires k < |fronts| && l < |fronts| && a < |fronts[k]| && b < |fronts[l]|
    requires fronts[k][a] == fronts[l][b]
    ensures k == l && a == b
  {
    var i := fronts[k][a];
    assert i in fronts[k] && i in fronts[l];
    RankIsUnique(dom, i, k, l);
  }

  /** Members of one front do not dominate each other. */
  lemma FrontIsAntichain(dom: Table, fronts: seq<seq<nat>>, k: nat, i: nat, j: nat)
    requires StrictOrder(dom) && Ranked(dom, fronts)
    requires k < |fronts| && i in fronts[k] && j in fronts[k]
    ensures i < |dom| && j < |dom| && i !in dom[j]
  {
  }

  /** Each member of a later front is dominated by a member of the front just before it. */
  lemma FrontIsCovered(dom: Table, fronts: seq<seq<nat>>, k: nat, j: nat) returns (d: nat)
    requires StrictOrder(dom) && Ranked(dom, fronts)
    requires k + 1 < |fronts| && j in fronts[k + 1]
    ensures j < |dom| && d in fronts[k] && d in dom[j]
  {
    assert RankIs(dom, j, k + 1);
    d :| d in dom[j] && HasChain(dom, d, k);
    assert RankIs(dom, d, k);
  }

  /** A dominator always sits in a strictly earlier front. */
  lemma DominatorIsEarlier(dom: Table, fronts: seq<seq<nat>>, k: nat, l: nat, i: nat, j: nat)
    requires StrictOrder(dom) && Ranked(dom, fronts)
    requires k < |fronts| && l < |fronts| && i in fronts[k] && j in fronts[l]
    requires j < |dom| && i in dom[j]
    ensures k < l
  {
    assert HasChain(dom, j, k + 1);
    if l <= k {
      ChainShortensTo(dom, j, k + 1, l + 1);
    }
  }

  /** Two rankings of one table have the same fronts up to order inside a front. */
  lemma RankingIsUnique(dom: Table, f: seq<seq<nat>>, g: seq<seq<nat>>)
    requires StrictOrder(dom) && Ranked(dom, f) && Ranked(dom, g)
    ensures |f| == |g| && forall k, i: nat | 0 <= k < |f| :: i in f[k] <==> i in g[k]
  {
    NoLongerThan(dom, f, g);
    NoLongerThan(dom, g, f);
  }

  lemma NoLongerThan(dom: Table, f: seq<seq<nat>>, g: seq<seq<nat>>)
    requires StrictOrder(dom) && Ranked(dom, f) && Ranked(dom, g)
    ensures |f| <= |g|
  {
    if |g| < |f| {
      var i := f[|g|][0];
      assert i in f[|g|];
      assert Placed(g, i);
      var k :| 0 <= k < |g| && i in g[k];
      RankIsUnique(dom, i, k, |g|);
    }
  }

  /** Rank 0 is the undominated set. */
  lemma RankZeroIsUndominated(dom: Table, i: nat)
    requires StrictOrder(dom) && i < |dom|
    ensures RankIs(dom, i, 0) <==> dom[i] == {}
  {
    if dom[i] != {} {
      var d :| d in dom[i];
      assert HasChain(dom, d, 0);
      assert HasChain(dom, i, 1);
    }
  }

  /** Front 0 of any ranking holds exactly the points nobody dominates. */
  lemma FrontZeroIsUndominated(dom: Table, fronts: seq<seq<nat>>)
    requires StrictOrder(dom) && Ranked(dom, fronts) && dom != []
    ensures fronts != [] && forall i: nat :: i in fronts[0] <==> i in Undominated(dom, |dom|)
  {
    assert Placed(fronts, 0);
    forall i: nat | i < |dom| ensures i in fronts[0] <==> dom[i] == {} { RankZeroIsUndominated(dom, i); }
  }

  /** Every dominated point is dominated by an undominated one. */
  lemma {:induction false} UndominatedCovers(dom: Table, i: nat) returns (d: nat)
    requires StrictOrder(dom) && i < |dom| && dom[i] != {}
    ensures d < |dom| && d in dom[i] && dom[d] == {}
    decreases |dom[i]|
  {
    d :| d in dom[i];
    if dom[d] != {} {
      DominatorIsSmaller(dom, d, i);
      d := UndominatedCovers(dom, d);
    }
  }
}
