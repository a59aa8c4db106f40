/** `services/orchestrator/activities/optimization.py`: the frontier activity, and its agreement with
    the other Pareto implementations. */
module Activities {
  import opened Common
  import opened Ranking
  import opened Dominance
  import opened Nsga
  import opened Pareto

  /** A simulation result: its judge score, if any, and the metrics of its outcome. */
  datatype Result = Result(scenario: string, score: Option<real>, metrics: seq<(string, real)>)

  datatype FrontierPoint = FrontierPoint(scenario: string, metrics: map<string, real>, score: real)

  /** The values of the requested metrics, a later duplicate overriding an earlier one. */
  function MetricValues(reported: seq<(string, real)>, wanted: seq<string>): (r: map<string, real>)
    ensures forall k | k in r :: k in wanted
  {
    if reported == [] then map[]
    else
      var (name, value) := reported[|reported| - 1];
      var r := MetricValues(reported[..|reported| - 1], wanted);
      if name in wanted then r[name := value] else r
  }

  /** The results that take part: scored, and reporting as many metrics as were requested. */
  function Points(results: seq<Result>, metrics: seq<string>): (r: seq<FrontierPoint>)
    ensures forall i | 0 <= i < |r| :: |r[i].metrics| == |metrics| && forall k | k in r[i].metrics :: k in metrics
  {
    if results == [] then []
    else
      var last, before := results[|results| - 1], Points(results[..|results| - 1], metrics);
      var values := MetricValues(last.metrics, metrics);
      if last.score.Some? && |values| == |metrics|
      then before + [FrontierPoint(last.scenario, values, last.score.value)]
      else before
  }

  /** A map with as many keys as there are names, all of them names, has every name. */
  lemma AllNamesPresent(values: map<string, real>, names: seq<string>)
    requires |values| == |names| && forall k | k in values :: k in names
    ensures forall k | k in names :: k in values
  {
    var all := set k | k in names;
    NamesBound(names);
    assert values.Keys <= all && |values.Keys| == |values|;
    if k :| k in names && k !in values {
      assert values.Keys <= all - {k};
      SubsetSize(values.Keys, all - {k});
    }
  }

  lemma {:induction false} NamesBound(names: seq<string>)
    ensures |set k | k in names| <= |names|
  {
    if names != [] {
      NamesBound(names[1..]);
      assert (set k | k in names) == (set k | k in names[1..]) + {names[0]};
    }
  }

  ghost predicate Complete(points: seq<FrontierPoint>, metrics: seq<string>) {
    forall i, k | 0 <= i < |points| && k in metrics :: k in points[i].metrics
  }

  /** A point's metric values in the requested order; larger is better. */
  function ValuesOf(p: FrontierPoint, metrics: seq<string>): (v: Vector)
    requires forall k | k in metrics :: k in p.metrics
    ensures |v| == |metrics| && forall i | 0 <= i < |v| :: v[i] == p.metrics[metrics[i]]
  {
    seq(|metrics|, i requires 0 <= i < |metrics| => p.metrics[metrics[i]])
  }

  ghost function Vectors(points: seq<FrontierPoint>, metrics: seq<string>): (r: seq<Option<Vector>>)
    requires Complete(points, metrics)
    ensures |r| == |points| && forall i | 0 <= i < |r| :: r[i] == Some(ValuesOf(points[i], metrics))
  {
    seq(|points|, i requires 0 <= i < |points| => Some(ValuesOf(points[i], metrics)))
  }

  /** The innermost loop: does `other` dominate `point`? */
  method OtherDominates(other: FrontierPoint, point: FrontierPoint, metrics: seq<string>) returns (r: bool)
    requires forall k | k in metrics :: k in other.metrics && k in point.metrics
    ensures r <==> Dominance.Dominates(ValuesOf(other, metrics), ValuesOf(point, metrics))
  {
    var dominates, strictlyBetter := true, false;
    for i := 0 to |metrics|
      invariant dominates && forall l | 0 <= l < i :: other.metrics[metrics[l]] >= point.metrics[metrics[l]]
      invariant strictlyBetter <==> exists l :: 0 <= l < i && other.metrics[metrics[l]] > point.metrics[metrics[l]]
    {
      var m := metrics[i];
      if other.metrics[m] < point.metrics[m] {
        dominates := false;
        assert ValuesOf(other, metrics)[i] < ValuesOf(point, metrics)[i];
        return false;
      }
      if other.metrics[m] > point.metrics[m] {
        strictlyBetter := true;
      }
    }
    r := dominates && strictlyBetter;
    if r {
      var l :| 0 <= l < |metrics| && other.metrics[metrics[l]] > point.metrics[metrics[l]];
      assert ValuesOf(other, metrics)[l] > ValuesOf(point, metrics)[l];
    }
  }

  /** The middle loop, broken off at the first dominating point. */
  method IsDominated(points: seq<FrontierPoint>, i: nat, metrics: seq<string>) returns (isDominated: bool)
    requires i < |points| && Complete(points, metrics)
    ensures isDominated <==> exists j: nat :: j < |points| && DominatesIn(points, metrics, j, i)
  {
    isDominated := false;
    for j := 0 to |points|
      invariant !isDominated && forall l: nat | l < j :: !DominatesIn(points, metrics, l, i)
    {
      if i == j {
        continue;
      }
      var beaten := OtherDominates(points[j], points[i], metrics);
      assert beaten <==> DominatesIn(points, metrics, j, i);
      if beaten {
        isDominated := true;
        break;
      }
    }
  }

  ghost predicate DominatesIn(points: seq<FrontierPoint>, metrics: seq<string>, j: nat, i: nat)
    requires i < |points| && j < |points| && Complete(points, metrics)
  {
    Dominance.Dominates(ValuesOf(points[j], metrics), ValuesOf(points[i], metrics))
  }

  lemma DominatedInTable(points: seq<FrontierPoint>, metrics: seq<string>, i: nat)
    requires i < |points| && Complete(points, metrics)
    ensures TableOf(Vectors(points, metrics))[i] != {} <==>
      exists j: nat :: j < |points| && DominatesIn(points, metrics, j, i)
  {
    var vectors := Vectors(points, metrics);
    var dom := TableOf(vectors);
    if j :| j in dom[i] {
      assert DominatesIn(points, metrics, j, i);
    }
    if j: nat :| j < |points| && DominatesIn(points, metrics, j, i) {
      assert Beats(vectors[j], vectors[i]);
      assert j in dom[i];
    }
  }

  lemma PointsAreComplete(results: seq<Result>, metrics: seq<string>)
    ensures Complete(Points(results, metrics), metrics)
  {
    var points := Points(results, metrics);
    forall i, k | 0 <= i < |points| && k in metrics ensures k in points[i].metrics {
      AllNamesPresent(points[i].metrics, metrics);
    }
  }

  /** The points no other point dominates, in order. */
  ghost function FrontierPoints(points: seq<FrontierPoint>, metrics: seq<string>): seq<FrontierPoint>
    requires Complete(points, metrics)
  {
    Select(points, Undominated(TableOf(Vectors(points, metrics)), |points|))
  }

  /** The frontier activity. No metric of a point that takes part is ever missing. */
  method GetParetoFrontier(results: seq<Result>, metrics: seq<string>) returns (pareto: seq<FrontierPoint>)
    ensures Complete(Points(results, metrics), metrics)
    ensures pareto == if |metrics| < 2 then [] else FrontierPoints(Points(results, metrics), metrics)
  {
    PointsAreComplete(results, metrics);
    if |metrics| < 2 {
      return [];
    }
    var points := Points(results, metrics);
    ghost var dom := TableOf(Vectors(points, metrics));
    pareto := [];
    for i := 0 to |points|
      invariant pareto == Select(points, Undominated(dom, i))
    {
      DominatedInTable(points, metrics, i);
      var isDominated := IsDominated(points, i, metrics);
      if !isDominated {
        pareto := pareto + [points[i]];
      }
    }
  }

  // ----- the three implementations agree -----

  ghost predicate DistinctNames(goal: Goal) {
    goal.Valid() && forall i, j | 0 <= i < j < |goal.names| :: goal.names[i] != goal.names[j]
  }

  /** The objective of this name is minimised. */
  predicate Lowered(goal: Goal, name: string)
    requires goal.Valid()
  {
    exists i :: 0 <= i < |goal.names| && goal.names[i] == name && !goal.maximize[i]
  }

  /** What a minimised objective is turned into for a routine that maximises. */
  function Turn(goal: Goal, name: string, value: real): real
    requires goal.Valid()
  {
    if Lowered(goal, name) then -value else value
  }

  function TurnedMetrics(reported: seq<(string, real)>, goal: Goal): (r: seq<(string, real)>)
    requires goal.Valid()
    ensures |r| == |reported|
    ensures forall k | 0 <= k < |r| :: r[k] == (reported[k].0, Turn(goal, reported[k].0, reported[k].1))
  {
    seq(|reported|, k requires 0 <= k < |reported| => (reported[k].0, Turn(goal, reported[k].0, reported[k].1)))
  }

  function TurnedResults(results: seq<Result>, goal: Goal): (r: seq<Result>)
    requires goal.Valid()
    ensures |r| == |results|
    ensures forall k | 0 <= k < |r| :: r[k] == results[k].(metrics := TurnedMetrics(results[k].metrics, goal))
  {
    seq(|results|, k requires 0 <= k < |results| => results[k].(metrics := TurnedMetrics(results[k].metrics, goal)))
  }

  function TurnedValues(values: map<string, real>, goal: Goal): (r: map<string, real>)
    requires goal.Valid()
    ensures r.Keys == values.Keys && |r| == |values| && forall k | k in values :: r[k] == Turn(goal, k, values[k])
  {
    var r := map k | k in values :: Turn(goal, k, values[k]);
    assert r.Keys == values.Keys;
    r
  }

  function TurnedPoints(points: seq<FrontierPoint>, goal: Goal): (r: seq<FrontierPoint>)
    requires goal.Valid()
    ensures |r| == |points|
    ensures forall k | 0 <= k < |r| :: r[k] == points[k].(metrics := TurnedValues(points[k].metrics, goal))
  {
    seq(|points|, k requires 0 <= k < |points| => points[k].(metrics := TurnedValues(points[k].metrics, goal)))
  }

  lemma {:induction false} ValuesOfTurned(reported: seq<(string, real)>, goal: Goal)
    requires goal.Valid()
    ensures MetricValues(TurnedMetrics(reported, goal), goal.names)
      == TurnedValues(MetricValues(reported, goal.names), goal)
  {
    if reported != [] {
      var before := reported[..|reported| - 1];
      ValuesOfTurned(before, goal);
      assert TurnedMetrics(reported, goal)[..|reported| - 1] == TurnedMetrics(before, goal);
    }
  }

  lemma {:induction false} PointsOfTurned(results: seq<Result>, goal: Goal)
    requires goal.Valid()
    ensures Points(TurnedResults(results, goal), goal.names) == TurnedPoints(Points(results, goal.names), goal)
  {
    if results != [] {
      var before := results[..|results| - 1];
      PointsOfTurned(before, goal);
      ValuesOfTurned(results[|results| - 1].metrics, goal);
      assert TurnedResults(results, goal)[..|results| - 1] == TurnedResults(before, goal);
    }
  }

  function AsIndividuals(points: seq<FrontierPoint>): (r: seq<Individual>)
    ensures |r| == |points| && forall i | 0 <= i < |r| :: r[i] == Individual(map[], Some(points[i].metrics))
  {
    seq(|points|, i requires 0 <= i < |points| => Individual(map[], Some(points[i].metrics)))
  }

  /** A point's values in order, negated where larger is better. */
  function CostsOf(p: FrontierPoint, goal: Goal): (v: Vector)
    requires goal.Valid() && forall k | k in goal.names :: k in p.metrics
    ensures |v| == |goal.names|
    ensures forall i | 0 <= i < |v| ::
      v[i] == if goal.maximize[i] then -p.metrics[goal.names[i]] else p.metrics[goal.names[i]]
  {
    seq(|goal.names|, i requires 0 <= i < |goal.names| =>
      if goal.maximize[i] then -p.metrics[goal.names[i]] else p.metrics[goal.names[i]])
  }

  /** The same points as rows of a minimisation problem. */
  function AsCosts(points: seq<FrontierPoint>, goal: Goal): (r: seq<Vector>)
    requires goal.Valid() && Complete(points, goal.names)
    ensures |r| == |points| && forall i | 0 <= i < |r| :: r[i] == CostsOf(points[i], goal)
  {
    seq(|points|, i requires 0 <= i < |points| => CostsOf(points[i], goal))
  }

  lemma OnePointThreeWays(p: FrontierPoint, goal: Goal)
    requires DistinctNames(goal) && forall k | k in goal.names :: k in p.metrics
    ensures var turned := ValuesOf(p.(metrics := TurnedValues(p.metrics, goal)), goal.names);
      Signed(goal, p.metrics) == turned && Negate(CostsOf(p, goal)) == turned
  {
    var turned := ValuesOf(p.(metrics := TurnedValues(p.metrics, goal)), goal.names);
    forall i | 0 <= i < |goal.names|
      ensures turned[i] == if goal.maximize[i] then p.metrics[goal.names[i]] else -p.metrics[goal.names[i]]
    {
      assert goal.names[i] in goal.names;
      assert Lowered(goal, goal.names[i]) <==> !goal.maximize[i];
    }
    assert forall i | 0 <= i < |goal.names| :: goal.names[i] in goal.names;
  }

  /** The three implementations decide on one and the same table of dominators: the counting sort
      on the directions of the goal, the activity with minimised metrics negated, the mask filter
      with maximised ones negated. */
  lemma ImplementationsAgree(points: seq<FrontierPoint>, goal: Goal)
    requires DistinctNames(goal) && Complete(points, goal.names)
    ensures Complete(TurnedPoints(points, goal), goal.names)
    ensures DominatorsOf(goal, AsIndividuals(points)) == TableOf(Vectors(TurnedPoints(points, goal), goal.names))
    ensures MinTable(AsCosts(points, goal)) == TableOf(Vectors(TurnedPoints(points, goal), goal.names))
  {
    var people, costs, vectors := AsIndividuals(points), AsCosts(points, goal),
      Vectors(TurnedPoints(points, goal), goal.names);
    forall i | 0 <= i < |points| ensures Merit(goal, people[i]) == vectors[i] == Some(Negate(costs[i])) {
      OnePointThreeWays(points[i], goal);
    }
    SameVerdictsSameTable(DominatorsOf(goal, people), vectors);
    forall i: nat, j: nat | i < |points| && j < |points|
      ensures DominatesMin(costs[i], costs[j]) <==> Beats(vectors[i], vectors[j])
    {
      MinimisingIsNegated(costs[i], costs[j]);
    }
    SameVerdictsSameTable(MinTable(costs), vectors);
  }

  /** The activity, given minimised metrics negated. */
  method TurnedFrontier(results: seq<Result>, goal: Goal) returns (pareto: seq<FrontierPoint>)
    requires |goal.names| >= 2 && goal.Valid()
    ensures var turned := TurnedPoints(Points(results, goal.names), goal);
      Complete(turned, goal.names) && pareto == FrontierPoints(turned, goal.names)
  {
    PointsOfTurned(results, goal);
    pareto := GetParetoFrontier(TurnedResults(results, goal), goal.names);
  }

  /** So they keep the same positions. */
  lemma SamePositions(points: seq<FrontierPoint>, goal: Goal)
    requires DistinctNames(goal) && Complete(points, goal.names)
    ensures Complete(TurnedPoints(points, goal), goal.names)
    ensures var kept := Undominated(DominatorsOf(goal, AsIndividuals(points)), |points|);
      && FrontierPoints(TurnedPoints(points, goal), goal.names) == Select(TurnedPoints(points, goal), kept)
      && Front(AsCosts(points, goal)) == Select(AsCosts(points, goal), kept)
  {
    ImplementationsAgree(points, goal);
  }

  /** Run on the same points, the activity, front 0 of the counting sort and the mask filter, each
      given minimised and maximised metrics its own way, keep the same positions: those in
      `fronts[0]`. */
  method RunAll(results: seq<Result>, goal: Goal)
    returns (pareto: seq<FrontierPoint>, fronts: seq<seq<nat>>, front: seq<Vector>)
    requires |goal.names| >= 2 && DistinctNames(goal)
    ensures var points := Points(results, goal.names);
      Complete(points, goal.names) &&
      if points == [] then pareto == [] && fronts == [] && front == []
      else
        && fronts != [] && (forall k | 0 <= k < |fronts[0]| :: fronts[0][k] < |points|)
        && pareto == Select(TurnedPoints(points, goal), fronts[0])
        && front == Select(AsCosts(points, goal), fronts[0])
  {
    PointsAreComplete(results, goal.names);
    SamePositions(Points(results, goal.names), goal);
    pareto := TurnedFrontier(results, goal);
    fronts, front := SortAndFilter(Points(results, goal.names), goal);
  }

  method SortAndFilter(points: seq<FrontierPoint>, goal: Goal) returns (fronts: seq<seq<nat>>, front: seq<Vector>)
    requires |goal.names| >= 2 && goal.Valid() && Complete(points, goal.names)
    ensures front == Front(AsCosts(points, goal)) && (points == [] ==> fronts == [])
    ensures points != [] ==>
      fronts != [] && fronts[0] == Undominated(DominatorsOf(goal, AsIndividuals(points)), |points|)
  {
    fronts := NonDominatedSort(goal, AsIndividuals(points));
    front := NonDominated(AsCosts(points, goal));
  }

  lemma SameVerdictsSameTable(dom: Table, vectors: seq<Option<Vector>>)
    requires |dom| == |vectors| && StrictOrder(dom)
    requires forall i: nat, j {:trigger i in dom[j]} | i < |vectors| && 0 <= j < |vectors| ::
      i in dom[j] <==> Beats(vectors[i], vectors[j])
    ensures dom == TableOf(vectors)
  {
    TableIsUnique(dom, TableOf(vectors), vectors);
  }
}
