/** `services/optimizer/optimizer.py`: the loop that keeps candidates, bandit and stopping rules
    in step. */
module Optimizer {
  import opened Common
  import opened Bandit
  import opened Nsga
  import opened Dominance
  import opened Ranking
  import opened Stopping
  import Evolution

  /** An evaluated candidate with its penalised objectives. */
  datatype Candidate = Candidate(params: Params, fidelity: Fidelity, objectives: Objectives) {
    function Score(primary: string): real { Lookup(objectives, primary) }
  }

  // ----- the books as functions of the candidates -----

  ghost function Pulls(cs: seq<Candidate>, f: Fidelity): nat {
    if cs == [] then 0 else Pulls(cs[..|cs| - 1], f) + if cs[|cs| - 1].fidelity == f then 1 else 0
  }

  ghost function Rewards(cs: seq<Candidate>, f: Fidelity, primary: string): real {
    if cs == [] then 0.0
    else Rewards(cs[..|cs| - 1], f, primary) + if cs[|cs| - 1].fidelity == f then cs[|cs| - 1].Score(primary) else 0.0
  }

  ghost function Spent(cs: seq<Candidate>, costs: Each<real>): real {
    if cs == [] then 0.0 else Spent(cs[..|cs| - 1], costs) + costs.At(cs[|cs| - 1].fidelity)
  }

  /** Every candidate is one pull of one arm. */
  lemma {:induction false} PullsAddUp(cs: seq<Candidate>)
    ensures Pulls(cs, Cheap) + Pulls(cs, Mid) + Pulls(cs, High) == |cs|
  {
    if cs != [] { PullsAddUp(cs[..|cs| - 1]); }
  }

  function Scores(cs: seq<Candidate>, primary: string): (r: seq<real>)
    ensures |r| == |cs| && forall k | 0 <= k < |r| :: r[k] == cs[k].Score(primary)
  {
    seq(|cs|, k requires 0 <= k < |cs| => cs[k].Score(primary))
  }

  function BestOf(scores: seq<real>, maximize: bool): (b: real)
    requires scores != []
    ensures b in scores && forall x | x in scores :: if maximize then x <= b else b <= x
  {
    if maximize then MaxOf(scores) else MinOf(scores)
  }

  /** The recorded best scores never get worse, and the last is the best of all candidates. */
  ghost predicate Recorded(best: seq<real>, cs: seq<Candidate>, primary: string, maximize: bool) {
    && Monotone(best, maximize)
    && (best == [] <==> cs == [])
    && (cs != [] ==> best[|best| - 1] == BestOf(Scores(cs, primary), maximize))
  }

  lemma RecordedNext(best: seq<real>, cs: seq<Candidate>, more: seq<Candidate>, primary: string, maximize: bool)
    requires Recorded(best, cs, primary, maximize)
    ensures Recorded(best + if cs + more == [] then []
      else [BestOf(Scores(cs + more, primary), maximize)], cs + more, primary, maximize)
  {
    if cs + more != [] {
      var next := BestOf(Scores(cs + more, primary), maximize);
      if cs != [] {
        var last := best[|best| - 1];
        var k :| 0 <= k < |cs| && Scores(cs, primary)[k] == last;
        assert Scores(cs + more, primary)[k] == last;
        assert last in Scores(cs + more, primary);
      }
      assert (best + [next])[|best|] == next;
    }
  }

  // ----- the frontier -----

  predicate Matches(c: Candidate, p: Params) {
    forall key | key in p :: Abs(Lookup(c.params, key) - p[key]) < 0.0000000001
  }

  /** A key that a candidate lacks counts 0, and all of the others' keys lie closer than 1e-10. */
  lemma MatchIsClose(c: Candidate, p: Params)
    ensures Matches(c, p) <==>
      forall key | key in p :: -0.0000000001 < (if key in c.params then c.params[key] else 0.0) - p[key] < 0.0000000001
    ensures c.params == map["x" := 1.0] ==>
      Matches(c, map["x" := 1.00000000009]) && !Matches(c, map["x" := 1.0000000001])
  {
    assert "x" in map["x" := 1.0000000001];
  }

  /** The first of the candidates from `from` on that matches; their number if none does. */
  ghost function FirstMatch(cs: seq<Candidate>, p: Params, from: nat): (k: nat)
    requires from <= |cs|
    ensures from <= k <= |cs| && (k < |cs| ==> Matches(cs[k], p))
    ensures forall i | from <= i < k :: !Matches(cs[i], p)
    decreases |cs| - from
  {
    if from == |cs| || Matches(cs[from], p) then from else FirstMatch(cs, p, from + 1)
  }

  /** The candidates listed for a frontier: for each of its members the first match, if any. */
  ghost function ListedFor(cs: seq<Candidate>, frontier: seq<Params>): seq<Candidate> {
    if frontier == [] then []
    else
      var k := FirstMatch(cs, frontier[|frontier| - 1], 0);
      ListedFor(cs, frontier[..|frontier| - 1]) + if k < |cs| then [cs[k]] else []
  }

  method FindMatch(cs: seq<Candidate>, p: Params) returns (k: nat)
    ensures k == FirstMatch(cs, p, 0)
  {
    k := 0;
    while k < |cs| && !Matches(cs[k], p)
      invariant k <= |cs| && FirstMatch(cs, p, k) == FirstMatch(cs, p, 0)
    {
      k := k + 1;
    }
  }

  /** What the evolutionary optimiser knows of an individual was told it as some candidate. */
  ghost predicate Known(cs: seq<Candidate>, x: Individual) {
    x.objectives.Some? ==>
      exists k: nat :: k < |cs| && cs[k].params == x.params && cs[k].objectives == x.objectives.value
  }

  ghost predicate AllKnown(cs: seq<Candidate>, xs: seq<Individual>) { forall x | x in xs :: Known(cs, x) }

  ghost predicate AllEvaluated(xs: seq<Individual>) { forall x | x in xs :: x.objectives.Some? }

  lemma KnownLater(cs: seq<Candidate>, c: Candidate, xs: seq<Individual>)
    requires AllKnown(cs, xs)
    ensures AllKnown(cs + [c], xs)
  {
    forall x | x in xs && x.objectives.Some? ensures Known(cs + [c], x) {
      assert Known(cs, x);
      var k: nat :| k < |cs| && cs[k].params == x.params && cs[k].objectives == x.objectives.value;
      assert (cs + [c])[k] == cs[k];
    }
  }

  /** Observing a candidate leaves a population of known individuals. */
  lemma ObservedIsKnown(cs: seq<Candidate>, c: Candidate, names: seq<string>, population: seq<Individual>)
    requires AllKnown(cs, population) && c in cs
    ensures AllKnown(cs, Evolution.Recorded(names, population, Individual(c.params, Some(c.objectives))))
  {
    var x := Individual(c.params, Some(c.objectives));
    assert Known(cs, x) by { var k: nat :| k < |cs| && cs[k] == c; }
    forall y | y in Evolution.Recorded(names, population, x) ensures Known(cs, y) {
      assert y == x || y in population;
    }
  }

  lemma FrontierIsKnown(cs: seq<Candidate>, goal: Goal, population: seq<Individual>)
    requires goal.Valid() && AllKnown(cs, population)
    ensures AllKnown(cs, Evolution.FrontierOf(goal, population)) && AllEvaluated(Evolution.FrontierOf(goal, population))
  {
    forall x | x in Evolution.FrontierOf(goal, population) ensures x.objectives.Some? && x in population {
      Evolution.FrontierMeaning(goal, population, x);
    }
  }

  function ParamsOf(xs: seq<Individual>): (r: seq<Params>)
    ensures |r| == |xs| && forall i | 0 <= i < |r| :: r[i] == xs[i].params
  {
    seq(|xs|, i requires 0 <= i < |xs| => xs[i].params)
  }

  /** Every member of the frontier has its candidate, in order and within the tolerance. */
  ghost predicate AllListed(listed: seq<Candidate>, cs: seq<Candidate>, frontier: seq<Individual>) {
    |listed| == |frontier| && forall i | 0 <= i < |listed| :: listed[i] in cs && Matches(listed[i], frontier[i].params)
  }

  lemma KnownIsMatched(cs: seq<Candidate>, x: Individual)
    requires Known(cs, x) && x.objectives.Some?
    ensures FirstMatch(cs, x.params, 0) < |cs|
  {
    var k: nat :| k < |cs| && cs[k].params == x.params && cs[k].objectives == x.objectives.value;
    assert Matches(cs[k], x.params);
  }

  /** Every known member of a frontier is listed. */
  lemma {:induction false} WholeFrontierIsListed(cs: seq<Candidate>, frontier: seq<Individual>)
    requires AllKnown(cs, frontier) && AllEvaluated(frontier)
    ensures AllListed(ListedFor(cs, ParamsOf(frontier)), cs, frontier)
  {
    if frontier != [] {
      var before, x := frontier[..|frontier| - 1], frontier[|frontier| - 1];
      assert frontier == before + [x] && ParamsOf(frontier)[..|frontier| - 1] == ParamsOf(before);
      WholeFrontierIsListed(cs, before);
      KnownIsMatched(cs, x);
    }
  }

  /** Each listed candidate has the objectives that put its member on the frontier. */
  ghost predicate AllCarried(listed: seq<Candidate>, frontier: seq<Individual>) {
    |listed| == |frontier| && forall i | 0 <= i < |listed| :: Some(listed[i].objectives) == frontier[i].objectives
  }

  /** Candidate `i` was the first one evaluated at these parameters. */
  ghost predicate FirstAt(cs: seq<Candidate>, i: nat, p: Params) {
    i < |cs| && Matches(cs[i], p) && forall h | 0 <= h < i :: !Matches(cs[h], p)
  }

  ghost predicate FirstAgrees(cs: seq<Candidate>, x: Individual) {
    forall i: nat | FirstAt(cs, i, x.params) :: Some(cs[i].objectives) == x.objectives
  }

  lemma FirstDecides(cs: seq<Candidate>, x: Individual)
    requires FirstMatch(cs, x.params, 0) < |cs|
    ensures FirstAgrees(cs, x) <==> Some(cs[FirstMatch(cs, x.params, 0)].objectives) == x.objectives
  {
    assert FirstAt(cs, FirstMatch(cs, x.params, 0), x.params);
  }

  lemma CarriedOneMore(listed: seq<Candidate>, c: Candidate, frontier: seq<Individual>, x: Individual)
    requires |listed| == |frontier|
    ensures AllCarried(listed + [c], frontier + [x]) <==>
      AllCarried(listed, frontier) && Some(c.objectives) == x.objectives
  {
    var l, f, n := listed + [c], frontier + [x], |listed|;
    assert l[n] == c && f[n] == x && forall i | 0 <= i < n :: l[i] == listed[i] && f[i] == frontier[i];
  }

  lemma {:induction false} CarriedIfFirstAgrees(cs: seq<Candidate>, frontier: seq<Individual>)
    requires AllKnown(cs, frontier) && AllEvaluated(frontier)
    ensures AllCarried(ListedFor(cs, ParamsOf(frontier)), frontier) <==> forall x | x in frontier :: FirstAgrees(cs, x)
  {
    if frontier != [] {
      var n := |frontier| - 1;
      var before, x := frontier[..n], frontier[n];
      assert frontier == before + [x] && ParamsOf(frontier)[..n] == ParamsOf(before);
      assert (forall y | y in frontier :: FirstAgrees(cs, y)) <==>
        (forall y | y in before :: FirstAgrees(cs, y)) && FirstAgrees(cs, x);
      CarriedIfFirstAgrees(cs, before);
      WholeFrontierIsListed(cs, before);
      KnownIsMatched(cs, x);
      FirstDecides(cs, x);
      CarriedOneMore(ListedFor(cs, ParamsOf(before)), cs[FirstMatch(cs, x.params, 0)], before, x);
    }
  }

  lemma UnrepeatedAgrees(cs: seq<Candidate>, x: Individual, k: nat)
    requires k < |cs| && cs[k].params == x.params && x.objectives == Some(cs[k].objectives)
    requires forall i, j | 0 <= i < j < |cs| :: !Matches(cs[i], cs[j].params)
    ensures FirstAgrees(cs, x)
  {
    assert Matches(cs[k], x.params);
  }

  /** Nothing is carried wrongly if no parameters are evaluated twice. */
  lemma {:induction false} CarriedIfNothingIsRepeated(cs: seq<Candidate>, frontier: seq<Individual>)
    requires AllKnown(cs, frontier) && AllEvaluated(frontier)
    requires forall i, j | 0 <= i < j < |cs| :: !Matches(cs[i], cs[j].params)
    ensures AllCarried(ListedFor(cs, ParamsOf(frontier)), frontier)
  {
    CarriedIfFirstAgrees(cs, frontier);
    forall x | x in frontier ensures FirstAgrees(cs, x) {
      assert Known(cs, x);
      var k: nat :| k < |cs| && cs[k].params == x.params && cs[k].objectives == x.objectives.value;
      UnrepeatedAgrees(cs, x, k);
    }
  }

  /** And not in general: evaluated twice at the same place, the individual keeps the second
      outcome, but the first candidate is listed for it. */
  lemma {:induction false} RepetitionListsTheFirst(p: Params, names: seq<string>, goal: Goal, first: Candidate,
      second: Candidate)
    requires goal.Valid() && first.params == second.params == p
    ensures var once := Evolution.Recorded(names, [], Individual(p, Some(first.objectives)));
      var twice := Evolution.Recorded(names, once, Individual(p, Some(second.objectives)));
      && Evolution.FrontierOf(goal, twice) == [Individual(p, Some(second.objectives))]
      && ListedFor([first, second], ParamsOf(Evolution.FrontierOf(goal, twice))) == [first]
      && (AllCarried([first], Evolution.FrontierOf(goal, twice)) <==> first.objectives == second.objectives)
  {
    var x, y := Individual(p, Some(first.objectives)), Individual(p, Some(second.objectives));
    RecordedTwice(names, x, y);
    LoneFrontier(goal, y);
    FirstIsListed(first, second, y);
  }

  lemma RecordedTwice(names: seq<string>, x: Individual, y: Individual)
    requires x.params == y.params
    ensures Evolution.Recorded(names, Evolution.Recorded(names, [], x), y) == [y]
  {
    assert Evolution.Recorded(names, [], x) == [x];
    assert Evolution.FirstMatch(names, [x], y.params) == 0;
    assert Evolution.Recorded(names, [x], y) == [y];
  }

  lemma {:induction false} FirstIsListed(first: Candidate, second: Candidate, y: Individual)
    requires first.params == y.params
    ensures ListedFor([first, second], ParamsOf([y])) == [first]
  {
    var cs, ps := [first, second], ParamsOf([y]);
    assert Matches(first, y.params) && cs[0] == first && FirstMatch(cs, y.params, 0) == 0;
    assert ps[..0] == [] && ListedFor(cs, ps[..0]) == [];
  }

  lemma {:induction false} LoneFrontier(goal: Goal, y: Individual)
    requires goal.Valid() && y.objectives.Some?
    ensures Evolution.FrontierOf(goal, [y]) == [y]
  {
    assert [y][..0] == [] && Evolution.Evaluated([y]) == [y];
    var dom := DominatorsOf(goal, [y]);
    assert dom[0] == {};
    assert Undominated(dom, 0) == [] && Undominated(dom, 1) == [0];
  }

  // ----- which evaluations the frontier remembers -----

  function Told(c: Candidate): Individual { Individual(c.params, Some(c.objectives)) }

  /** No later candidate was evaluated at the same parameters. */
  ghost predicate Last(names: seq<string>, cs: seq<Candidate>, k: nat) {
    k < |cs| && forall l | k < l < |cs| :: !Evolution.SameParams(names, cs[l].params, cs[k].params)
  }

  ghost predicate IsLast(names: seq<string>, cs: seq<Candidate>, x: Individual) {
    exists k: nat :: Last(names, cs, k) && Told(cs[k]) == x
  }

  /** No individual stands in front of an evaluated one with the same parameters. */
  ghost predicate NoneInFront(names: seq<string>, population: seq<Individual>) {
    forall i, j | 0 <= j < i < |population| && population[i].objectives.Some? ::
      !Evolution.SameParams(names, population[j].params, population[i].params)
  }

  /** The evaluated individuals are the latest evaluations, one for each place. */
  ghost predicate LatestKept(names: seq<string>, cs: seq<Candidate>, population: seq<Individual>) {
    && NoneInFront(names, population)
    && (forall x | x in population && x.objectives.Some? :: IsLast(names, cs, x))
    && forall k: nat | Last(names, cs, k) :: Told(cs[k]) in population
  }

  /** Of the parameters that were met, two that match a third match each other. */
  ghost predicate Clear(names: seq<string>, met: set<Params>) {
    forall p, q, r | p in met && q in met && r in met ::
      Evolution.SameParams(names, p, q) && Evolution.SameParams(names, q, r) ==> Evolution.SameParams(names, p, r)
  }

  ghost predicate AllMet(met: set<Params>, xs: seq<Individual>) { forall x | x in xs :: x.params in met }

  /** Apart from the one an observation replaces, no evaluated individual matches it. */
  lemma NoOtherMatches(names: seq<string>, population: seq<Individual>, p: Params, met: set<Params>, l: nat)
    requires NoneInFront(names, population) && Clear(names, met) && p in met && AllMet(met, population)
    requires l < |population| && l != Evolution.FirstMatch(names, population, p) && population[l].objectives.Some?
    ensures !Evolution.SameParams(names, p, population[l].params)
  {
    var i := Evolution.FirstMatch(names, population, p);
    var z := population[l];
    assert z in population;
    if i < l {
      var y := population[i];
      assert y in population && !Evolution.SameParams(names, y.params, z.params);
    } else {
      assert !Evolution.SameParams(names, z.params, p);
    }
  }

  lemma LastStaysLast(names: seq<string>, cs: seq<Candidate>, c: Candidate, k: nat)
    requires k < |cs|
    ensures Last(names, cs + [c], k) <==> Last(names, cs, k) && !Evolution.SameParams(names, c.params, cs[k].params)
  {
    var all := cs + [c];
    assert all[|cs|] == c && forall l | 0 <= l < |cs| :: all[l] == cs[l];
  }

  lemma StillLast(names: seq<string>, cs: seq<Candidate>, c: Candidate, x: Individual)
    requires IsLast(names, cs, x) && !Evolution.SameParams(names, c.params, x.params)
    ensures IsLast(names, cs + [c], x)
  {
    var k: nat :| Last(names, cs, k) && Told(cs[k]) == x;
    LastStaysLast(names, cs, c, k);
    assert (cs + [c])[k] == cs[k];
  }

  lemma EvaluatedStayLatest(names: seq<string>, cs: seq<Candidate>, c: Candidate, population: seq<Individual>,
      after: seq<Individual>, met: set<Params>)
    requires LatestKept(names, cs, population) && Clear(names, met) && c.params in met && AllMet(met, population)
    requires after == Evolution.Recorded(names, population, Told(c))
    ensures forall x | x in after && x.objectives.Some? :: IsLast(names, cs + [c], x)
  {
    var i := Evolution.FirstMatch(names, population, c.params);
    forall x | x in after && x.objectives.Some? ensures IsLast(names, cs + [c], x) {
      var j :| 0 <= j < |after| && after[j] == x;
      if j == i {
        assert Last(names, cs + [c], |cs|) && (cs + [c])[|cs|] == c;
      } else {
        assert x == population[j];
        NoOtherMatches(names, population, c.params, met, j);
        StillLast(names, cs, c, x);
      }
    }
  }

  lemma LatestStayEvaluated(names: seq<string>, cs: seq<Candidate>, c: Candidate, population: seq<Individual>,
      after: seq<Individual>)
    requires LatestKept(names, cs, population) && after == Evolution.Recorded(names, population, Told(c))
    ensures forall k: nat | Last(names, cs + [c], k) :: Told((cs + [c])[k]) in after
  {
    var i := Evolution.FirstMatch(names, population, c.params);
    forall k: nat | Last(names, cs + [c], k) ensures Told((cs + [c])[k]) in after {
      if k < |cs| {
        LastStaysLast(names, cs, c, k);
        var j :| 0 <= j < |population| && population[j] == Told(cs[k]);
        assert after[j] in after;
      } else {
        assert after[i] in after;
      }
    }
  }

  /** An observation replaces the latest evaluation at its place, or founds a new one. */
  lemma {:induction false} LatestIsKept(names: seq<string>, cs: seq<Candidate>, c: Candidate,
      population: seq<Individual>, met: set<Params>)
    requires LatestKept(names, cs, population) && Clear(names, met) && c.params in met && AllMet(met, population)
    ensures LatestKept(names, cs + [c], Evolution.Recorded(names, population, Told(c)))
  {
    var after := Evolution.Recorded(names, population, Told(c));
    NoneInFrontAfter(names, population, after, c, met);
    EvaluatedStayLatest(names, cs, c, population, after, met);
    LatestStayEvaluated(names, cs, c, population, after);
  }

  lemma NoneInFrontAfter(names: seq<string>, population: seq<Individual>, after: seq<Individual>, c: Candidate,
      met: set<Params>)
    requires NoneInFront(names, population) && Clear(names, met) && c.params in met && AllMet(met, population)
    requires after == Evolution.Recorded(names, population, Told(c))
    ensures NoneInFront(names, after)
  {
    var i := Evolution.FirstMatch(names, population, c.params);
    forall a, b | 0 <= b < a < |after| && after[a].objectives.Some?
      ensures !Evolution.SameParams(names, after[b].params, after[a].params)
    {
      if b == i { NoOtherMatches(names, population, c.params, met, a); }
    }
  }

  /** As long as matching is clear, the latest evaluations are kept. */
  ghost predicate Remembers(names: seq<string>, met: set<Params>, cs: seq<Candidate>, population: seq<Individual>) {
    AllMet(met, population) && (Clear(names, met) ==> LatestKept(names, cs, population))
  }

  lemma RemembersObserved(names: seq<string>, met: set<Params>, cs: seq<Candidate>, c: Candidate,
      population: seq<Individual>)
    requires Remembers(names, met, cs, population)
    ensures Remembers(names, met + {c.params}, cs + [c], Evolution.Recorded(names, population, Told(c)))
  {
    var after := Evolution.Recorded(names, population, Told(c));
    forall x | x in after ensures x.params in met + {c.params} { assert x == Told(c) || x in population; }
    if Clear(names, met + {c.params}) {
      assert Clear(names, met);
      LatestIsKept(names, cs, c, population, met + {c.params});
    }
  }

  lemma RemembersUnevaluated(names: seq<string>, met: set<Params>, cs: seq<Candidate>, population: seq<Individual>,
                             more: seq<Individual>, met': set<Params>)
    requires Remembers(names, met, cs, population) && met <= met' && AllMet(met', more) && forall x | x in more ::
      x.objectives.None?
    ensures Remembers(names, met', cs, population + more)
  {
    var after := population + more;
    if Clear(names, met') {
      assert Clear(names, met);
      forall i | |population| <= i < |after| ensures after[i].objectives.None? { assert after[i] in more; }
      forall x | x in after && x.objectives.Some? ensures IsLast(names, cs, x) { assert x in population; }
    }
  }

  /** A latest evaluation that no other latest evaluation beats. */
  ghost predicate Leads(goal: Goal, names: seq<string>, cs: seq<Candidate>, k: nat)
    requires goal.Valid()
  {
    Last(names, cs, k) && forall l: nat | Last(names, cs, l) ::
      !Outdoes(goal, cs[l].objectives, cs[k].objectives)
  }

  lemma FrontierLeads(goal: Goal, names: seq<string>, cs: seq<Candidate>, population: seq<Individual>, x: Individual)
    requires goal.Valid() && LatestKept(names, cs, population)
    ensures x in Evolution.FrontierOf(goal, population) <==>
      exists k: nat :: Leads(goal, names, cs, k) && Told(cs[k]) == x
  {
    Evolution.FrontierMeaning(goal, population, x);
    if x in Evolution.FrontierOf(goal, population) {
      var k: nat :| Last(names, cs, k) && Told(cs[k]) == x;
      forall l: nat | Last(names, cs, l) ensures !Outdoes(goal, cs[l].objectives, cs[k].objectives) {
        assert !Surpasses(goal, Told(cs[l]), x);
      }
    }
    if k: nat :| Leads(goal, names, cs, k) && Told(cs[k]) == x {
      assert x in population;
      forall y | y in population ensures !Surpasses(goal, y, x) {
        if y.objectives.Some? { var l: nat :| Last(names, cs, l) && Told(cs[l]) == y; }
      }
    }
  }

  /** The first evaluation at the candidate's parameters had the candidate's outcome. */
  ghost predicate Repeated(cs: seq<Candidate>, k: nat) {
    k < |cs| && FirstMatch(cs, cs[k].params, 0) < |cs| &&
      cs[FirstMatch(cs, cs[k].params, 0)].objectives == cs[k].objectives
  }

  /** When the listed candidates carry the objectives that put the members on the frontier, in terms
      of the evaluations alone: exactly if at every place whose latest evaluation no other place's
      latest evaluation beats, the latest outcome is the first one. */
  lemma CarriedIfFirstIsLatest(goal: Goal, names: seq<string>, cs: seq<Candidate>, population: seq<Individual>)
    requires goal.Valid() && LatestKept(names, cs, population) && AllKnown(cs, population)
    ensures var frontier := Evolution.FrontierOf(goal, population);
      AllCarried(ListedFor(cs, ParamsOf(frontier)), frontier) <==>
        forall k: nat | Leads(goal, names, cs, k) :: Repeated(cs, k)
  {
    var frontier := Evolution.FrontierOf(goal, population);
    FrontierIsKnown(cs, goal, population);
    CarriedIfFirstAgrees(cs, frontier);
    forall k: nat | Leads(goal, names, cs, k) ensures FirstAgrees(cs, Told(cs[k])) <==> Repeated(cs, k) {
      assert Known(cs, Told(cs[k]));
      KnownIsMatched(cs, Told(cs[k]));
      FirstDecides(cs, Told(cs[k]));
    }
    forall k: nat | Leads(goal, names, cs, k)
      ensures Told(cs[k]) in frontier
    {
      FrontierLeads(goal, names, cs, population, Told(cs[k]));
    }
    forall x | x in frontier ensures exists k: nat :: Leads(goal, names, cs, k) && Told(cs[k]) == x {
      FrontierLeads(goal, names, cs, population, x);
    }
  }

  // ----- the optimiser -----

  class UnifiedOptimizer {
    const bandit: MultiFidelityBandit
    const rules: StoppingRules
    /** There is none if no bounds are configured. */
    const evolution: Evolution.EvolutionaryOptimizer?
    /** The first objective, and whether it is to be maximised. */
    const primary: string
    const maximize: bool
    var candidates: seq<Candidate>
    var frontier: seq<Candidate>
    var iteration: nat
    /** All parameters that were proposed or evaluated. */
    ghost var met: set<Params>

    /** The two ledgers, the counters and the candidates agree, and the evolutionary optimiser knows
        nothing but candidates. */
    ghost predicate Valid()
      reads this, bandit, rules, evolution
    {
      && bandit.Balanced()
      && Booked(candidates)
      && rules.state.iteration == iteration && rules.state.evaluations == |candidates|
      && rules.state.budgetSpent + bandit.remaining == bandit.budget
      && Recorded(rules.state.bestScores, candidates, primary, maximize)
      && Taught(candidates) && (iteration == 0 ==> candidates == [])
    }

    /** The bandit's books are those of the given candidates. */
    ghost predicate Booked(cs: seq<Candidate>)
      reads bandit
    {
      && bandit.remaining == bandit.budget - Spent(cs, bandit.costs)
      && forall f :: bandit.pulls.At(f) == Pulls(cs, f) && bandit.totalReward.At(f) == Rewards(cs, f, primary)
    }

    /** All the evolutionary optimiser has seen evaluated are the given candidates, and it remembers
        the latest of them at each place. */
    ghost predicate Taught(cs: seq<Candidate>)
      reads `met, evolution
    {
      evolution != null ==>
        && evolution.Valid() && AllKnown(cs, evolution.population)
        && AllKnown(cs, evolution.paretoFrontier) && AllEvaluated(evolution.paretoFrontier)
        && Remembers(evolution.box.names, met, cs, evolution.population)
    }

    constructor (costs: Each<real>, budget: real, config: Config, primary: string, maximize: bool,
                 evolution: Evolution.EvolutionaryOptimizer?)
      requires evolution != null ==> evolution.Valid() && evolution.population == evolution.paretoFrontier == []
      ensures Valid() && fresh(bandit) && fresh(rules) && candidates == [] && iteration == 0
      ensures rules.config == config && bandit.budget == budget && this.maximize == maximize && this.primary == primary
      ensures this.evolution == evolution
    {
      bandit := new MultiFidelityBandit(costs, budget, 0.8);
      rules := new StoppingRules(config);
      this.evolution, this.primary, this.maximize := evolution, primary, maximize;
      candidates, frontier, iteration, met := [], [], 0, {};
    }

    /** Books one result. */
    method Book(result: Candidate) returns (cost: real)
      requires bandit.Balanced() && Booked(candidates)
      modifies `candidates, bandit
      ensures candidates == old(candidates) + [result] && bandit.Balanced() && Booked(candidates)
      ensures cost == bandit.costs.At(result.fidelity)
    {
      ghost var before := candidates;
      candidates := candidates + [result];
      assert candidates[..|candidates| - 1] == before;
      bandit.Update(result.fidelity, result.Score(primary), None);
      cost := bandit.costs.At(result.fidelity);
    }

    /** Shows a result to the evolutionary optimiser. */
    method Teach(ghost before: seq<Candidate>, result: Candidate)
      requires Taught(before)
      modifies `met, evolution
      ensures Taught(before + [result])
      ensures evolution != null ==> evolution.FrontierIsExact()
    {
      if evolution != null {
        ghost var cs := before + [result];
        KnownLater(before, result, evolution.population);
        ObservedIsKnown(cs, result, evolution.box.names, evolution.population);
        RemembersObserved(evolution.box.names, met, before, result, evolution.population);
        met := met + {result.params};
        evolution.Observe(result.params, result.objectives);
        FrontierIsKnown(cs, evolution.goal, evolution.population);
      }
    }

    method BookAll(results: seq<Candidate>) returns (spent: real)
      requires bandit.Balanced() && Booked(candidates) && Taught(candidates)
      modifies `candidates, `met, bandit, evolution
      ensures candidates == old(candidates) + results && bandit.Balanced() && Booked(candidates) && Taught(candidates)
      ensures bandit.remaining == old(bandit.remaining) - spent
      ensures results != [] && evolution != null ==> evolution.FrontierIsExact()
    {
      spent := 0.0;
      for k := 0 to |results|
        invariant candidates == old(candidates) + results[..k] && bandit.Balanced() && Booked(candidates) &&
          Taught(candidates)
        invariant bandit.remaining == old(bandit.remaining) - spent
        invariant k > 0 && evolution != null ==> evolution.FrontierIsExact()
      {
        ghost var before := candidates;
        var cost := Book(results[k]);
        Teach(before, results[k]);
        spent := spent + cost;
      }
      assert results[..|results|] == results;
    }

    /** One round. The whole frontier of the evolutionary optimiser, if it is in use, is listed, and
        after at least one result that is the exact one. Only the stopping rules, asked last, can fail. */
    method Update(results: seq<Candidate>, wallTime: real) returns (failed: bool, stop: bool, why: Reason)
      requires Valid()
      modifies this, bandit, rules, evolution
      ensures Valid()
      ensures Answers(rules.config, rules.state, failed, stop, why)
      ensures rules.state.bestScores == old(rules.state.bestScores) +
        if candidates == [] then [] else [BestOf(Scores(candidates, primary), maximize)]
      ensures candidates == old(candidates) + results && iteration == old(iteration) + 1
      ensures evolution == null || candidates == [] ==> frontier == old(frontier)
      ensures evolution != null && candidates != [] ==>
        frontier == ListedFor(candidates, ParamsOf(evolution.paretoFrontier)) &&
          AllListed(frontier, candidates, evolution.paretoFrontier)
      ensures evolution != null && results != [] ==> evolution.FrontierIsExact()
      ensures rules.state.wallTime == wallTime
      ensures iteration >= rules.config.minIterations && iteration >= rules.config.maxIterations ==> stop
    {
      iteration := iteration + 1;
      var spent := BookAll(results);
      UpdateParetoFrontier();
      failed, stop, why := AskRules(old(candidates), results, spent, wallTime);
    }

    /** Records the best score of all and asks the rules. */
    method AskRules(ghost before: seq<Candidate>, results: seq<Candidate>, spent: real, wallTime: real)
      returns (failed: bool, stop: bool, why: Reason)
      requires candidates == before + results && Recorded(rules.state.bestScores, before, primary, maximize)
      modifies rules
      ensures rules.state.iteration == old(rules.state.iteration) + 1
      ensures rules.state.evaluations == old(rules.state.evaluations) + |results|
      ensures rules.state.budgetSpent == old(rules.state.budgetSpent) + spent && rules.state.wallTime == wallTime
      ensures Recorded(rules.state.bestScores, candidates, primary, maximize)
      ensures rules.state.bestScores == old(rules.state.bestScores) +
        if candidates == [] then [] else [BestOf(Scores(candidates, primary), maximize)]
      ensures Answers(rules.config, rules.state, failed, stop, why)
      ensures rules.state.iteration >= rules.config.minIterations && rules.state.iteration >= rules.config.maxIterations
        ==> stop
    {
      var bestScore := None;
      if candidates != [] {
        bestScore := Some(BestOf(Scores(candidates, primary), maximize));
      }
      RecordedNext(rules.state.bestScores, before, results, primary, maximize);
      rules.Update(bestScore, None, |results|, spent, wallTime);
      failed, stop, why := rules.Check();
    }

    method UpdateParetoFrontier()
      requires Taught(candidates)
      modifies `frontier
      ensures evolution == null || candidates == [] ==> frontier == old(frontier)
      ensures evolution != null && candidates != [] ==>
        frontier == ListedFor(candidates, ParamsOf(evolution.paretoFrontier)) &&
          AllListed(frontier, candidates, evolution.paretoFrontier)
    {
      if candidates == [] || evolution == null {
        return;
      }
      var members := ParamsOf(evolution.paretoFrontier);
      frontier := [];
      for m := 0 to |members|
        invariant frontier == ListedFor(candidates, members[..m])
      {
        var p := members[m];
        assert members[..m + 1][..m] == members[..m];
        var k := FindMatch(candidates, p);
        if k < |candidates| {
          frontier := frontier + [candidates[k]];
        }
      }
      assert members[..|members|] == members;
      WholeFrontierIsListed(candidates, evolution.paretoFrontier);
    }

    /** The first `n` of the offspring the evolutionary optimiser breeds from what is evaluated, which
        at the start of the run is a fresh population. */
    method ProposeEvolutionary(n: nat)
      returns (proposals: seq<Params>, ghost offspring: seq<Params>, ghost parents: seq<Params>, ghost at: nat)
      requires Valid() && (evolution != null && iteration > 0 ==> evolution.InBox())
      modifies `met, evolution, if evolution != null then {evolution.rng} else {}
      ensures Valid()
      ensures proposals == if |offspring| <= n then offspring else offspring[..n]
      ensures evolution == null || n == 0 ==> offspring == []
      ensures evolution != null && n > 0 ==>
        && (iteration > 0 ==> at == old(evolution.rng.next))
        && evolution.AreOffspring(Evolution.Evaluated(evolution.population), offspring, parents, at, evolution.rng.next)
      ensures evolution != null ==> forall p | p in proposals :: evolution.box.Contains(p)
    {
      proposals, offspring, parents, at := [], [], [], 0;
      if evolution == null || n == 0 {
        return;
      }
      if iteration == 0 {
        StartPopulation();
      }
      at := evolution.rng.next;
      var bred;
      bred, parents := Evolve();
      offspring := bred;
      proposals := if |bred| <= n then bred else bred[..n];
    }

    /** Before anything is evaluated, a fresh population forgets nothing. */
    method StartPopulation()
      requires evolution != null && Taught([])
      modifies `met, evolution, evolution.rng
      ensures Taught([]) && evolution.InBox()
    {
      var started := evolution.InitializePopulation();
      met := met + ParamSet(evolution.population);
    }

    method Evolve() returns (offspring: seq<Params>, ghost parents: seq<Params>)
      requires evolution != null && Taught(candidates) && evolution.InBox()
      modifies `met, evolution, evolution.rng
      ensures Taught(candidates) && forall p | p in offspring :: evolution.box.Contains(p)
      ensures evolution.AreOffspring(Evolution.Evaluated(evolution.population), offspring, parents,
        old(evolution.rng.next), evolution.rng.next)
    {
      ghost var before, was := evolution.population, met;
      offspring, parents := evolution.Evolve();
      ghost var more := evolution.population[|before|..];
      met := met + ParamSet(more);
      assert evolution.population == before + more;
      OnlyUnevaluatedAreNew(candidates, before, evolution.population);
      RemembersUnevaluated(evolution.box.names, was, candidates, before, more, met);
    }

    /** After an update with results, and as long as matching was clear, the listed candidates carry
        the objectives of the frontier exactly if, at every place whose latest evaluation leads, the
        first outcome was the latest one. */
    lemma FrontierIsCarried()
      requires Valid() && evolution != null && evolution.FrontierIsExact() && Clear(evolution.box.names, met)
      requires frontier == ListedFor(candidates, ParamsOf(evolution.paretoFrontier))
      ensures AllCarried(frontier, evolution.paretoFrontier) <==>
        forall k: nat | Leads(evolution.goal, evolution.box.names, candidates, k) :: Repeated(candidates, k)
    {
      CarriedIfFirstIsLatest(evolution.goal, evolution.box.names, candidates, evolution.population);
    }
  }

  ghost function ParamSet(xs: seq<Individual>): (r: set<Params>)
    ensures AllMet(r, xs)
  {
    set x | x in xs :: x.params
  }

  lemma OnlyUnevaluatedAreNew(cs: seq<Candidate>, before: seq<Individual>, after: seq<Individual>)
    requires AllKnown(cs, before) && Evolution.Evaluated(after) == Evolution.Evaluated(before)
    ensures AllKnown(cs, after)
  {
    Evolution.EvaluatedElements(before);
    Evolution.EvaluatedElements(after);
    forall x | x in after ensures Known(cs, x) {
      if x.objectives.Some? { assert x in Evolution.Evaluated(after); }
    }
  }

  // ----- proposals -----

  ghost function Feasible(ps: seq<Params>, ok: Params -> bool): seq<Params> {
    if ps == [] then []
    else Feasible(ps[..|ps| - 1], ok) + if ok(ps[|ps| - 1]) then [ps[|ps| - 1]] else []
  }

  lemma {:induction false} FeasibleIsFeasible(ps: seq<Params>, ok: Params -> bool)
    ensures |Feasible(ps, ok)| <= |ps| && forall p | p in Feasible(ps, ok) :: ok(p) && p in ps
  {
    if ps != [] { FeasibleIsFeasible(ps[..|ps| - 1], ok); }
  }

  /** Filtering is one by one, in order. */
  lemma {:induction false} FeasibleJoins(ps: seq<Params>, qs: seq<Params>, ok: Params -> bool)
    ensures Feasible(ps + qs, ok) == Feasible(ps, ok) + Feasible(qs, ok)
  {
    if qs == [] {
      assert ps + qs == ps;
    } else {
      var k := |qs| - 1;
      FeasibleJoins(ps, qs[..k], ok);
      assert ps + qs == (ps + qs[..k]) + [qs[k]] && qs == qs[..k] + [qs[k]];
      FeasibleOneMore(ps + qs[..k], qs[k], ok);
      FeasibleOneMore(qs[..k], qs[k], ok);
    }
  }

  lemma FeasibleOneMore(ps: seq<Params>, p: Params, ok: Params -> bool)
    ensures Feasible(ps + [p], ok) == Feasible(ps, ok) + if ok(p) then [p] else []
    ensures Feasible([], ok) == []
  {
    assert (ps + [p])[..|ps|] == ps;
  }

  lemma {:induction false} FeasibleOfPrefix(ps: seq<Params>, n: nat, ok: Params -> bool)
    requires n <= |ps|
    ensures Feasible(ps[..n], ok) <= Feasible(ps, ok)
    decreases |ps| - n
  {
    if n < |ps| {
      FeasibleOfPrefix(ps, n + 1, ok);
      assert ps[..n + 1][..n] == ps[..n];
    } else {
      assert ps[..n] == ps;
    }
  }

  /** Up to three random draws for each place in the batch. */
  ghost function Draws(draw: nat -> Params, batchSize: nat): (r: seq<Params>)
    ensures |r| == 3 * batchSize && forall i | 0 <= i < |r| :: r[i] == draw(i)
  {
    seq(3 * batchSize, i requires 0 <= i => draw(i))
  }

  method KeepFeasible(proposals: seq<Params>, ok: Params -> bool) returns (feasible: seq<Params>)
    ensures feasible == Feasible(proposals, ok)
  {
    feasible := [];
    for k := 0 to |proposals|
      invariant feasible == Feasible(proposals[..k], ok)
    {
      assert proposals[..k + 1][..k] == proposals[..k];
      if ok(proposals[k]) {
        feasible := feasible + [proposals[k]];
      }
    }
    assert proposals[..|proposals|] == proposals;
  }

  method TopUp(kept: seq<Params>, ok: Params -> bool, draw: nat -> Params, batchSize: nat)
    returns (feasible: seq<Params>, ghost attempts: nat)
    ensures attempts <= 3 * batchSize && feasible == kept + Feasible(Draws(draw, batchSize)[..attempts], ok)
    ensures |feasible| < batchSize ==> attempts == 3 * batchSize
  {
    feasible := kept;
    ghost var draws := Draws(draw, batchSize);
    var tried := 0;
    while |feasible| < batchSize && tried < batchSize * 3
      invariant tried <= |draws| && feasible == kept + Feasible(draws[..tried], ok)
    {
      var params := draw(tried);
      assert draws[..tried + 1][..tried] == draws[..tried];
      if ok(params) {
        feasible := feasible + [params];
      }
      tried := tried + 1;
    }
    attempts := tried;
  }

  /** The filtering half of `propose_batch`: the first places go to the feasible proposals, the
      remaining ones to feasible random draws, as far as the attempts reach. */
  method FillBatch(proposals: seq<Params>, ok: Params -> bool, draw: nat -> Params, batchSize: nat)
    returns (batch: seq<Params>)
    ensures var all := Feasible(proposals, ok) + Feasible(Draws(draw, batchSize), ok);
      batch == if |all| <= batchSize then all else all[..batchSize]
    ensures forall p | p in batch :: ok(p)
  {
    var kept := KeepFeasible(proposals, ok);
    var feasible, attempts := TopUp(kept, ok, draw, batchSize);
    ghost var draws := Draws(draw, batchSize);
    FeasibleIsFeasible(proposals, ok);
    FeasibleIsFeasible(draws[..attempts], ok);
    FeasibleOfPrefix(draws, attempts, ok);
    if |feasible| < batchSize { assert draws[..attempts] == draws; }
    batch := if |feasible| <= batchSize then feasible else feasible[..batchSize];
  }
}
