/** `services/optimizer/evolutionary.py`: the optimiser object, whose population, frontier
    and generation change in place, while its box stays and its frontier stays exact. */
module Evolution {
  import opened Common
  import opened Ranking
  import opened Dominance
  import opened Nsga
  import opened Crowding
  import opened Selection
  import opened RandomState
  import opened Variation

  /** `[(p, o) for p, o in population if o is not None]` */
  function Evaluated(population: seq<Individual>): (r: seq<Individual>)
    ensures forall i | 0 <= i < |r| :: r[i].objectives.Some?
  {
    if population == [] then []
    else
      var last := population[|population| - 1];
      Evaluated(population[..|population| - 1]) + (if last.objectives.Some? then [last] else [])
  }

  lemma {:induction false} EvaluatedElements(population: seq<Individual>)
    ensures forall x :: x in Evaluated(population) <==> x in population && x.objectives.Some?
  {
    if population != [] {
      EvaluatedElements(population[..|population| - 1]);
    }
  }

  /** The evaluated individuals that no evaluated individual dominates, in population order. */
  ghost function FrontierOf(goal: Goal, population: seq<Individual>): seq<Individual>
    requires goal.Valid()
  {
    var evaluated := Evaluated(population);
    Select(evaluated, Undominated(DominatorsOf(goal, evaluated), |evaluated|))
  }

  /** What the frontier means for one individual, without positions: no evaluated individual is
      in every objective at least as good, each in its own direction, and better in one. */
  lemma FrontierMeaning(goal: Goal, population: seq<Individual>, x: Individual)
    requires goal.Valid()
    ensures x in FrontierOf(goal, population) <==>
      x in population && x.objectives.Some? && Unsurpassed(goal, population, x)
  {
    var evaluated := Evaluated(population);
    var dom := DominatorsOf(goal, evaluated);
    EvaluatedElements(population);
    UndominatedAreUnsurpassed(goal, evaluated);
    assert Unsurpassed(goal, population, x) <==> Unsurpassed(goal, evaluated, x);
    SelectedElements(evaluated, dom, x);
    forall i: nat | i < |evaluated| && evaluated[i] == x ensures dom[i] == {} <==> Unsurpassed(goal, evaluated, x) {
      assert i in Undominated(dom, |evaluated|) <==> dom[i] == {};
    }
  }

  lemma SelectedElements<T>(s: seq<T>, dom: Table, x: T)
    requires |dom| == |s|
    ensures x in Select(s, Undominated(dom, |s|)) <==> exists i :: 0 <= i < |s| && s[i] == x && dom[i] == {}
  {
    var u := Undominated(dom, |s|);
    if x in Select(s, u) {
      var k :| 0 <= k < |u| && s[u[k]] == x;
    }
    if i: nat :| i < |s| && s[i] == x && dom[i] == {} {
      assert i in u;
      var k :| 0 <= k < |u| && u[k] == i;
      assert Select(s, u)[k] == x;
    }
  }

  lemma {:induction false} UnevaluatedDoNotCount(population: seq<Individual>, more: seq<Individual>)
    requires forall x | x in more :: x.objectives.None?
    ensures Evaluated(population + more) == Evaluated(population)
    decreases |more|
  {
    if more == [] {
      assert population + more == population;
    } else {
      var l := |more| - 1;
      assert (population + more)[..|population| + l] == population + more[..l];
      UnevaluatedDoNotCount(population, more[..l]);
    }
  }

  lemma SameFrontier(goal: Goal, a: seq<Individual>, b: seq<Individual>)
    requires goal.Valid() && Evaluated(a) == Evaluated(b)
    ensures FrontierOf(goal, a) == FrontierOf(goal, b)
  {
  }

  predicate Differ(names: seq<string>, i: nat, j: nat) { i < |names| && j < |names| && names[i] != names[j] }

  ghost predicate Distinct(names: seq<string>) { forall i: nat, j: nat | i < j < |names| :: Differ(names, i, j) }

  lemma DistinctFromEarlier(names: seq<string>, i: nat)
    requires Distinct(names) && i < |names|
    ensures forall j | 0 <= j < i :: names[j] != names[i]
  {
    forall j: nat | j < i ensures names[j] != names[i] { assert Differ(names, j, i); }
  }

  /** The search box: names, once each, with a non-empty interval for each. */
  datatype Box = Box(names: seq<string>, low: map<string, real>, high: map<string, real>) {
    ghost predicate Valid() {
      && (forall k | k in names :: k in low && k in high && low[k] < high[k])
      && Distinct(names)
    }

    ghost predicate Contains(p: Params)
      requires Valid()
    {
      forall k | k in names :: k in p && low[k] <= p[k] <= high[k]
    }
  }

  /** The match of `observe`: equal up to 1e-10 in every parameter, missing ones counting 0. */
  predicate SameParams(names: seq<string>, p: Params, q: Params) {
    forall k | k in names :: Abs(Lookup(p, k) - Lookup(q, k)) < 0.0000000001
  }

  /** Matching parameters differ by less than 1e-10 each, on either side. */
  lemma MatchingIsClose(names: seq<string>, p: Params, q: Params)
    ensures SameParams(names, p, q) <==>
      forall k | k in names :: -0.0000000001 < Lookup(p, k) - Lookup(q, k) < 0.0000000001
    ensures SameParams(["x"], map["x" := 1.0], map["x" := 1.00000000009])
    ensures !SameParams(["x"], map["x" := 1.0], map["x" := 1.0000000001])
    ensures SameParams(["x"], map["x" := 0.0], map[])
  {
    assert "x" in ["x"];
  }

  /** The first individual whose parameters match, or the length if there is none. */
  function FirstMatch(names: seq<string>, population: seq<Individual>, params: Params): (i: nat)
    ensures i <= |population|
    ensures forall j | 0 <= j < i :: !SameParams(names, population[j].params, params)
    ensures i < |population| ==> SameParams(names, population[i].params, params)
  {
    if population == [] || SameParams(names, population[0].params, params) then 0
    else 1 + FirstMatch(names, population[1..], params)
  }

  /** The population after an observation: the first match is replaced, else it is added. */
  function Recorded(names: seq<string>, population: seq<Individual>, x: Individual): seq<Individual> {
    var i := FirstMatch(names, population, x.params);
    if i < |population| then population[i := x] else population + [x]
  }

  /** The values are those of a crossover whose draws start at `at` on the tape. */
  ghost predicate CrossedAt(low: real, high: real, p1: real, p2: real, eta: real, pow: Power,
                            tape: nat -> Unit, at: nat, c1: real, c2: real)
    requires PowerLaw(pow) && low <= p1 <= high && low <= p2 <= high && eta >= 0.0
  {
    (c1, c2) == CrossoverAt(low, high, p1, p2, eta, pow, tape, at)
  }

  /** Named by its value, so that the arithmetic stays out of the loops over the parameters. */
  ghost function CrossoverAt(low: real, high: real, p1: real, p2: real, eta: real, pow: Power,
                             tape: nat -> Unit, at: nat): (c: (real, real))
    requires PowerLaw(pow) && low <= p1 <= high && low <= p2 <= high && eta >= 0.0
    ensures low <= c.0 <= high && low <= c.1 <= high
  {
    assert IsPair(Children(low, high, p1, p2, eta, tape(at), tape(at + 1), pow),
                  Children(low, high, p1, p2, eta, tape(at), tape(at + 1), pow));
    var c :| IsPair(c, Children(low, high, p1, p2, eta, tape(at), tape(at + 1), pow));
    c
  }

  predicate IsPair(c: (real, real), d: (real, real)) { c == d }

  /** The value is that of a mutation whose draws start at `at` on the tape. */
  ghost predicate MutatedAt(low: real, high: real, value: real, eta: real, pow: Power, rate: real,
                            tape: nat -> Unit, at: nat, r: real)
    requires low < high && eta >= 0.0
  {
    r == MutationAt(low, high, value, eta, pow, rate, tape, at)
  }

  ghost function MutationAt(low: real, high: real, value: real, eta: real, pow: Power, rate: real,
                            tape: nat -> Unit, at: nat): (r: real)
    requires low < high && eta >= 0.0
    ensures low <= value <= high ==> low <= r <= high
    ensures tape(at) >= rate ==> r == value
  {
    var r :| r == if tape(at) < rate then Mutated(low, high, value, eta, tape(at + 1), pow) else value;
    r
  }

  /** The parents are the seats chosen from the ranking, best front first and widest crowding
      distance first, as many as asked for or else all. */
  ghost predicate SelectedBy(goal: Goal, evaluated: seq<Individual>, parents: seq<Params>, size: nat,
                             fronts: seq<seq<nat>>, crowding: seq<seq<Distance>>, chosen: seq<Seat>)
    requires goal.Valid()
  {
    && Ranked(DominatorsOf(goal, evaluated), fronts) && InRange(fronts, evaluated)
    && AreCrowding(goal.names, fronts, evaluated, crowding)
    && BestFirst(fronts, crowding, chosen) && Drawn(parents, chosen, fronts, evaluated)
    && |parents| <= size && (|parents| < size ==> forall y | IsSeat(fronts, y) :: y in chosen)
  }

  ghost predicate AreParents(goal: Goal, evaluated: seq<Individual>, parents: seq<Params>, size: nat)
    requires goal.Valid()
  {
    exists fronts, crowding, chosen :: SelectedBy(goal, evaluated, parents, size, fronts, crowding, chosen)
  }

  class EvolutionaryOptimizer {
    const box: Box
    const goal: Goal
    const populationSize: nat
    const mutationRate: real
    const crossoverRate: real
    const pow: Power
    const rng: Generator
    var population: seq<Individual>
    var generation: nat
    var paretoFrontier: seq<Individual>

    ghost predicate Valid() {
      goal.Valid() && box.Valid() && PowerLaw(pow)
    }

    /** The stored frontier is the non-dominated subset of the evaluated individuals. */
    ghost predicate FrontierIsExact()
      requires Valid()
      reads this
    {
      paretoFrontier == FrontierOf(goal, population)
    }

    /** Every individual lies in the search box. */
    ghost predicate InBox()
      requires Valid()
      reads this
    {
      forall x | x in population :: box.Contains(x.params)
    }

    constructor (box: Box, goal: Goal, populationSize: nat, mutationRate: real, crossoverRate: real,
                 pow: Power, rng: Generator)
      requires box.Valid() && goal.Valid() && PowerLaw(pow)
      ensures Valid() && FrontierIsExact() && InBox()
      ensures population == [] && generation == 0 && this.box == box && this.goal == goal
      ensures this.populationSize == populationSize && this.rng == rng
    {
      this.box, this.goal, this.populationSize := box, goal, populationSize;
      this.mutationRate, this.crossoverRate, this.pow, this.rng := mutationRate, crossoverRate, pow, rng;
      population, generation, paretoFrontier := [], 0, [];
    }

    /** The values of the first `n` parameters are drawn one by one from position `at` of the tape on. */
    ghost predicate DrawnFrom(p: Params, n: nat, at: nat)
      requires Valid() && n <= |box.names|
    {
      forall i: nat | i < n :: DrawnIn(p, i, at)
    }

    ghost predicate DrawnIn(p: Params, i: nat, at: nat)
      requires Valid() && i < |box.names|
    {
      var k := box.names[i];
      k in p && box.low[k] <= p[k] <= box.high[k] && p[k] == Stretched(box.low[k], box.high[k], rng.tape(at + i))
    }

    lemma DrawnOneMore(p: Params, i: nat, at: nat, x: real)
      requires Valid() && i < |box.names| && DrawnFrom(p, i, at)
      requires var k := box.names[i];
        box.low[k] <= x <= box.high[k] && x == Stretched(box.low[k], box.high[k], rng.tape(at + i))
      ensures DrawnFrom(p[box.names[i] := x], i + 1, at)
    {
      DistinctFromEarlier(box.names, i);
      var after := p[box.names[i] := x];
      forall j: nat | j <= i ensures DrawnIn(after, j, at) {
        if j < i {
          assert DrawnIn(p, j, at);
          assert after[box.names[j]] == p[box.names[j]];
        }
      }
    }

    method RandomIndividual() returns (p: Params)
      requires Valid()
      modifies rng
      ensures box.Contains(p)
      ensures DrawnFrom(p, |box.names|, old(rng.next)) && rng.next == old(rng.next) + |box.names|
    {
      p := map[];
      for i := 0 to |box.names|
        invariant DrawnFrom(p, i, old(rng.next)) && rng.next == old(rng.next) + i
      {
        var name := box.names[i];
        var x := rng.Uniform(box.low[name], box.high[name]);
        DrawnOneMore(p, i, old(rng.next), x);
        p := p[name := x];
      }
      DrawnIsInBox(p, old(rng.next));
    }

    lemma DrawnIsInBox(p: Params, at: nat)
      requires Valid() && DrawnFrom(p, |box.names|, at)
      ensures box.Contains(p)
    {
      forall k | k in box.names ensures k in p && box.low[k] <= p[k] <= box.high[k] {
        var i: nat :| i < |box.names| && box.names[i] == k;
        assert DrawnIn(p, i, at);
      }
    }

    /** Random individuals, each from the next draws. */
    ghost predicate AllDrawn(ps: seq<Params>, at: nat, to: nat)
      requires Valid()
    {
      if ps == [] then to == at
      else
        && to >= |box.names| && DrawnFrom(ps[|ps| - 1], |box.names|, to - |box.names|)
        && AllDrawn(ps[..|ps| - 1], at, to - |box.names|)
    }

    lemma OneMoreDrawn(ps: seq<Params>, p: Params, at: nat, middle: nat, to: nat)
      requires Valid() && AllDrawn(ps, at, middle) && DrawnFrom(p, |box.names|, middle) && to == middle + |box.names|
      ensures AllDrawn(ps + [p], at, to)
    {
      assert (ps + [p])[..|ps|] == ps;
    }

    method ProposeRandom(count: nat) returns (r: seq<Params>)
      requires Valid()
      modifies rng
      ensures |r| == count && (forall c | c in r :: box.Contains(c)) && AllDrawn(r, old(rng.next), rng.next)
    {
      r := [];
      for i := 0 to count
        invariant |r| == i && (forall c | c in r :: box.Contains(c)) && AllDrawn(r, old(rng.next), rng.next)
      {
        ghost var middle := rng.next;
        var p := RandomIndividual();
        OneMoreDrawn(r, p, old(rng.next), middle, rng.next);
        r := r + [p];
      }
    }

    lemma UnevaluatedAreInBox(before: seq<Individual>, more: seq<Params>)
      requires Valid() && (forall x | x in before :: box.Contains(x.params)) && forall c | c in more :: box.Contains(c)
      ensures forall x | x in before + Unevaluated(more) :: box.Contains(x.params)
    {
      forall x | x in Unevaluated(more) ensures x.params in more {
        var i :| 0 <= i < |more| && Unevaluated(more)[i] == x;
      }
    }

    /** A fresh population carries no objectives, so a frontier recorded earlier is stale: the
        frontier is right afterwards exactly if it was empty. */
    method InitializePopulation() returns (r: seq<Params>)
      requires Valid()
      modifies this`population, rng
      ensures |population| == |r| == populationSize
      ensures forall i | 0 <= i < |r| :: population[i] == Individual(r[i], None)
      ensures InBox() && AllDrawn(r, old(rng.next), rng.next)
      ensures FrontierIsExact() <==> old(paretoFrontier) == []
    {
      r := ProposeRandom(populationSize);
      population := Unevaluated(r);
      UnevaluatedAreInBox([], r);
      UnevaluatedDoNotCount([], population);
      assert [] + population == population;
    }

    /** One parameter of the simulated binary crossover. */
    method CrossParameter(low: real, high: real, p1: real, p2: real, eta: real) returns (c1: real, c2: real)
      requires Valid() && low <= p1 <= high && low <= p2 <= high && eta >= 0.0
      modifies rng
      ensures CrossedAt(low, high, p1, p2, eta, pow, rng.tape, old(rng.next), c1, c2)
      ensures rng.next == old(rng.next) + CrossDraws(p1, p2, old(rng.next))
    {
      var u := rng.Random();
      if u < 0.5 && Abs(p1 - p2) > 0.0000000001 {
        var rand := rng.Random();
        c1, c2 := SpreadParents(low, high, p1, p2, eta, rand, pow);
      } else {
        c1, c2 := p1, p2;
      }
    }

    /** How many draws the crossover of two values takes that starts at `at`. */
    ghost function CrossDraws(p1: real, p2: real, at: nat): nat {
      if rng.tape(at) < 0.5 && Abs(p1 - p2) > 0.0000000001 then 2 else 1
    }

    /** Where the crossover of parameter `i` starts, that of the first starting at `at`. */
    ghost function CrossStart(parent1: Params, parent2: Params, at: nat, i: nat): (start: nat)
      requires Valid() && box.Contains(parent1) && box.Contains(parent2) && i <= |box.names|
      ensures start >= at
    {
      if i == 0 then at
      else
        var before, name := CrossStart(parent1, parent2, at, i - 1), box.names[i - 1];
        before + CrossDraws(parent1[name], parent2[name], before)
    }

    /** A parameter takes one draw, and a second one only if its values are crossed over, which equal
        values never are. */
    lemma {:induction false} CrossoverDraws(parent1: Params, parent2: Params, at: nat, i: nat)
      requires Valid() && box.Contains(parent1) && box.Contains(parent2) && i <= |box.names|
      ensures at + i <= CrossStart(parent1, parent2, at, i) <= at + 2 * i
      ensures (forall k | k in box.names :: parent1[k] == parent2[k]) ==> CrossStart(parent1, parent2, at, i) == at + i
    {
      if i > 0 {
        CrossoverDraws(parent1, parent2, at, i - 1);
        assert box.names[i - 1] in box.names;
      }
    }

    /** The first `n` parameters of the children are crossed over one by one from `at` on. */
    ghost predicate Crossed(parent1: Params, parent2: Params, eta: real, child1: Params, child2: Params, n: nat,
        at: nat)
      requires Valid() && box.Contains(parent1) && box.Contains(parent2) && eta >= 0.0 && n <= |box.names|
    {
      forall i: nat | i < n :: CrossedIn(parent1, parent2, eta, child1, child2, i, at)
    }

    ghost predicate CrossedIn(parent1: Params, parent2: Params, eta: real, child1: Params, child2: Params, i: nat,
        at: nat)
      requires Valid() && box.Contains(parent1) && box.Contains(parent2) && eta >= 0.0 && i < |box.names|
    {
      var k := box.names[i];
      && k in child1 && k in child2
      && CrossedAt(box.low[k], box.high[k], parent1[k], parent2[k], eta, pow, rng.tape,
           CrossStart(parent1, parent2, at, i), child1[k], child2[k])
    }

    /** Parameter by parameter a crossover of the parents' values, each with the next draws. */
    method SbxCrossover(parent1: Params, parent2: Params, eta: real := 20.0) returns (child1: Params, child2: Params)
      requires Valid() && box.Contains(parent1) && box.Contains(parent2) && eta >= 0.0
      modifies rng
      ensures box.Contains(child1) && box.Contains(child2)
      ensures Crossed(parent1, parent2, eta, child1, child2, |box.names|, old(rng.next))
      ensures rng.next == CrossStart(parent1, parent2, old(rng.next), |box.names|)
    {
      child1, child2 := map[], map[];
      for i := 0 to |box.names|
        invariant Crossed(parent1, parent2, eta, child1, child2, i, old(rng.next))
        invariant rng.next == CrossStart(parent1, parent2, old(rng.next), i)
      {
        var name := box.names[i];
        var c1, c2 := CrossParameter(box.low[name], box.high[name], parent1[name], parent2[name], eta);
        CrossedOneMore(parent1, parent2, eta, child1, child2, i, old(rng.next), c1, c2);
        child1, child2 := child1[name := c1], child2[name := c2];
      }
      CrossedIsInBox(parent1, parent2, eta, child1, child2, old(rng.next));
    }

    lemma CrossedOneMore(parent1: Params, parent2: Params, eta: real, child1: Params, child2: Params, i: nat, at: nat,
        c1: real, c2: real)
      requires Valid() && box.Contains(parent1) && box.Contains(parent2) && eta >= 0.0 && i < |box.names|
      requires Crossed(parent1, parent2, eta, child1, child2, i, at)
      requires var k := box.names[i]; CrossedAt(box.low[k], box.high[k], parent1[k], parent2[k], eta, pow, rng.tape,
        CrossStart(parent1, parent2, at, i), c1, c2)
      ensures var k := box.names[i]; Crossed(parent1, parent2, eta, child1[k := c1], child2[k := c2], i + 1, at)
    {
      DistinctFromEarlier(box.names, i);
      var after1, after2 := child1[box.names[i] := c1], child2[box.names[i] := c2];
      forall j: nat | j <= i ensures CrossedIn(parent1, parent2, eta, after1, after2, j, at) {
        if j < i {
          assert CrossedIn(parent1, parent2, eta, child1, child2, j, at);
          assert after1[box.names[j]] == child1[box.names[j]] && after2[box.names[j]] == child2[box.names[j]];
        }
      }
    }

    lemma CrossedIsInBox(parent1: Params, parent2: Params, eta: real, child1: Params, child2: Params, at: nat)
      requires Valid() && box.Contains(parent1) && box.Contains(parent2) && eta >= 0.0
      requires Crossed(parent1, parent2, eta, child1, child2, |box.names|, at)
      ensures box.Contains(child1) && box.Contains(child2)
    {
      forall k | k in box.names
        ensures k in child1 && k in child2
        ensures box.low[k] <= child1[k] <= box.high[k] && box.low[k] <= child2[k] <= box.high[k]
      {
        var i: nat :| i < |box.names| && box.names[i] == k;
        assert CrossedIn(parent1, parent2, eta, child1, child2, i, at);
      }
    }

    /** One parameter of the polynomial mutation. */
    method MutateParameter(low: real, high: real, value: real, eta: real) returns (r: real)
      requires low < high && low <= value <= high && eta >= 0.0
      modifies rng
      ensures MutatedAt(low, high, value, eta, pow, mutationRate, rng.tape, old(rng.next), r)
      ensures rng.next == old(rng.next) + MutateDraws(old(rng.next))
    {
      var u := rng.Random();
      if u < mutationRate {
        var rand := rng.Random();
        r := MutateBy(low, high, value, eta, rand, pow);
      } else {
        r := value;
      }
    }

    /** How many draws the mutation of a value takes that starts at `at`. */
    ghost function MutateDraws(at: nat): nat { if rng.tape(at) < mutationRate then 2 else 1 }

    /** Where the mutation of parameter `i` starts, that of the first starting at `at`. */
    ghost function MutateStart(at: nat, i: nat): (start: nat)
      ensures start >= at
    {
      if i == 0 then at else MutateStart(at, i - 1) + MutateDraws(MutateStart(at, i - 1))
    }

    /** A parameter takes one draw, and a second one only if it is mutated. */
    lemma {:induction false} MutationDraws(at: nat, i: nat)
      ensures at + i <= MutateStart(at, i) <= at + 2 * i
      ensures mutationRate <= 0.0 ==> MutateStart(at, i) == at + i
      ensures mutationRate >= 1.0 ==> MutateStart(at, i) == at + 2 * i
    {
      if i > 0 { MutationDraws(at, i - 1); }
    }

    /** The first `n` parameters are mutated one by one from `at` on. */
    ghost predicate MutatedFrom(individual: Params, eta: real, mutated: Params, n: nat, at: nat)
      requires Valid() && box.Contains(individual) && eta >= 0.0 && n <= |box.names|
    {
      forall i: nat | i < n :: MutatedIn(individual, eta, mutated, i, at)
    }

    ghost predicate MutatedIn(individual: Params, eta: real, mutated: Params, i: nat, at: nat)
      requires Valid() && box.Contains(individual) && eta >= 0.0 && i < |box.names|
    {
      var k := box.names[i];
      && k in mutated
      && MutatedAt(box.low[k], box.high[k], individual[k], eta, pow, mutationRate, rng.tape,
           MutateStart(at, i), mutated[k])
    }

    /** Parameter by parameter a mutation of the old value, each with the next draws. */
    method PolynomialMutation(individual: Params, eta: real := 20.0) returns (mutated: Params)
      requires Valid() && box.Contains(individual) && eta >= 0.0
      modifies rng
      ensures box.Contains(mutated) && mutated.Keys == set k | k in box.names
      ensures MutatedFrom(individual, eta, mutated, |box.names|, old(rng.next))
      ensures rng.next == MutateStart(old(rng.next), |box.names|)
    {
      mutated := map[];
      for i := 0 to |box.names|
        invariant HasNames(mutated, i)
        invariant MutatedFrom(individual, eta, mutated, i, old(rng.next))
        invariant rng.next == MutateStart(old(rng.next), i)
      {
        var name := box.names[i];
        var x := MutateParameter(box.low[name], box.high[name], individual[name], eta);
        MutatedOneMore(individual, eta, mutated, i, old(rng.next), x);
        OneMoreName(mutated, i, x);
        mutated := mutated[name := x];
      }
      assert box.names[..|box.names|] == box.names;
      MutatedIsInBox(individual, eta, mutated, old(rng.next));
    }

    ghost predicate HasNames(p: Params, n: nat)
      requires n <= |box.names|
    {
      p.Keys == set k | k in box.names[..n]
    }

    lemma OneMoreName(p: Params, i: nat, x: real)
      requires i < |box.names| && HasNames(p, i)
      ensures HasNames(p[box.names[i] := x], i + 1)
    {
      assert box.names[..i + 1] == box.names[..i] + [box.names[i]];
    }

    lemma MutatedOneMore(individual: Params, eta: real, mutated: Params, i: nat, at: nat, x: real)
      requires Valid() && box.Contains(individual) && eta >= 0.0 && i < |box.names|
      requires MutatedFrom(individual, eta, mutated, i, at)
      requires var k := box.names[i];
        MutatedAt(box.low[k], box.high[k], individual[k], eta, pow, mutationRate, rng.tape, MutateStart(at, i), x)
      ensures MutatedFrom(individual, eta, mutated[box.names[i] := x], i + 1, at)
    {
      DistinctFromEarlier(box.names, i);
      var after := mutated[box.names[i] := x];
      forall j: nat | j <= i ensures MutatedIn(individual, eta, after, j, at) {
        if j < i {
          assert MutatedIn(individual, eta, mutated, j, at);
          assert after[box.names[j]] == mutated[box.names[j]];
        }
      }
    }

    lemma MutatedIsInBox(individual: Params, eta: real, mutated: Params, at: nat)
      requires Valid() && box.Contains(individual) && eta >= 0.0
      requires MutatedFrom(individual, eta, mutated, |box.names|, at)
      ensures box.Contains(mutated)
    {
      forall k | k in box.names ensures k in mutated && box.low[k] <= mutated[k] <= box.high[k] {
        var i: nat :| i < |box.names| && box.names[i] == k;
        assert MutatedIn(individual, eta, mutated, i, at);
      }
    }

    /** Rebuilds the frontier from scratch, unless nothing has been evaluated. */
    method UpdateParetoFrontier()
      requires Valid()
      modifies this`paretoFrontier
      ensures Evaluated(population) != [] ==> FrontierIsExact()
      ensures Evaluated(population) == [] ==> paretoFrontier == old(paretoFrontier)
    {
      var evaluated := Evaluated(population);
      if evaluated == [] {
        return;
      }
      var fronts := NonDominatedSort(goal, evaluated);
      if fronts != [] {
        paretoFrontier := Select(evaluated, fronts[0]);
      }
    }

    /** Finds the first individual with these parameters, if any. */
    method Find(params: Params) returns (i: nat)
      ensures i == FirstMatch(box.names, population, params)
    {
      i := 0;
      while i < |population| && !SameParams(box.names, population[i].params, params)
        invariant i <= |population|
        invariant FirstMatch(box.names, population, params) == i + FirstMatch(box.names, population[i..], params)
      {
        i := i + 1;
      }
    }

    /** Records an observation. The frontier is right afterwards even if it was stale. */
    method Observe(params: Params, objectives: Objectives)
      requires Valid()
      modifies this`population, this`paretoFrontier
      ensures population == Recorded(box.names, old(population), Individual(params, Some(objectives)))
      ensures FrontierIsExact()
      ensures old(InBox()) && box.Contains(params) ==> InBox()
    {
      var x := Individual(params, Some(objectives));
      Put(x);
      EvaluatedElements(population);
      assert x in Evaluated(population);
      UpdateParetoFrontier();
    }

    method Put(x: Individual)
      requires Valid()
      modifies this`population
      ensures population == Recorded(box.names, old(population), x) && x in population
      ensures old(InBox()) && box.Contains(x.params) ==> InBox()
    {
      var i := Find(x.params);
      if i < |population| {
        population := population[i := x];
      } else {
        population := population + [x];
      }
      assert population[i] in population;
    }

    /** All these can be parents. */
    ghost predicate Fertile(parents: seq<Params>)
      requires Valid()
    {
      parents != [] && forall p | p in parents :: box.Contains(p)
    }

    /** The parent that the draw at `at` picks. */
    ghost function Picked(parents: seq<Params>, at: nat): (p: Params)
      requires Valid() && Fertile(parents)
      ensures p in parents && box.Contains(p)
    {
      var p :| p == parents[Pick(rng.tape(at), |parents|)];
      p
    }

    /** Where the mutations of a pair start whose draws start at `at`. */
    ghost function PairCrossed(parents: seq<Params>, at: nat): (start: nat)
      requires Valid() && Fertile(parents)
    {
      var a1, a2 := Picked(parents, at), Picked(parents, at + 1);
      if rng.tape(at + 2) < crossoverRate then CrossStart(a1, a2, at + 3, |box.names|) else at + 3
    }

    /** The first two draws pick the parents, the third decides whether they are crossed over or
        copied. */
    ghost predicate CrossedOrCopied(parents: seq<Params>, b1: Params, b2: Params, at: nat)
      requires Valid() && Fertile(parents)
    {
      var a1, a2 := Picked(parents, at), Picked(parents, at + 1);
      && box.Contains(b1) && box.Contains(b2)
      && if rng.tape(at + 2) < crossoverRate then Crossed(a1, a2, 20.0, b1, b2, |box.names|, at + 3)
         else b1 == a1 && b2 == a2
    }

    /** Both are mutated, the first one first. */
    ghost predicate BothMutated(b1: Params, b2: Params, c1: Params, c2: Params, at: nat, to: nat)
      requires Valid() && box.Contains(b1) && box.Contains(b2)
    {
      var second := MutateStart(at, |box.names|);
      && MutatedFrom(b1, 20.0, c1, |box.names|, at) && MutatedFrom(b2, 20.0, c2, |box.names|, second)
      && to == MutateStart(second, |box.names|)
    }

    ghost predicate Lineage(parents: seq<Params>, b1: Params, b2: Params, c1: Params, c2: Params, at: nat, to: nat)
      requires Valid() && Fertile(parents)
    {
      CrossedOrCopied(parents, b1, b2, at) && BothMutated(b1, b2, c1, c2, PairCrossed(parents, at), to)
    }

    /** The pair comes from the parents by the draws from `at` up to `to`. */
    ghost predicate BredFrom(parents: seq<Params>, c1: Params, c2: Params, at: nat, to: nat)
      requires Valid() && Fertile(parents)
    {
      exists b1, b2 :: Lineage(parents, b1, b2, c1, c2, at, to)
    }

    /** The offspring are pairs bred from the parents, each with the draws behind those of the pair
        before. */
    ghost predicate AllBred(parents: seq<Params>, offspring: seq<Params>, at: nat, to: nat)
      requires Valid() && Fertile(parents)
    {
      if |offspring| < 2 then offspring == [] && to == at
      else
        var n := |offspring| - 2;
        exists middle: nat :: AllBred(parents, offspring[..n], at, middle)
          && BredFrom(parents, offspring[n], offspring[n + 1], middle, to)
    }

    lemma Unmutated(b: Params, c: Params, at: nat)
      requires Valid() && box.Contains(b) && mutationRate <= 0.0 && MutatedFrom(b, 20.0, c, |box.names|, at)
      ensures forall k | k in box.names :: k in c && c[k] == b[k]
    {
      forall k | k in box.names ensures k in c && c[k] == b[k] {
        var i: nat :| i < |box.names| && box.names[i] == k;
        assert MutatedIn(b, 20.0, c, i, at);
      }
    }

    lemma SameChildren(a1: Params, a2: Params, b1: Params, b2: Params, c1: Params, c2: Params, at: nat)
      requires Valid() && box.Contains(a1) && box.Contains(a2) && Crossed(a1, a2, 20.0, b1, b2, |box.names|, at)
      requires forall k | k in box.names ::
        k in b1 && k in b2 && k in c1 && k in c2 && c1[k] == b1[k] && c2[k] == b2[k]
      ensures Crossed(a1, a2, 20.0, c1, c2, |box.names|, at)
    {
      forall i: nat | i < |box.names| ensures CrossedIn(a1, a2, 20.0, c1, c2, i, at) {
        assert CrossedIn(a1, a2, 20.0, b1, b2, i, at);
        assert box.names[i] in box.names;
      }
    }

    /** With a crossover rate of at least one, and no mutation, every pair is a crossover. */
    lemma AlwaysCrossed(parents: seq<Params>, c1: Params, c2: Params, at: nat, to: nat)
      requires Valid() && Fertile(parents) && crossoverRate >= 1.0 && mutationRate <= 0.0
      requires BredFrom(parents, c1, c2, at, to)
      ensures var a1, a2 := Picked(parents, at), Picked(parents, at + 1);
        Crossed(a1, a2, 20.0, c1, c2, |box.names|, at + 3)
    {
      var a1, a2 := Picked(parents, at), Picked(parents, at + 1);
      var b1, b2 :| Lineage(parents, b1, b2, c1, c2, at, to);
      var first := PairCrossed(parents, at);
      Unmutated(b1, c1, first);
      Unmutated(b2, c2, MutateStart(first, |box.names|));
      SameChildren(a1, a2, b1, b2, c1, c2, at + 3);
    }

    /** With a crossover rate of zero, and no mutation, nothing new is bred. */
    lemma NeverCrossed(parents: seq<Params>, c1: Params, c2: Params, at: nat, to: nat)
      requires Valid() && Fertile(parents) && crossoverRate <= 0.0 && mutationRate <= 0.0
      requires BredFrom(parents, c1, c2, at, to)
      ensures var a1, a2 := Picked(parents, at), Picked(parents, at + 1);
        forall k | k in box.names :: k in c1 && k in c2 && c1[k] == a1[k] && c2[k] == a2[k]
    {
      var b1, b2 :| Lineage(parents, b1, b2, c1, c2, at, to);
      var first := PairCrossed(parents, at);
      Unmutated(b1, c1, first);
      Unmutated(b2, c2, MutateStart(first, |box.names|));
    }

    /** Two parents at random, crossed over or copied, and mutated. */
    method Breed(parents: seq<Params>) returns (child1: Params, child2: Params)
      requires Valid() && Fertile(parents)
      modifies rng
      ensures box.Contains(child1) && box.Contains(child2)
      ensures BredFrom(parents, child1, child2, old(rng.next), rng.next)
    {
      var b1, b2 := Couple(parents);
      ghost var first := rng.next;
      child1 := PolynomialMutation(b1);
      child2 := PolynomialMutation(b2);
      assert BothMutated(b1, b2, child1, child2, first, rng.next);
      assert Lineage(parents, b1, b2, child1, child2, old(rng.next), rng.next);
    }

    method Couple(parents: seq<Params>) returns (child1: Params, child2: Params)
      requires Valid() && Fertile(parents)
      modifies rng
      ensures CrossedOrCopied(parents, child1, child2, old(rng.next)) && rng.next == PairCrossed(parents, old(rng.next))
    {
      var parent1 := PickParent(parents);
      var parent2 := PickParent(parents);
      child1, child2 := CrossOrCopy(parent1, parent2);
    }

    method PickParent(parents: seq<Params>) returns (parent: Params)
      requires Valid() && Fertile(parents)
      modifies rng
      ensures rng.next == old(rng.next) + 1 && parent == Picked(parents, old(rng.next))
    {
      var i := rng.RandInt(|parents|);
      parent := parents[i];
    }

    method CrossOrCopy(parent1: Params, parent2: Params) returns (child1: Params, child2: Params)
      requires Valid() && box.Contains(parent1) && box.Contains(parent2)
      modifies rng
      ensures box.Contains(child1) && box.Contains(child2)
      ensures if rng.tape(old(rng.next)) < crossoverRate then
          && Crossed(parent1, parent2, 20.0, child1, child2, |box.names|, old(rng.next) + 1)
          && rng.next == CrossStart(parent1, parent2, old(rng.next) + 1, |box.names|)
        else child1 == parent1 && child2 == parent2 && rng.next == old(rng.next) + 1
    {
      var u := rng.Random();
      if u < crossoverRate {
        child1, child2 := SbxCrossover(parent1, parent2);
      } else {
        child1, child2 := parent1, parent2;
      }
    }

    method BreedPair(parents: seq<Params>, ghost offspring: seq<Params>, ghost at: nat)
      returns (child1: Params, child2: Params)
      requires Valid() && Fertile(parents) && AllBred(parents, offspring, at, rng.next)
      modifies rng
      ensures box.Contains(child1) && box.Contains(child2)
      ensures AllBred(parents, offspring + [child1, child2], at, rng.next)
    {
      ghost var middle := rng.next;
      child1, child2 := Breed(parents);
      OneMorePair(parents, offspring, child1, child2, at, middle, rng.next);
    }

    /** Children come in pairs, so there is one more than asked for if that is odd. */
    method BreedAll(parents: seq<Params>, count: nat) returns (offspring: seq<Params>)
      requires Valid() && (count > 0 ==> parents != []) && forall p | p in parents :: box.Contains(p)
      modifies rng
      ensures |offspring| % 2 == 0 && count <= |offspring| < count + 2 && forall c | c in offspring :: box.Contains(c)
      ensures parents != [] ==> AllBred(parents, offspring, old(rng.next), rng.next)
    {
      offspring := [];
      ghost var pairs := 0;
      while |offspring| < count
        invariant |offspring| == 2 * pairs < count + 2
        invariant parents != [] ==> AllBred(parents, offspring, old(rng.next), rng.next)
        invariant forall c | c in offspring :: box.Contains(c)
      {
        var child1, child2 := BreedPair(parents, offspring, old(rng.next));
        offspring, pairs := offspring + [child1, child2], pairs + 1;
      }
      TwiceIsEven(pairs);
    }

    lemma OneMorePair(parents: seq<Params>, offspring: seq<Params>, child1: Params, child2: Params, at: nat,
        middle: nat, to: nat)
      requires Valid() && Fertile(parents)
      requires AllBred(parents, offspring, at, middle) && BredFrom(parents, child1, child2, middle, to)
      ensures AllBred(parents, offspring + [child1, child2], at, to)
    {
      var after := offspring + [child1, child2];
      assert after[..|after| - 2] == offspring;
    }

    /** With fewer than four evaluated individuals, half a population of random ones, and otherwise pairs
        bred from the parents that the ranking selects; with the draws from `at` up to `to`. */
    ghost predicate AreOffspring(evaluated: seq<Individual>, offspring: seq<Params>, parents: seq<Params>, at: nat,
        to: nat)
      requires Valid()
    {
      if |evaluated| < 4 then |offspring| == populationSize / 2 && AllDrawn(offspring, at, to)
      else
        && |offspring| % 2 == 0 && populationSize / 2 <= |offspring| < populationSize / 2 + 2
        && AreParents(goal, evaluated, parents, populationSize)
        && (parents != [] ==> Fertile(parents) && AllBred(parents, offspring, at, to))
        && (populationSize > 0 ==> parents != [])
    }

    /** With fewer than four evaluated individuals, proposes random ones and leaves the
        population alone. Otherwise adds an even number of offspring, at least half the
        population size. Either way nothing evaluated changes, so the frontier stays right. */
    method Evolve() returns (offspring: seq<Params>, ghost parents: seq<Params>)
      requires Valid() && InBox()
      modifies this`population, this`generation, rng
      ensures generation == old(generation) + 1
      ensures forall c | c in offspring :: box.Contains(c)
      ensures InBox() && (old(FrontierIsExact()) ==> FrontierIsExact())
      ensures Evaluated(population) == old(Evaluated(population))
      ensures population == old(population) + if |old(Evaluated(population))| < 4 then [] else Unevaluated(offspring)
      ensures |old(Evaluated(population))| < 4 ==> |offspring| == populationSize / 2
      ensures |old(Evaluated(population))| >= 4 ==>
        |offspring| % 2 == 0 && populationSize / 2 <= |offspring| < populationSize / 2 + 2
      ensures AreOffspring(old(Evaluated(population)), offspring, parents, old(rng.next), rng.next)
    {
      generation := generation + 1;
      var evaluated := Evaluated(population);
      EvaluatedElements(population);
      if |evaluated| < 4 {
        offspring := ProposeRandom(populationSize / 2);
        parents := [];
        return;
      }
      var chosen := ChooseParents(evaluated);
      parents := chosen;
      offspring := NextGeneration(chosen);
      SameFrontier(goal, old(population), population);
    }

    /** Offspring join the population unevaluated. */
    method NextGeneration(parents: seq<Params>) returns (offspring: seq<Params>)
      requires Valid() && InBox() && (populationSize > 0 ==> parents != [])
      requires forall p | p in parents :: box.Contains(p)
      modifies this`population, rng
      ensures |offspring| % 2 == 0 && populationSize / 2 <= |offspring| < populationSize / 2 + 2
      ensures forall c | c in offspring :: box.Contains(c)
      ensures population == old(population) + Unevaluated(offspring)
      ensures parents != [] ==> AllBred(parents, offspring, old(rng.next), rng.next)
      ensures Evaluated(population) == old(Evaluated(population)) && InBox()
    {
      offspring := BreedAll(parents, populationSize / 2);
      Join(offspring);
    }

    method Join(offspring: seq<Params>)
      requires Valid() && InBox() && forall c | c in offspring :: box.Contains(c)
      modifies this`population
      ensures population == old(population) + Unevaluated(offspring)
      ensures Evaluated(population) == old(Evaluated(population)) && InBox()
    {
      UnevaluatedDoNotCount(population, Unevaluated(offspring));
      UnevaluatedAreInBox(population, offspring);
      population := population + Unevaluated(offspring);
    }

    /** The parents of a generation: never none as long as any are asked for. */
    method ChooseParents(evaluated: seq<Individual>) returns (parents: seq<Params>)
      requires Valid() && evaluated != [] && forall x | x in evaluated :: x.objectives.Some? && box.Contains(x.params)
      ensures populationSize > 0 ==> parents != []
      ensures forall p | p in parents :: box.Contains(p)
      ensures AreParents(goal, evaluated, parents, populationSize)
    {
      var fronts := NonDominatedSort(goal, evaluated);
      RankedIsInRange(goal, evaluated, fronts);
      ghost var chosen, crowding;
      parents, chosen, crowding := SelectParents(goal.names, fronts, evaluated, populationSize);
      assert SelectedBy(goal, evaluated, parents, populationSize, fronts, crowding, chosen);
    }
  }

  lemma TwiceIsEven(pairs: nat)
    ensures (2 * pairs) % 2 == 0
  {
  }

  lemma RankedIsInRange(goal: Goal, evaluated: seq<Individual>, fronts: seq<seq<nat>>)
    requires goal.Valid() && evaluated != [] && forall x | x in evaluated :: x.objectives.Some?
    requires Ranked(DominatorsOf(goal, evaluated), fronts)
    ensures InRange(fronts, evaluated) && IsSeat(fronts, Seat(0, 0))
  {
    forall k, p | 0 <= k < |fronts| && 0 <= p < |fronts[k]| ensures fronts[k][p] < |evaluated| {
      assert fronts[k][p] in fronts[k];
    }
    assert Placed(fronts, 0);
  }

  /** `[(child, None) for child in offspring]` */
  function Unevaluated(offspring: seq<Params>): (r: seq<Individual>)
    ensures |r| == |offspring| && forall i | 0 <= i < |r| :: r[i] == Individual(offspring[i], None)
  {
    seq(|offspring|, i requires 0 <= i < |offspring| => Individual(offspring[i], None))
  }
}
