/** `services/optimizer/evolutionary.py`, the front-by-front choice of parents in `evolve`. */
module Selection {
  import opened Ranking
  import opened Nsga
  import opened Orderings
  import opened Crowding

  /** `-distance`, the key parents are sorted by. */
  function Negated(d: Distance): Key {
    if d.Infinite? then MinusInfinity else Real(-d.value)
  }

  function NegatedAll(s: seq<Distance>): (r: seq<Key>)
    ensures |r| == |s| && forall i | 0 <= i < |s| :: r[i] == Negated(s[i])
  {
    seq(|s|, i requires 0 <= i < |s| => Negated(s[i]))
  }

  /** At least as far from its neighbours. */
  predicate AtLeast(a: Distance, b: Distance) {
    a.Infinite? || (b.Finite? && a.value >= b.value)
  }

  /** A member of a front, by the number of the front and the position in it. */
  datatype Seat = Seat(front: nat, at: nat)

  predicate IsSeat(fronts: seq<seq<nat>>, s: Seat) {
    s.front < |fronts| && s.at < |fronts[s.front]|
  }

  /** Seated in a better front, or in the same front with at least the crowding distance. */
  predicate Ahead(crowding: seq<seq<Distance>>, x: Seat, y: Seat) {
    || x.front < y.front
    || (x.front == y.front < |crowding| && x.at < |crowding[x.front]| && y.at < |crowding[x.front]|
        && AtLeast(crowding[x.front][x.at], crowding[x.front][y.at]))
  }

  /** The chosen seats stand in order, ahead of everyone who is not chosen. */
  ghost predicate BestFirst(fronts: seq<seq<nat>>, crowding: seq<seq<Distance>>, chosen: seq<Seat>) {
    && NoDuplicates(chosen)
    && (forall a | 0 <= a < |chosen| :: IsSeat(fronts, chosen[a]))
    && (forall a, b | 0 <= a < b < |chosen| :: Ahead(crowding, chosen[a], chosen[b]))
    && (forall a, y | 0 <= a < |chosen| && IsSeat(fronts, y) && y !in chosen :: Ahead(crowding, chosen[a], y))
  }

  /** Exactly the fronts before `k` are chosen. */
  ghost predicate TakenBefore(fronts: seq<seq<nat>>, chosen: seq<Seat>, k: nat) {
    forall y | IsSeat(fronts, y) :: y in chosen <==> y.front < k
  }

  /** Of front `k`, exactly the first `r` positions of `order` are chosen. */
  ghost predicate TakenUpTo(fronts: seq<seq<nat>>, chosen: seq<Seat>, k: nat, place: seq<nat>, r: nat)
    requires k < |fronts| && |place| == |fronts[k]|
  {
    forall y | IsSeat(fronts, y) :: y in chosen <==> y.front < k || (y.front == k && place[y.at] < r)
  }

  /** The distances are the crowding distances of the front. */
  ghost predicate IsCrowding(names: seq<string>, front: seq<nat>, population: seq<Individual>, distances: seq<Distance>)
    requires forall k | 0 <= k < |front| :: front[k] < |population| && population[front[k]].objectives.Some?
  {
    && |distances| == |front|
    && if |front| <= 2 then forall p | 0 <= p < |front| :: distances[p] == Infinite
       else exists all :: Arranges(all, front, population, names)
                          && forall p | 0 <= p < |front| :: distances[p] == Crowd(all, |front|, p)
  }

  ghost predicate AreCrowding(names: seq<string>, fronts: seq<seq<nat>>, population: seq<Individual>,
      crowding: seq<seq<Distance>>)
    requires InRange(fronts, population)
  {
    |crowding| <= |fronts| && forall k | 0 <= k < |crowding| :: IsCrowding(names, fronts[k], population, crowding[k])
  }

  /** The crowding distances of the next front, and the order parents are taken from it. */
  method MeasureFront(names: seq<string>, ghost fronts: seq<seq<nat>>, front: seq<nat>, evaluated: seq<Individual>,
                      ghost crowding0: seq<seq<Distance>>)
    returns (order: seq<nat>, ghost place: seq<nat>, ghost crowding: seq<seq<Distance>>)
    requires InRange(fronts, evaluated) && AreCrowding(names, fronts, evaluated, crowding0)
    requires |crowding0| < |fronts| && fronts[|crowding0|] == front
    ensures |crowding| == |crowding0| + 1 && crowding0 == crowding[..|crowding0|]
    ensures AreCrowding(names, fronts, evaluated, crowding) && |crowding[|crowding0|]| == |front|
    ensures IsOrdering(order, place, NegatedAll(crowding[|crowding0|]))
  {
    var distances;
    ghost var all;
    distances, all := CrowdingDistance(names, front, evaluated);
    assert IsCrowding(names, front, evaluated, distances);
    var sorted := SortIndices(NegatedAll(distances));
    order, place, crowding := sorted.0, sorted.1, crowding0 + [distances];
  }

  lemma TakeNext(fronts: seq<seq<nat>>, crowding: seq<seq<Distance>>, chosen: seq<Seat>, k: nat,
                 order: seq<nat>, place: seq<nat>, r: nat)
    requires k < |fronts| && k < |crowding| && |crowding[k]| == |fronts[k]| && r < |fronts[k]|
    requires IsOrdering(order, place, NegatedAll(crowding[k]))
    requires BestFirst(fronts, crowding, chosen) && TakenUpTo(fronts, chosen, k, place, r)
    ensures BestFirst(fronts, crowding, chosen + [Seat(k, order[r])])
    ensures TakenUpTo(fronts, chosen + [Seat(k, order[r])], k, place, r + 1)
  {
    var next := Seat(k, order[r]);
    assert next !in chosen;
    var more := chosen + [next];
    forall y | IsSeat(fronts, y) ensures y in more <==> y.front < k || (y.front == k && place[y.at] < r + 1) {
      assert y in more <==> y in chosen || y == next;
    }
    forall y | IsSeat(fronts, y) && y !in more ensures Ahead(crowding, next, y) {
      assert y !in chosen;
      if y.front == k {
        var keys := NegatedAll(crowding[k]);
        assert keys[order[r]].AtMost(keys[order[place[y.at]]]);
      }
    }
  }

  /** The parents are the parameters of the chosen seats. */
  ghost predicate Drawn(parents: seq<Params>, chosen: seq<Seat>, fronts: seq<seq<nat>>, evaluated: seq<Individual>)
    requires InRange(fronts, evaluated)
  {
    && |parents| == |chosen|
    && forall a | 0 <= a < |chosen| ::
      IsSeat(fronts, chosen[a]) && parents[a] == evaluated[fronts[chosen[a].front][chosen[a].at]].params
  }

  ghost predicate InRange(fronts: seq<seq<nat>>, evaluated: seq<Individual>) {
    forall k, p {:trigger fronts[k][p]} | 0 <= k < |fronts| && 0 <= p < |fronts[k]| ::
      fronts[k][p] < |evaluated| && evaluated[fronts[k][p]].objectives.Some?
  }

  /** The inner loop: the members of front `k` in their order, while there is room. */
  method TakeFront(ghost fronts: seq<seq<nat>>, ghost crowding: seq<seq<Distance>>, k: nat, front: seq<nat>,
                   order: seq<nat>, ghost place: seq<nat>, evaluated: seq<Individual>, size: nat,
                   parents0: seq<Params>, ghost chosen0: seq<Seat>)
    returns (parents: seq<Params>, ghost chosen: seq<Seat>)
    requires InRange(fronts, evaluated) && k < |fronts| && fronts[k] == front
    requires k < |crowding| && |crowding[k]| == |front|
    requires IsOrdering(order, place, NegatedAll(crowding[k]))
    requires BestFirst(fronts, crowding, chosen0) && TakenBefore(fronts, chosen0, k)
    requires Drawn(parents0, chosen0, fronts, evaluated) && |parents0| <= size
    ensures BestFirst(fronts, crowding, chosen) && Drawn(parents, chosen, fronts, evaluated)
    ensures |parents| <= size && (|parents| < size ==> TakenBefore(fronts, chosen, k + 1))
  {
    parents, chosen := parents0, chosen0;
    for r := 0 to |front|
      invariant BestFirst(fronts, crowding, chosen) && Drawn(parents, chosen, fronts, evaluated)
      invariant |parents| <= size && (|parents| < size ==> TakenUpTo(fronts, chosen, k, place, r))
    {
      if |parents| >= size {
        break;
      }
      TakeNext(fronts, crowding, chosen, k, order, place, r);
      parents, chosen := parents + [evaluated[front[order[r]]].params], chosen + [Seat(k, order[r])];
    }
  }

  /** Parents come front by front, within a front by descending crowding distance, until
      there are `size` of them or nobody is left. */
  method SelectParents(names: seq<string>, fronts: seq<seq<nat>>, evaluated: seq<Individual>, size: nat)
    returns (parents: seq<Params>, ghost chosen: seq<Seat>, ghost crowding: seq<seq<Distance>>)
    requires InRange(fronts, evaluated)
    ensures AreCrowding(names, fronts, evaluated, crowding)
    ensures BestFirst(fronts, crowding, chosen) && Drawn(parents, chosen, fronts, evaluated)
    ensures |parents| <= size && (|parents| < size ==> forall y | IsSeat(fronts, y) :: y in chosen)
  {
    parents, chosen, crowding := [], [], [];
    for k := 0 to |fronts|
      invariant |crowding| <= k && (|crowding| == k || |parents| == size)
      invariant AreCrowding(names, fronts, evaluated, crowding)
      invariant BestFirst(fronts, crowding, chosen) && Drawn(parents, chosen, fronts, evaluated)
      invariant |parents| <= size && (|parents| < size ==> TakenBefore(fronts, chosen, k))
    {
      if |parents| >= size {
        break;
      }
      ghost var before := crowding;
      ghost var place;
      var order;
      order, place, crowding := MeasureFront(names, fronts, fronts[k], evaluated, crowding);
      OneMoreFront(fronts, before, crowding, chosen, k);
      parents, chosen := TakeFront(fronts, crowding, k, fronts[k], order, place, evaluated, size, parents, chosen);
    }
  }

  lemma OneMoreFront(fronts: seq<seq<nat>>, before: seq<seq<Distance>>, crowding: seq<seq<Distance>>,
      chosen: seq<Seat>, k: nat)
    requires |before| == k < |crowding| && crowding[..k] == before
    requires BestFirst(fronts, before, chosen)
    ensures BestFirst(fronts, crowding, chosen)
  {
    forall a, b | 0 <= a < b < |chosen| ensures Ahead(crowding, chosen[a], chosen[b]) {
      assert Ahead(before, chosen[a], chosen[b]);
    }
    forall a, y | 0 <= a < |chosen| && IsSeat(fronts, y) && y !in chosen ensures Ahead(crowding, chosen[a], y) {
      assert Ahead(before, chosen[a], y);
    }
  }

  /** Who is not chosen, or later, sits in a worse front, or in the same front with an infinite
      distance only if the chosen one's is infinite, and else with no larger one. */
  lemma NobodyBetterIsLeft(fronts: seq<seq<nat>>, crowding: seq<seq<Distance>>, chosen: seq<Seat>, a: nat, y: Seat)
    requires BestFirst(fronts, crowding, chosen) && a < |chosen| && IsSeat(fronts, y)
    requires y !in chosen || exists b :: a < b < |chosen| && chosen[b] == y
    ensures var x := chosen[a];
      x.front <= y.front && (x.front == y.front ==>
        && x.front < |crowding| && x.at < |crowding[x.front]| && y.at < |crowding[x.front]|
        && match crowding[x.front][x.at]
           case Infinite => true
           case Finite(d) => crowding[x.front][y.at].Finite? && crowding[x.front][y.at].value <= d)
  {
    assert Ahead(crowding, chosen[a], y);
  }

  /** Whoever dominates a chosen parent is chosen too, whatever the crowding distances. */
  lemma ChoiceIsUpwardClosed(dom: Table, fronts: seq<seq<nat>>, crowding: seq<seq<Distance>>, chosen: seq<Seat>,
                             a: nat, y: Seat)
    requires StrictOrder(dom) && Ranked(dom, fronts) && BestFirst(fronts, crowding, chosen)
    requires a < |chosen| && IsSeat(fronts, y) && IsSeat(fronts, chosen[a])
    requires fronts[chosen[a].front][chosen[a].at] < |dom|
    requires fronts[y.front][y.at] in dom[fronts[chosen[a].front][chosen[a].at]]
    ensures y in chosen
  {
    var x := chosen[a];
    DominatorIsEarlier(dom, fronts, y.front, x.front, fronts[y.front][y.at], fronts[x.front][x.at]);
    assert !Ahead(crowding, x, y);
  }
}
