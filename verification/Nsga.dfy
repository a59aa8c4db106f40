/** `services/optimizer/evolutionary.py`: dominance between evaluated individuals and the
    counting non-dominated sort. */
module Nsga {
  import opened Common
  import opened Ranking
  import opened Dominance

  type Params = map<string, real>

  type Objectives = map<string, real>

  datatype Individual = Individual(params: Params, objectives: Option<Objectives>)

  /** The objective names in order, each with its direction. */
  datatype Goal = Goal(names: seq<string>, maximize: seq<bool>) {
    ghost predicate Valid() { |names| == |maximize| }
  }

  /** Python's `d.get(name, 0)`. */
  function Lookup(d: map<string, real>, name: string): (r: real)
    ensures name in d ==> r == d[name]
    ensures name !in d ==> r == 0.0
  {
    if name in d then d[name] else 0.0
  }

  /** The objective values in order, signed so that larger is better. */
  function Signed(goal: Goal, o: Objectives): (v: Vector)
    requires goal.Valid()
    ensures |v| == |goal.names|
  {
    seq(|goal.names|, i requires 0 <= i < |goal.names| =>
      if goal.maximize[i] then Lookup(o, goal.names[i]) else -Lookup(o, goal.names[i]))
  }

  function Merit(goal: Goal, x: Individual): Option<Vector>
    requires goal.Valid()
  {
    if x.objectives.Some? then Some(Signed(goal, x.objectives.value)) else None
  }

  /** Dominators of each individual; unevaluated ones take no part. */
  ghost function DominatorsOf(goal: Goal, population: seq<Individual>): (dom: Table)
    requires goal.Valid()
    ensures |dom| == |population| && StrictOrder(dom)
    ensures forall i: nat, j {:trigger i in dom[j]} | i < |dom| && 0 <= j < |dom| ::
      i in dom[j] <==> Beats(Merit(goal, population[i]), Merit(goal, population[j]))
  {
    TableOf(seq(|population|, i requires 0 <= i < |population| => Merit(goal, population[i])))
  }

  /** `obj1` is in no objective worse than `obj2`, and better in one, each in its own direction. */
  ghost predicate Outdoes(goal: Goal, obj1: Objectives, obj2: Objectives)
    requires goal.Valid()
  {
    && (forall i | 0 <= i < |goal.names| :: NoWorse(goal, i, obj1, obj2))
    && exists i :: 0 <= i < |goal.names| && !NoWorse(goal, i, obj2, obj1)
  }

  predicate NoWorse(goal: Goal, i: nat, obj1: Objectives, obj2: Objectives)
    requires goal.Valid() && i < |goal.names|
  {
    var v1, v2 := Lookup(obj1, goal.names[i]), Lookup(obj2, goal.names[i]);
    if goal.maximize[i] then v1 >= v2 else v1 <= v2
  }

  lemma SignedMeansOutdoing(goal: Goal, obj1: Objectives, obj2: Objectives)
    requires goal.Valid()
    ensures Dominance.Dominates(Signed(goal, obj1), Signed(goal, obj2)) <==> Outdoes(goal, obj1, obj2)
  {
    var a, b := Signed(goal, obj1), Signed(goal, obj2);
    forall i | 0 <= i < |goal.names|
      ensures (a[i] >= b[i] <==> NoWorse(goal, i, obj1, obj2)) && (a[i] > b[i] <==> !NoWorse(goal, i, obj2, obj1))
    {
    }
  }

  /** Both are evaluated, and the first outdoes the second. */
  ghost predicate Surpasses(goal: Goal, x: Individual, y: Individual)
    requires goal.Valid()
  {
    x.objectives.Some? && y.objectives.Some? && Outdoes(goal, x.objectives.value, y.objectives.value)
  }

  lemma BeatingIsSurpassing(goal: Goal, x: Individual, y: Individual)
    requires goal.Valid()
    ensures Beats(Merit(goal, x), Merit(goal, y)) <==> Surpasses(goal, x, y)
  {
    if x.objectives.Some? && y.objectives.Some? {
      SignedMeansOutdoing(goal, x.objectives.value, y.objectives.value);
    }
  }

  /** Every objective counts in its own direction; one that is missing counts as zero. */
  lemma OutdoesMeans(goal: Goal, obj1: Objectives, obj2: Objectives)
    requires goal.Valid()
    ensures Outdoes(goal, obj1, obj2) <==>
      && (forall i | 0 <= i < |goal.names| ::
        if goal.maximize[i] then Lookup(obj1, goal.names[i]) >= Lookup(obj2, goal.names[i])
        else Lookup(obj1, goal.names[i]) <= Lookup(obj2, goal.names[i]))
      && exists i | 0 <= i < |goal.names| ::
        if goal.maximize[i] then Lookup(obj1, goal.names[i]) > Lookup(obj2, goal.names[i])
        else Lookup(obj1, goal.names[i]) < Lookup(obj2, goal.names[i])
  {
    forall i | 0 <= i < |goal.names|
      ensures NoWorse(goal, i, obj2, obj1) <==>
        if goal.maximize[i] then Lookup(obj1, goal.names[i]) <= Lookup(obj2, goal.names[i])
        else Lookup(obj1, goal.names[i]) >= Lookup(obj2, goal.names[i])
      ensures NoWorse(goal, i, obj1, obj2) <==>
        if goal.maximize[i] then Lookup(obj1, goal.names[i]) >= Lookup(obj2, goal.names[i])
        else Lookup(obj1, goal.names[i]) <= Lookup(obj2, goal.names[i])
    {
    }
  }

  method Dominates(goal: Goal, obj1: Objectives, obj2: Objectives) returns (dominated: bool)
    requires goal.Valid()
    ensures dominated <==>
      && (forall i | 0 <= i < |goal.names| ::
        if goal.maximize[i] then Lookup(obj1, goal.names[i]) >= Lookup(obj2, goal.names[i])
        else Lookup(obj1, goal.names[i]) <= Lookup(obj2, goal.names[i]))
      && exists i | 0 <= i < |goal.names| ::
        if goal.maximize[i] then Lookup(obj1, goal.names[i]) > Lookup(obj2, goal.names[i])
        else Lookup(obj1, goal.names[i]) < Lookup(obj2, goal.names[i])
    ensures dominated <==> Outdoes(goal, obj1, obj2)
    ensures dominated <==> Dominance.Dominates(Signed(goal, obj1), Signed(goal, obj2))
  {
    OutdoesMeans(goal, obj1, obj2);
    SignedMeansOutdoing(goal, obj1, obj2);
    dominated := false;
    for i := 0 to |goal.names|
      invariant forall k | 0 <= k < i :: NoWorse(goal, k, obj1, obj2)
      invariant dominated <==> exists k :: 0 <= k < i && !NoWorse(goal, k, obj2, obj1)
    {
      var v1, v2 := Lookup(obj1, goal.names[i]), Lookup(obj2, goal.names[i]);
      assert NoWorse(goal, i, obj2, obj1) <==> if goal.maximize[i] then v1 <= v2 else v1 >= v2;
      if goal.maximize[i] {
        if v1 < v2 { return false; }
        if v1 > v2 { dominated := true; }
      } else {
        if v1 > v2 { return false; }
        if v1 < v2 { dominated := true; }
      }
    }
  }

  /** Domination counts, and for each individual the list of those it dominates. */
  ghost predicate Tallied(dom: Table, count: seq<nat>, dominatedBy: seq<seq<nat>>) {
    && |count| == |dominatedBy| == |dom|
    && (forall j | 0 <= j < |dom| :: count[j] == |dom[j]|)
    && Listed(dom, dominatedBy)
  }

  /** `dominatedBy[i]` lists, without repetition, the individuals that `i` dominates. */
  ghost predicate Listed(dom: Table, dominatedBy: seq<seq<nat>>) {
    && |dominatedBy| == |dom|
    && (forall i | 0 <= i < |dom| :: NoDuplicates(dominatedBy[i]))
    && (forall i: nat, j {:trigger j in dominatedBy[i]} | i < |dom| && j in dominatedBy[i] :: j < |dom| && i in dom[j])
    && (forall i: nat, j: nat {:trigger i in dom[j]} | i < |dom| && j < |dom| && i in dom[j] :: j in dominatedBy[i])
  }

  /** The pairs compared when the double loop stands at `(i, j)`. */
  predicate Compared(a: nat, b: nat, i: nat, j: nat) {
    if a < b then a < i || (a == i && b < j) else b < i || (b == i && a < j)
  }

  /** `seen[b]` holds the dominators of `b` among the pairs compared so far. */
  ghost predicate SeenUpTo(dom: Table, seen: Table, i: nat, j: nat) {
    && |seen| == |dom|
    && (forall a: nat, b: nat {:trigger a in seen[b]} | b < |dom| :: a in seen[b] <==>
      a in dom[b] && Compared(a, b, i, j))
  }

  lemma TallyStep(seen: Table, count: seq<nat>, lists: seq<seq<nat>>, a: nat, b: nat)
    requires Tallied(seen, count, lists) && a < |seen| && b < |seen| && a !in seen[b]
    ensures Tallied(seen[b := seen[b] + {a}], count[b := count[b] + 1], lists[a := lists[a] + [b]])
  {
    assert b !in lists[a];
    var seen', lists' := seen[b := seen[b] + {a}], lists[a := lists[a] + [b]];
    forall i: nat, j | i < |seen| && j in lists'[i] ensures j < |seen| && i in seen'[j] {
      assert j in lists[i] || (i == a && j == b);
    }
    forall i: nat, j: nat | i < |seen| && j < |seen| && i in seen'[j] ensures j in lists'[i] {
      assert i in seen[j] || (i == a && j == b);
    }
  }

  lemma AllCompared(dom: Table, seen: Table)
    requires StrictOrder(dom) && SeenUpTo(dom, seen, |dom|, |dom| + 1)
    ensures seen == dom
  {
    forall b: nat | b < |dom| ensures seen[b] == dom[b] {
      forall a: nat ensures a in seen[b] <==> a in dom[b] {
      }
    }
  }

  lemma SeenRow(dom: Table, seen: Table, i: nat)
    requires i < |dom| && SeenUpTo(dom, seen, i, |dom|) && StrictOrder(dom)
    ensures SeenUpTo(dom, seen, i + 1, i + 2)
  {
  }

  lemma SeenSkip(dom: Table, seen: Table, i: nat, j: nat)
    requires SeenUpTo(dom, seen, i, j) && i < j < |dom|
    requires i !in dom[j] && j !in dom[i]
    ensures SeenUpTo(dom, seen, i, j + 1)
  {
  }

  /** Notes that `a` dominates `b`. */
  method Record(ghost dom: Table, ghost seen0: Table, count0: seq<nat>, lists0: seq<seq<nat>>,
                a: nat, b: nat, ghost i: nat, ghost j: nat)
    returns (ghost seen: Table, count: seq<nat>, dominatedBy: seq<seq<nat>>)
    requires StrictOrder(dom) && SeenUpTo(dom, seen0, i, j) && Tallied(seen0, count0, lists0)
    requires i < j < |dom| && ((a == i && b == j) || (a == j && b == i)) && a in dom[b]
    ensures SeenUpTo(dom, seen, i, j + 1) && Tallied(seen, count, dominatedBy)
  {
    TallyStep(seen0, count0, lists0, a, b);
    seen := seen0[b := seen0[b] + {a}];
    dominatedBy := lists0[a := lists0[a] + [b]];
    count := count0[b := count0[b] + 1];
  }

  method Tally(goal: Goal, population: seq<Individual>) returns (count: seq<nat>, dominatedBy: seq<seq<nat>>)
    requires goal.Valid()
    ensures Tallied(DominatorsOf(goal, population), count, dominatedBy)
  {
    var n := |population|;
    count, dominatedBy := seq(n, _ => 0), seq(n, _ => []);
    ghost var dom := DominatorsOf(goal, population);
    ghost var seen: Table := seq(n, _ => {});
    for i := 0 to n
      invariant SeenUpTo(dom, seen, i, i + 1)
      invariant Tallied(seen, count, dominatedBy)
    {
      for j := i + 1 to n
        invariant SeenUpTo(dom, seen, i, j)
        invariant Tallied(seen, count, dominatedBy)
      {
        var a, b := population[i].objectives, population[j].objectives;
        if a.None? || b.None? {
          SeenSkip(dom, seen, i, j);
          continue;
        }
        var forth := Dominates(goal, a.value, b.value);
        if forth {
          seen, count, dominatedBy := Record(dom, seen, count, dominatedBy, i, j, i, j);
        } else {
          var back := Dominates(goal, b.value, a.value);
          if back {
            seen, count, dominatedBy := Record(dom, seen, count, dominatedBy, j, i, i, j);
          } else {
            SeenSkip(dom, seen, i, j);
          }
        }
      }
      SeenRow(dom, seen, i);
    }
    AllCompared(dom, seen);
  }

  // ----- peeling the fronts -----

  ghost predicate Meets(a: set<nat>, b: set<nat>) {
    exists d :: d in a && d in b
  }

  /** `r` is the set of points with a dominator in `level`. */
  ghost predicate IsUnder(dom: Table, level: set<nat>, r: set<nat>) {
    forall j: nat :: j in r <==> j < |dom| && Meets(dom[j], level)
  }

  /** The points with a dominator in `level`. */
  ghost function Under(dom: Table, level: set<nat>): (r: set<nat>)
    ensures IsUnder(dom, level, r)
  {
    assert IsUnder(dom, level, set j | j in Indices(|dom|) && Meets(dom[j], level));
    var r :| IsUnder(dom, level, r);
    r
  }

  /** What is left after `k` rounds of peeling. */
  ghost function Layer(dom: Table, k: nat): set<nat> {
    if k == 0 then Indices(|dom|) else Under(dom, Layer(dom, k - 1))
  }

  lemma {:induction false} LayersShrink(dom: Table, k: nat)
    ensures Layer(dom, k + 1) <= Layer(dom, k)
  {
    if k > 0 {
      LayersShrink(dom, k - 1);
      UnderIsMonotone(dom, Layer(dom, k), Layer(dom, k - 1));
    }
  }

  lemma UnderIsMonotone(dom: Table, a: set<nat>, b: set<nat>)
    requires a <= b
    ensures Under(dom, a) <= Under(dom, b)
  {
    forall j | j in Under(dom, a) ensures j in Under(dom, b) {
      var d :| d in dom[j] && d in a;
      assert Meets(dom[j], b);
    }
  }

  /** `front` lists the members of `s`, each once. */
  ghost predicate Lists(front: seq<nat>, s: set<nat>) {
    NoDuplicates(front) && forall i: nat :: i in front <==> i in s
  }

  /** `pending[j]` holds the dominators of `j` in `level` that are not yet processed: those
      among the first `a` of `current` are, and for the next one those entries of its list
      that stand before position `b`. */
  ghost predicate Processed(dom: Table, level: set<nat>, pending: Table, current: seq<nat>, a: nat, part: seq<nat>)
    requires a <= |current|
  {
    && |pending| == |dom|
    && forall j, d {:trigger d in pending[j]} | 0 <= j < |dom| ::
      d in pending[j] <==>
        d in dom[j] && d in level && d !in current[..a] && !(a < |current| && d == current[a] && j in part)
  }

  /** The counts are those of `pending`, and `next` lists the points of `above` it has freed. */
  ghost predicate Freed(above: set<nat>, pending: Table, count: seq<nat>, next: seq<nat>) {
    && |count| == |pending|
    && (forall j | 0 <= j < |pending| :: count[j] == |pending[j]|)
    && NoDuplicates(next)
    && (forall j | j in next :: j < |pending|)
    && (forall j: nat | j < |pending| :: j in next <==> j in above && pending[j] == {})
  }

  /** Each count is the number of dominators inside `level`. */
  ghost predicate CountsWithin(dom: Table, level: set<nat>, count: seq<nat>) {
    |count| == |dom| && forall j | 0 <= j < |dom| :: count[j] == |dom[j] * level|
  }

  /** Takes one member of `current` off the counts of those it dominates. */
  method TakeOff(ghost dom: Table, ghost level: set<nat>, ghost above: set<nat>, ghost pending0: Table,
                 ghost current: seq<nat>, ghost a: nat, list: seq<nat>, count0: seq<nat>, next0: seq<nat>)
    returns (next: seq<nat>, count: seq<nat>, ghost pending: Table)
    requires a < |current| && NoDuplicates(current) && NoDuplicates(list)
    requires Processed(dom, level, pending0, current, a, []) && Freed(above, pending0, count0, next0)
    requires forall j | j in list :: j < |dom| && j in above && current[a] in dom[j] * level
    ensures Processed(dom, level, pending, current, a, list) && Freed(above, pending, count, next)
  {
    count, next, pending := count0, next0, pending0;
    for b := 0 to |list|
      invariant Processed(dom, level, pending, current, a, list[..b])
      invariant Freed(above, pending, count, next)
    {
      var j := list[b];
      assert j in list;
      ProcessedStep(dom, level, pending, current, a, list, b);
      FreedStep(above, pending, count, next, current[a], j);
      count := count[j := count[j] - 1];
      pending := pending[j := pending[j] - {current[a]}];
      if count[j] == 0 {
        next := next + [j];
      }
    }
    assert list[..|list|] == list;
  }

  /** One round of the peeling loop: takes the members of `current` off the counts of those
      they dominate, and collects the individuals whose count reaches zero. */
  method PeelFront(ghost dom: Table, ghost level: set<nat>, current: seq<nat>,
                   dominatedBy: seq<seq<nat>>, count0: seq<nat>)
    returns (next: seq<nat>, count: seq<nat>)
    requires Listed(dom, dominatedBy) && CountsWithin(dom, level, count0)
    requires Under(dom, level) <= level <= Indices(|dom|)
    requires Lists(current, level - Under(dom, level))
    ensures CountsWithin(dom, Under(dom, level), count)
    ensures Lists(next, Under(dom, level) - Under(dom, Under(dom, level)))
  {
    ghost var above := Under(dom, level);
    count, next := count0, [];
    ghost var pending: Table := seq(|dom|, j requires 0 <= j < |dom| => dom[j] * level);
    for a := 0 to |current|
      invariant Processed(dom, level, pending, current, a, [])
      invariant Freed(above, pending, count, next)
    {
      var i := current[a];
      assert i in current;
      var list := dominatedBy[i];
      forall j | j in list ensures j < |dom| && j in above && i in dom[j] * level {
        assert Meets(dom[j], level);
      }
      next, count, pending := TakeOff(dom, level, above, pending, current, a, list, count, next);
      ProcessedNext(dom, level, pending, current, a, list);
    }
    forall j: nat | j < |dom| ensures pending[j] == dom[j] * above {
      assert current[..|current|] == current;
    }
  }

  lemma ProcessedStep(dom: Table, level: set<nat>, pending: Table, current: seq<nat>, a: nat, list: seq<nat>, b: nat)
    requires a < |current| && b < |list| && NoDuplicates(current) && NoDuplicates(list)
    requires Processed(dom, level, pending, current, a, list[..b])
    requires list[b] < |dom| && current[a] in dom[list[b]] && current[a] in level
    ensures current[a] in pending[list[b]]
    ensures Processed(dom, level, pending[list[b] := pending[list[b]] - {current[a]}], current, a, list[..b + 1])
  {
    assert list[..b + 1] == list[..b] + [list[b]];
  }

  lemma ProcessedNext(dom: Table, level: set<nat>, pending: Table, current: seq<nat>, a: nat, list: seq<nat>)
    requires a < |current| && Processed(dom, level, pending, current, a, list[..|list|])
    requires forall j: nat | j < |dom| && current[a] in dom[j] :: j in list
    ensures Processed(dom, level, pending, current, a + 1, [])
  {
    assert current[..a + 1] == current[..a] + [current[a]];
    assert list[..|list|] == list;
  }

  lemma FreedStep(above: set<nat>, pending: Table, count: seq<nat>, next: seq<nat>, i: nat, j: nat)
    requires Freed(above, pending, count, next)
    requires j < |pending| && i in pending[j] && j in above
    ensures count[j] > 0
    ensures Freed(above, pending[j := pending[j] - {i}], count[j := count[j] - 1],
                  if count[j] == 1 then next + [j] else next)
  {
    assert j !in next;
    assert |pending[j] - {i}| == |pending[j]| - 1;
  }

  /** `[i for i in range(n) if count[i] == 0]` */
  function Zeros(count: seq<nat>, n: nat): seq<nat>
    requires n <= |count|
  {
    if n == 0 then [] else Zeros(count, n - 1) + (if count[n - 1] == 0 then [n - 1] else [])
  }

  lemma {:induction false} ZerosAreUndominated(dom: Table, count: seq<nat>, n: nat)
    requires |count| == |dom| && n <= |dom|
    requires forall j | 0 <= j < |dom| :: count[j] == |dom[j]|
    ensures Zeros(count, n) == Undominated(dom, n)
  {
    if n > 0 {
      ZerosAreUndominated(dom, count, n - 1);
    }
  }

  /** The members of front `k` are those that the round after `k` of them leaves behind. */
  ghost predicate Peeled(dom: Table, fronts: seq<seq<nat>>, k: nat) {
    && |fronts| == k
    && forall l | 0 <= l < k :: fronts[l] != [] && Lists(fronts[l], Layer(dom, l) - Layer(dom, l + 1))
  }

  lemma PeeledAppend(dom: Table, fronts: seq<seq<nat>>, current: seq<nat>)
    requires Peeled(dom, fronts, |fronts|) && current != []
    requires Lists(current, Layer(dom, |fronts|) - Layer(dom, |fronts| + 1))
    ensures Peeled(dom, fronts + [current], |fronts| + 1)
  {
  }

  method BuildFronts(ghost dom: Table, count0: seq<nat>, dominatedBy: seq<seq<nat>>) returns (fronts: seq<seq<nat>>)
    requires Tallied(dom, count0, dominatedBy)
    requires forall j | 0 <= j < |dom| :: dom[j] <= Indices(|dom|)
    ensures Peeled(dom, fronts, |fronts|)
    ensures Layer(dom, |fronts|) <= Layer(dom, |fronts| + 1)
    ensures fronts != [] ==> fronts[0] == Undominated(dom, |dom|)
  {
    var n := |count0|;
    var count := count0;
    fronts := [];
    var current := Zeros(count, n);
    ZerosAreUndominated(dom, count, n);
    FirstFront(dom, count, current);
    ghost var level := Layer(dom, 0);
    while current != []
      invariant level == Layer(dom, |fronts|) && Peeled(dom, fronts, |fronts|)
      invariant Lists(current, level - Under(dom, level))
      invariant CountsWithin(dom, level, count)
      invariant (fronts + [current])[0] == Undominated(dom, n)
      decreases level
    {
      LayersShrink(dom, |fronts|);
      LayerIsIndices(dom, |fronts|);
      assert current[0] in current;
      PeeledAppend(dom, fronts, current);
      fronts := fronts + [current];
      current, count := PeelFront(dom, level, current, dominatedBy, count);
      level := Under(dom, level);
    }
    assert forall i :: i in level - Under(dom, level) ==> i in current;
  }

  lemma FirstFront(dom: Table, count: seq<nat>, current: seq<nat>)
    requires |count| == |dom| && forall j | 0 <= j < |dom| :: count[j] == |dom[j]|
    requires forall j | 0 <= j < |dom| :: dom[j] <= Indices(|dom|)
    requires current == Undominated(dom, |dom|)
    ensures Lists(current, Layer(dom, 0) - Under(dom, Layer(dom, 0)))
    ensures CountsWithin(dom, Layer(dom, 0), count)
  {
    var all := Indices(|dom|);
    forall j | 0 <= j < |dom| ensures dom[j] * all == dom[j] {
    }
  }

  lemma {:induction false} LayerIsIndices(dom: Table, k: nat)
    ensures Layer(dom, k) <= Indices(|dom|)
  {
    if k > 0 {
      LayersShrink(dom, k - 1);
      LayerIsIndices(dom, k - 1);
    }
  }

  /** A point survives `k` rounds exactly if it has a chain of `k` dominators. */
  lemma {:induction false} LayerIsChains(dom: Table, i: nat, k: nat)
    requires StrictOrder(dom) && i < |dom|
    ensures i in Layer(dom, k) <==> HasChain(dom, i, k)
    decreases k
  {
    if k > 0 {
      var above := Layer(dom, k - 1);
      forall d | d in dom[i] ensures d in above <==> HasChain(dom, d, k - 1) {
        LayerIsChains(dom, d, k - 1);
      }
      assert Meets(dom[i], above) <==> HasChain(dom, i, k);
    }
  }

  lemma LayerDifference(dom: Table, i: nat, k: nat)
    requires StrictOrder(dom)
    ensures i in Layer(dom, k) - Layer(dom, k + 1) <==> i < |dom| && RankIs(dom, i, k)
  {
    LayerIsIndices(dom, k);
    if i < |dom| {
      LayerIsChains(dom, i, k);
      LayerIsChains(dom, i, k + 1);
    }
  }

  lemma LayerIsFront(dom: Table, front: seq<nat>, k: nat)
    requires StrictOrder(dom) && Lists(front, Layer(dom, k) - Layer(dom, k + 1))
    ensures IsFront(dom, front, k)
  {
    forall i: nat ensures i in front <==> i < |dom| && RankIs(dom, i, k) {
      LayerDifference(dom, i, k);
    }
  }

  lemma PeeledIsRanked(dom: Table, fronts: seq<seq<nat>>)
    requires StrictOrder(dom) && Peeled(dom, fronts, |fronts|)
    requires Layer(dom, |fronts|) <= Layer(dom, |fronts| + 1)
    ensures Ranked(dom, fronts)
  {
    forall k | 0 <= k < |fronts| ensures IsFront(dom, fronts[k], k) {
      LayerIsFront(dom, fronts[k], k);
    }
    forall i: nat | i < |dom| ensures !RankIs(dom, i, |fronts|) {
      LayerDifference(dom, i, |fronts|);
    }
    EmptyRankEndsAll(dom, |fronts|);
    forall i: nat | i < |dom| ensures Placed(fronts, i) {
      var k := RankBelow(dom, i, |fronts|);
      assert i in fronts[k];
    }
  }

  /** No individual surpasses this one. */
  ghost predicate Unsurpassed(goal: Goal, population: seq<Individual>, x: Individual)
    requires goal.Valid()
  {
    forall y | y in population :: !Surpasses(goal, y, x)
  }

  lemma UndominatedAreUnsurpassed(goal: Goal, population: seq<Individual>)
    requires goal.Valid()
    ensures var dom := DominatorsOf(goal, population);
      forall i: nat ::
        i in Undominated(dom, |dom|) <==> i < |population| && Unsurpassed(goal, population, population[i])
  {
    var dom := DominatorsOf(goal, population);
    forall i: nat | i < |population| ensures dom[i] == {} <==> Unsurpassed(goal, population, population[i]) {
      if Unsurpassed(goal, population, population[i]) {
        forall j: nat | j < |population| ensures j !in dom[i] {
          assert population[j] in population;
          BeatingIsSurpassing(goal, population[j], population[i]);
        }
      } else {
        var y :| y in population && Surpasses(goal, y, population[i]);
        var j: nat :| j < |population| && population[j] == y;
        BeatingIsSurpassing(goal, y, population[i]);
        assert j in dom[i];
      }
    }
  }

  /** NSGA-II's counting sort: front `k` lists exactly the individuals whose longest chain of
      dominators has length `k`, and everyone is placed. The first front keeps index order. */
  method NonDominatedSort(goal: Goal, population: seq<Individual>) returns (fronts: seq<seq<nat>>)
    requires goal.Valid()
    ensures Ranked(DominatorsOf(goal, population), fronts) && (population == [] ==> fronts == [])
    ensures population != [] ==>
      && fronts != [] && fronts[0] == Undominated(DominatorsOf(goal, population), |population|)
      && forall i: nat :: i in fronts[0] <==> i < |population| && Unsurpassed(goal, population, population[i])
  {
    if |population| == 0 {
      return [];
    }
    UndominatedAreUnsurpassed(goal, population);
    ghost var dom := DominatorsOf(goal, population);
    var count, dominatedBy := Tally(goal, population);
    fronts := BuildFronts(dom, count, dominatedBy);
    PeeledIsRanked(dom, fronts);
    assert Placed(fronts, 0);
  }
}
