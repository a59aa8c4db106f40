/** `services/optimizer/bandit.py`: the multi-fidelity bandit's books. */
module Bandit {
  import opened Arithmetic
  import opened Common

  datatype Fidelity = Cheap | Mid | High {
    /** The order in which the levels are listed. */
    function Place(): nat { match this case Cheap => 0 case Mid => 1 case High => 2 }
  }

  /** A dictionary keyed by fidelity level. */
  datatype Each<T> = Each(cheap: T, mid: T, high: T) {
    function At(f: Fidelity): T {
      match f case Cheap => cheap case Mid => mid case High => high
    }

    function Lookup(): Fidelity -> T { f => At(f) }

    function Put(f: Fidelity, value: T): (r: Each<T>)
      ensures forall g :: r.At(g) == if g == f then value else At(g)
    {
      match f case Cheap => this.(cheap := value) case Mid => this.(mid := value) case High => this.(high := value)
    }
  }

  /** A comparison of a score with the high-fidelity one. */
  datatype Comparison = Comparison(fidelity: Fidelity, score: real, highScore: real, error: real)

  /** The reward for a comparison. */
  function RelativeError(score: real, high: real): real {
    Abs(score - high) / Max(Max(Abs(score), Abs(high)), 0.000001)
  }

  /** The distance next to the larger magnitude, which is not taken for less than a millionth: none
      exactly if the scores are equal, and the same both ways. */
  lemma ErrorMeans(score: real, high: real, larger: real)
    requires larger == Abs(score) || larger == Abs(high) || larger == 0.000001
    requires larger >= Abs(score) && larger >= Abs(high) && larger >= 0.000001
    ensures RelativeError(score, high) * larger == Abs(score - high)
    ensures RelativeError(score, high) == RelativeError(high, score)
    ensures 0.0 <= RelativeError(score, high) <= 2.0 && (RelativeError(score, high) == 0.0 <==> score == high)
  {
    Divided(Abs(score - high), larger);
  }

  lemma Divided(x: real, y: real)
    requires y > 0.0 && 0.0 <= x <= 2.0 * y
    ensures x / y * y == x && 0.0 <= x / y <= 2.0 && (x / y == 0.0 <==> x == 0.0)
  {
    var q := x / y;
    assert q * y == x;
    QuotientIsNonNegative(x, y);
    assert (2.0 - q) * y == 2.0 * y - x;
  }

  /** How many comparisons there are at a level. */
  ghost function Compared(data: seq<Comparison>, f: Fidelity): nat {
    if data == [] then 0 else Compared(data[..|data| - 1], f) + if data[|data| - 1].fidelity == f then 1 else 0
  }

  /** How many of them have an error below the bound. */
  ghost function Close(data: seq<Comparison>, f: Fidelity, bound: real): (n: nat)
    ensures n <= Compared(data, f)
  {
    if data == [] then 0
    else
      var last := data[|data| - 1];
      Close(data[..|data| - 1], f, bound) + if last.fidelity == f && last.error < bound then 1 else 0
  }

  /** What the pulls have cost. */
  function Cost(pulls: Each<nat>, costs: Each<real>): real {
    pulls.cheap as real * costs.cheap + pulls.mid as real * costs.mid + pulls.high as real * costs.high
  }

  lemma CostOfOneMore(pulls: Each<nat>, costs: Each<real>, f: Fidelity)
    ensures Cost(pulls.Put(f, pulls.At(f) + 1), costs) == Cost(pulls, costs) + costs.At(f)
  {
  }

  ghost predicate OneMore(before: Each<real>, after: Each<real>, f: Fidelity) {
    forall g :: after.At(g) == before.At(g) + if g == f then 1.0 else 0.0
  }

  class MultiFidelityBandit {
    const costs: Each<real>
    const budget: real
    const threshold: real
    var remaining: real
    var alpha: Each<real>
    var beta: Each<real>
    var pulls: Each<nat>
    var totalReward: Each<real>
    var data: seq<Comparison>

    /** What the pulls have cost and what remains make up the budget. */
    ghost predicate Balanced()
      reads this
    {
      remaining + Cost(pulls, costs) == budget
    }

    /** From one on, `alpha` counts the comparisons of a level that came close, and `beta` those that
        did not; high fidelity is compared with nothing. */
    ghost predicate Learned()
      reads this
    {
      && (forall f ::
        && alpha.At(f) == 1.0 + Close(data, f, 1.0 - threshold) as real
        && beta.At(f) == 1.0 + Compared(data, f) as real - Close(data, f, 1.0 - threshold) as real)
      && Compared(data, High) == 0
    }

    constructor (costs: Each<real>, budget: real, threshold: real)
      ensures Balanced() && Learned() && this.costs == costs && this.budget == budget && this.threshold == threshold
      ensures pulls == Each(0, 0, 0) && remaining == budget && totalReward == Each(0.0, 0.0, 0.0)
    {
      this.costs, this.budget, this.threshold, remaining := costs, budget, threshold, budget;
      alpha, beta, pulls, totalReward, data :=
        Each(1.0, 1.0, 1.0), Each(1.0, 1.0, 1.0), Each(0, 0, 0), Each(0.0, 0.0, 0.0), [];
    }

    method Update(f: Fidelity, score: real, high: Option<real>)
      modifies this
      ensures pulls == old(pulls).Put(f, old(pulls).At(f) + 1)
      ensures totalReward == old(totalReward).Put(f, old(totalReward).At(f) + score)
      ensures remaining == old(remaining) - costs.At(f)
      ensures data == old(data) + if high.Some? && f != High
        then [Comparison(f, score, high.value, RelativeError(score, high.value))] else []
      ensures high.Some? && f != High && RelativeError(score, high.value) < 1.0 - threshold ==>
        OneMore(old(alpha), alpha, f) && beta == old(beta)
      ensures high.Some? && f != High && RelativeError(score, high.value) >= 1.0 - threshold ==>
        alpha == old(alpha) && OneMore(old(beta), beta, f)
      ensures high.None? || f == High ==> alpha == old(alpha) && beta == old(beta)
      ensures (old(Balanced()) ==> Balanced()) && (old(Learned()) ==> Learned())
    {
      CostOfOneMore(pulls, costs, f);
      pulls := pulls.Put(f, pulls.At(f) + 1);
      totalReward := totalReward.Put(f, totalReward.At(f) + score);
      remaining := remaining - costs.At(f);
      if high.Some? && f != High {
        Learn(f, score, high.value);
      }
    }

    /** Rewards a level whose score came close to the high-fidelity one. */
    method Learn(f: Fidelity, score: real, high: real)
      requires f != High
      modifies this`alpha, this`beta, this`data
      ensures data == old(data) + [Comparison(f, score, high, RelativeError(score, high))]
      ensures if RelativeError(score, high) < 1.0 - threshold
        then OneMore(old(alpha), alpha, f) && beta == old(beta)
        else alpha == old(alpha) && OneMore(old(beta), beta, f)
      ensures old(Learned()) ==> Learned()
    {
      var relativeError := RelativeError(score, high);
      var reward := if relativeError < 1.0 - threshold then 1.0 else 0.0;
      alpha := alpha.Put(f, alpha.At(f) + reward);
      beta := beta.Put(f, beta.At(f) + (1.0 - reward));
      data := data + [Comparison(f, score, high, relativeError)];
    }

    predicate Affordable(f: Fidelity)
      reads this
    {
      costs.At(f) <= remaining
    }

    /** An affordable level has no greater key than the chosen one, and an earlier one a lesser. */
    predicate Leads(chosen: Fidelity, f: Fidelity, key: Fidelity -> real)
      reads this
    {
      Affordable(f) ==> key(f) <= key(chosen) && (f.Place() < chosen.Place() ==> key(f) < key(chosen))
    }

    /** The level for the next evaluation; `sample(f)` is the cost-adjusted draw for level `f`.
        The choice is affordable, unless high fidelity is forced or nothing is affordable; of levels
        that do equally well the first is taken. */
    method SelectFidelity(remainingEvals: int, forceHigh: bool, sample: Fidelity -> real) returns (chosen: Fidelity)
      ensures forceHigh || remainingEvals <= 5 ==> chosen == High
      ensures !forceHigh && remainingEvals > 5 ==>
        costs.At(chosen) <= remaining || (chosen == Cheap && forall f :: costs.At(f) > remaining)
      ensures !forceHigh && remainingEvals > 5 && Affordable(High) ==>
        forall f :: Leads(chosen, f, sample)
      ensures !forceHigh && remainingEvals > 5 && !Affordable(High) ==>
        forall f :: Leads(chosen, f, costs.Lookup())
    {
      if forceHigh || remainingEvals <= 5 {
        return High;
      }
      var available := [];
      if Affordable(Cheap) { available := available + [Cheap]; }
      if Affordable(Mid) { available := available + [Mid]; }
      if Affordable(High) { available := available + [High]; }
      assert forall f :: f in available <==> Affordable(f);
      if available == [] {
        return Cheap;
      }
      assert Affordable(available[0]);
      if High !in available {
        chosen := Greatest(available, costs.Lookup());
      } else {
        chosen := Greatest(available, sample);
      }
    }
  }

  /** The first of the greatest, as Python's `max` picks it. */
  method Greatest(fs: seq<Fidelity>, key: Fidelity -> real) returns (best: Fidelity)
    requires fs != [] && forall i, j | 0 <= i < j < |fs| :: fs[i].Place() < fs[j].Place()
    ensures best in fs
    ensures forall f | f in fs :: key(f) <= key(best) && (f.Place() < best.Place() ==> key(f) < key(best))
  {
    best := fs[0];
    for k := 1 to |fs|
      invariant best in fs[..k]
      invariant forall i | 0 <= i < k ::
        key(fs[i]) <= key(best) && (fs[i].Place() < best.Place() ==> key(fs[i]) < key(best))
    {
      if key(fs[k]) > key(best) {
        best := fs[k];
      }
    }
  }
}
