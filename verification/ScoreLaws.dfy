/** `services/judge/scorer.py`: what the final score depends on, and how. */
module ScoreLaws {
  import opened Common
  import opened Arithmetic
  import opened Scoring
  import Sums

  /** The final score in one line: the aggregate times feasibility and what the penalties leave, less
      the constraint penalties, clipped. */
  lemma FinalSpelledOut(r: Rubric, metrics: seq<Metric>, c: Circumstances, multiplier: real, penalty: real)
    requires multiplier == c.feasibility * r.feasibilityWeight
    requires penalty == (1.0 - c.confidence) * r.confidenceRate + UncertaintyPenalty(metrics, r.uncertaintyRate)
      + if c.total == 0 then 0.0 else c.failures as real / c.total as real * r.robustnessRate
    ensures FinalOf(r, metrics, c) ==
      Clamp(0.0, 1.0, Raw(r, metrics) * multiplier * (1.0 - penalty) - ConstraintTotal(r, c.violations))
  {
    assert multiplier == Multiplier(r, c.feasibility);
    assert penalty == TotalPenalty(r, metrics, c.confidence, c.total, c.failures);
    NetIs(Raw(r, metrics), Taken(r, metrics, c), Raw(r, metrics) * multiplier * (1.0 - penalty));
  }

  /** The better one is no worse and, if strict, better unless both are clipped alike. */
  ghost predicate Rises(worse: real, better: real, strictly: bool) {
    worse <= better && (strictly && better > 0.0 && worse < 1.0 ==> worse < better)
  }

  /** A larger multiplier, a smaller penalty or smaller constraints, or none of these. */
  lemma FinalRises(raw: real, d: Deductions, e: Deductions)
    requires raw >= 0.0 && d.multiplier <= e.multiplier && e.penalty <= d.penalty <= 1.0
    requires e.constraints <= d.constraints && (d.penalty == e.penalty || d.multiplier >= 0.0)
    ensures Rises(Final(raw, d), Final(raw, e), e.constraints >= 0.0 && OneIsBetter(d, e))
  {
    var x, y := raw * d.multiplier * (1.0 - d.penalty), raw * e.multiplier * (1.0 - e.penalty);
    NetIs(raw, d, x);
    NetIs(raw, e, y);
    LeftRises(raw, d, e, x, y);
  }

  ghost predicate OneIsBetter(d: Deductions, e: Deductions) {
    || (d.multiplier < e.multiplier && d.penalty == e.penalty)
    || (e.penalty < d.penalty && d.multiplier == e.multiplier)
    || (e.constraints < d.constraints && d.multiplier == e.multiplier && d.penalty == e.penalty)
  }

  lemma LeftRises(raw: real, d: Deductions, e: Deductions, x: real, y: real)
    requires raw >= 0.0 && d.multiplier <= e.multiplier && e.penalty <= d.penalty <= 1.0
    requires d.penalty == e.penalty || d.multiplier >= 0.0
    requires x == raw * d.multiplier * (1.0 - d.penalty) && y == raw * e.multiplier * (1.0 - e.penalty)
    ensures x <= y
    ensures y > 0.0 && d.multiplier < e.multiplier && d.penalty == e.penalty ==> x < y
    ensures y > 0.0 && e.penalty < d.penalty && d.multiplier == e.multiplier ==> x < y
  {
    var m, n, k, l := d.multiplier, e.multiplier, 1.0 - d.penalty, 1.0 - e.penalty;
    MultiplierRises(raw, m, n, l, raw * m * l, y);
    if d.penalty != e.penalty { PenaltyFalls(raw, m, k, l, x, raw * m * l); }
  }

  lemma MultiplierRises(raw: real, m: real, n: real, l: real, x: real, y: real)
    requires raw >= 0.0 && l >= 0.0 && m <= n && x == raw * m * l && y == raw * n * l
    ensures x <= y && (y > 0.0 && m < n ==> x < y)
  {
    var s, t := raw * l, (n - m) * (raw * l);
    assert y - x == t && y == n * s;
    ProductIsNonNegative(raw, l, s);
    ProductIsNonNegative(n - m, s, t);
    if y > 0.0 && m < n {
      assert s > 0.0;
      assert t > 0.0;
    }
  }

  lemma PenaltyFalls(raw: real, m: real, k: real, l: real, x: real, y: real)
    requires raw >= 0.0 && m >= 0.0 && k <= l && x == raw * m * k && y == raw * m * l
    ensures x <= y && (y > 0.0 && k < l ==> x < y)
  {
    var s, t := raw * m, (l - k) * (raw * m);
    assert y - x == t && y == l * s;
    ProductIsNonNegative(raw, m, s);
    ProductIsNonNegative(l - k, s, t);
    if y > 0.0 && k < l {
      assert s > 0.0;
      assert t > 0.0;
    }
  }

  lemma Falls(rate: real, x: real, y: real)
    requires rate > 0.0 && x <= y
    ensures x * rate <= y * rate && (x < y ==> x * rate < y * rate)
  {
    var d := y - x;
    assert d * rate == y * rate - x * rate;
    if x < y { assert d * rate > 0.0; }
  }

  /** No weight is negative, and no metric's own penalty takes more than all of its score. */
  ghost predicate Regular(r: Rubric, metrics: seq<Metric>) { NonNegativeWeights(r) && Bounded(r, metrics) }

  /** No violation gains anything. */
  ghost predicate Costly(r: Rubric, violations: seq<(string, real)>) {
    forall k | 0 <= k < |violations| ::
      violations[k].0 in r.constraintPenalties ==> r.constraintPenalties[violations[k].0] * violations[k].1 >= 0.0
  }

  lemma {:induction false} ConstraintsAreCostly(r: Rubric, violations: seq<(string, real)>)
    requires Costly(r, violations)
    ensures ConstraintTotal(r, violations) >= 0.0
  {
    if violations != [] { ConstraintsAreCostly(r, violations[..|violations| - 1]); }
  }

  lemma RawIsNonNegative(r: Rubric, metrics: seq<Metric>)
    requires Regular(r, metrics)
    ensures Raw(r, metrics) >= 0.0
  {
    RawIsNoLower(r, metrics, metrics);
  }

  // ----- feasibility -----

  /** What is not feasible scores nothing. */
  lemma InfeasibleScoresNothing(r: Rubric, metrics: seq<Metric>, c: Circumstances)
    requires c.feasibility == 0.0 && Costly(r, c.violations)
    ensures FinalOf(r, metrics, c) == 0.0
  {
    ConstraintsAreCostly(r, c.violations);
    NothingWithoutMultiplier(Raw(r, metrics), Taken(r, metrics, c));
  }

  lemma NothingWithoutMultiplier(raw: real, d: Deductions)
    requires d.multiplier == 0.0 && d.constraints >= 0.0
    ensures Final(raw, d) == 0.0
  {
    assert raw * 0.0 * (1.0 - d.penalty) == 0.0;
    NetIs(raw, d, 0.0);
  }

  /** More feasibility never lowers the score, and raises it unless it stays clipped. */
  lemma FeasibilityRaises(r: Rubric, metrics: seq<Metric>, c: Circumstances, more: real)
    requires Regular(r, metrics) && r.feasibilityWeight > 0.0 && Taken(r, metrics, c).penalty <= 1.0
    requires c.feasibility <= more
    ensures Rises(FinalOf(r, metrics, c), FinalOf(r, metrics, c.(feasibility := more)),
      c.feasibility < more && Costly(r, c.violations))
  {
    RawIsNonNegative(r, metrics);
    if Costly(r, c.violations) { ConstraintsAreCostly(r, c.violations); }
    Falls(r.feasibilityWeight, c.feasibility, more);
    FinalRises(Raw(r, metrics), Taken(r, metrics, c), Taken(r, metrics, c.(feasibility := more)));
  }

  // ----- penalties -----

  /** The total penalty counts for something and takes no more than all. */
  ghost predicate Penalised(r: Rubric, metrics: seq<Metric>, c: Circumstances) {
    && Regular(r, metrics) && c.feasibility >= 0.0 && r.feasibilityWeight >= 0.0
    && Taken(r, metrics, c).penalty <= 1.0
  }

  /** A smaller total penalty never lowers the score, and raises it unless it stays clipped. */
  lemma SmallerPenaltyRaises(r: Rubric, metrics: seq<Metric>, c: Circumstances, d: Circumstances)
    requires Penalised(r, metrics, c) && d.feasibility == c.feasibility && d.violations == c.violations
    requires Taken(r, metrics, d).penalty <= Taken(r, metrics, c).penalty
    ensures Rises(FinalOf(r, metrics, c), FinalOf(r, metrics, d),
      Taken(r, metrics, d).penalty < Taken(r, metrics, c).penalty && Costly(r, c.violations))
  {
    RawIsNonNegative(r, metrics);
    if Costly(r, c.violations) { ConstraintsAreCostly(r, c.violations); }
    ProductIsNonNegative(c.feasibility, r.feasibilityWeight, Taken(r, metrics, c).multiplier);
    FinalRises(Raw(r, metrics), Taken(r, metrics, c), Taken(r, metrics, d));
  }

  /** More confidence never lowers the score, and raises it unless it stays clipped. */
  lemma ConfidenceRaises(r: Rubric, metrics: seq<Metric>, c: Circumstances, more: real)
    requires Penalised(r, metrics, c) && r.confidenceRate > 0.0 && c.confidence <= more
    ensures Rises(FinalOf(r, metrics, c), FinalOf(r, metrics, c.(confidence := more)),
      c.confidence < more && Costly(r, c.violations))
  {
    Falls(r.confidenceRate, 1.0 - more, 1.0 - c.confidence);
    SmallerPenaltyRaises(r, metrics, c, c.(confidence := more));
  }

  /** Fewer failures among as many tests never lower the score, and raise it unless it stays clipped. */
  lemma FewerFailuresRaise(r: Rubric, metrics: seq<Metric>, c: Circumstances, fewer: nat)
    requires Penalised(r, metrics, c) && r.robustnessRate > 0.0 && c.total > 0 && fewer <= c.failures
    ensures Rises(FinalOf(r, metrics, c), FinalOf(r, metrics, c.(failures := fewer)),
      fewer < c.failures && Costly(r, c.violations))
  {
    var x, y := fewer as real / c.total as real, c.failures as real / c.total as real;
    QuotientsInOrder(fewer as real, c.failures as real, c.total as real);
    Falls(r.robustnessRate, x, y);
    SmallerPenaltyRaises(r, metrics, c, c.(failures := fewer));
  }

  lemma QuotientsInOrder(x: real, y: real, n: real)
    requires x <= y && n > 0.0
    ensures x / n <= y / n && (x < y ==> x / n < y / n)
  {
    DivideUp(x, y, n);
    assert (x / n) * n == x && (y / n) * n == y;
  }

  // ----- violations -----

  /** Each violation of a penalised constraint costs its magnitude times the constraint's penalty. */
  lemma ViolationCosts(r: Rubric, violations: seq<(string, real)>, name: string, magnitude: real, cost: real)
    requires cost == if name in r.constraintPenalties then r.constraintPenalties[name] * magnitude else 0.0
    ensures ConstraintTotal(r, violations + [(name, magnitude)]) == ConstraintTotal(r, violations) + cost
    ensures ConstraintTotal(r, []) == 0.0
  {
    var after := violations + [(name, magnitude)];
    assert after[..|after| - 1] == violations;
    assert cost == PenaltyOf(r, name, magnitude);
  }

  lemma {:induction false} ViolationsDiffer(r: Rubric, before: seq<(string, real)>, k: nat, size: real)
    requires k < |before|
    ensures ConstraintTotal(r, before[k := (before[k].0, size)]) - ConstraintTotal(r, before) ==
      PenaltyOf(r, before[k].0, size) - PenaltyOf(r, before[k].0, before[k].1)
  {
    var n := |before| - 1;
    var after := before[k := (before[k].0, size)];
    if k < n {
      ViolationsDiffer(r, before[..n], k, size);
      assert after[..n] == before[..n][k := (before[k].0, size)];
    } else {
      assert after[..n] == before[..n];
    }
  }

  lemma SmallerIsCheaper(r: Rubric, name: string, x: real, y: real)
    requires name in r.constraintPenalties && r.constraintPenalties[name] > 0.0 && x <= y
    ensures PenaltyOf(r, name, x) <= PenaltyOf(r, name, y) && (x < y ==> PenaltyOf(r, name, x) < PenaltyOf(r, name, y))
  {
    Falls(r.constraintPenalties[name], x, y);
  }

  /** A smaller violation of a penalised constraint never lowers the score, and raises it unless it
      stays clipped; one of a constraint without a penalty changes nothing. */
  lemma SmallerViolationRaises(r: Rubric, metrics: seq<Metric>, c: Circumstances, k: nat, less: real)
    requires Regular(r, metrics) && Taken(r, metrics, c).penalty <= 1.0
    requires k < |c.violations| && less <= c.violations[k].1
    requires c.violations[k].0 in r.constraintPenalties ==> r.constraintPenalties[c.violations[k].0] > 0.0
    ensures var after := c.violations[k := (c.violations[k].0, less)];
      if c.violations[k].0 in r.constraintPenalties then
        Rises(FinalOf(r, metrics, c), FinalOf(r, metrics, c.(violations := after)),
          less < c.violations[k].1 && Costly(r, after))
      else
        FinalOf(r, metrics, c) == FinalOf(r, metrics, c.(violations := after))
  {
    var (name, size) := c.violations[k];
    var after := c.violations[k := (name, less)];
    var d := c.(violations := after);
    RawIsNonNegative(r, metrics);
    ViolationsDiffer(r, c.violations, k, less);
    if name in r.constraintPenalties {
      if Costly(r, after) { ConstraintsAreCostly(r, after); }
      SmallerIsCheaper(r, name, less, size);
      FinalRises(Raw(r, metrics), Taken(r, metrics, c), Taken(r, metrics, d));
    } else {
      assert Taken(r, metrics, c) == Taken(r, metrics, d);
    }
  }

  // ----- the parts of the formula -----

  /** The score of a value with a threshold is that of the best level reached, whatever the order of
      the bounds; without one it is the value itself, cut to the unit interval. */
  lemma MetricScoreMeans(r: Rubric, m: Metric, name: string)
    ensures name in r.thresholds ==>
      var t, s := r.thresholds[name], MetricScore(r, m, name);
      var levels := [(t.acceptable, 0.5), (t.good, 0.7), (t.veryGood, 0.85), (t.excellent, 1.0)];
      && (forall k | 0 <= k < 4 ::
            (if t.lowerIsBetter then m.value <= levels[k].0 else m.value >= levels[k].0) ==> levels[k].1 <= s)
      && (s == 0.0 || exists k | 0 <= k < 4 ::
            s == levels[k].1 && if t.lowerIsBetter then m.value <= levels[k].0 else m.value >= levels[k].0)
    ensures name !in r.thresholds ==>
      MetricScore(r, m, name) == if m.value <= 0.0 then 0.0 else if m.value >= 1.0 then 1.0 else m.value
  {
    if name in r.thresholds {
      var t, s := r.thresholds[name], MetricScore(r, m, name);
      var levels := [(t.acceptable, 0.5), (t.good, 0.7), (t.veryGood, 0.85), (t.excellent, 1.0)];
      assert s == 0.0 || s == levels[0].1 || s == levels[1].1 || s == levels[2].1 || s == levels[3].1;
    }
  }

  /** Of several metrics with one name the last counts. */
  lemma {:induction false} LastOneCounts(metrics: seq<Metric>, name: string)
    ensures match Find(metrics, name)
      case None => forall k | 0 <= k < |metrics| :: metrics[k].name != name
      case Some(m) => exists k | 0 <= k < |metrics| ::
        metrics[k] == m && m.name == name && forall j | k < j < |metrics| :: metrics[j].name != name
  {
    if metrics != [] && metrics[|metrics| - 1].name != name { LastOneCounts(metrics[..|metrics| - 1], name); }
  }

  /** The weights that count: those whose metric has a value. */
  function Weights(r: Rubric, metrics: seq<Metric>): nat -> real {
    (k: nat) => if k < |r.weights| && Find(metrics, r.weights[k].0).Some? then r.weights[k].1 else 0.0
  }

  /** A metric counts with its score times its weight, less what its own uncertainty takes. */
  lemma PartMeans(r: Rubric, m: Metric, name: string, weight: real, uncertainty: real, own: real)
    requires uncertainty == if m.uncertainty.Some? then m.uncertainty.value else 0.0
    requires own == if uncertainty > 0.0 && Abs(m.value) > 0.0000000001 then
      uncertainty / Abs(m.value) * r.uncertaintyRate else 0.0
    ensures PartOf(r, m, name, weight).weighted == MetricScore(r, m, name) * weight * (1.0 - own)
  {
    assert own == OwnPenalty(r, m);
  }

  /** The weighted scores of the metrics that have a value. */
  function Scores(r: Rubric, metrics: seq<Metric>): nat -> real {
    (k: nat) =>
      if k < |r.weights| && Find(metrics, r.weights[k].0).Some? then
        PartOf(r, Find(metrics, r.weights[k].0).value, r.weights[k].0, r.weights[k].1).weighted
      else 0.0
  }

  lemma OnePartMore(r: Rubric, metrics: seq<Metric>, n: nat)
    requires 0 < n <= |r.weights|
    ensures var ps, before, found := Parts(r, metrics, n), Parts(r, metrics, n - 1), Find(metrics, r.weights[n - 1].0);
      if found.None? then ps == before
      else ps != [] && ps[..|ps| - 1] == before
           && ps[|ps| - 1] == PartOf(r, found.value, r.weights[n - 1].0, r.weights[n - 1].1)
  {
    if Find(metrics, r.weights[n - 1].0).Some? {
      var ps := Parts(r, metrics, n);
      assert ps[..|ps| - 1] == Parts(r, metrics, n - 1);
    }
  }

  lemma {:induction false} TotalsAreSums(r: Rubric, metrics: seq<Metric>, n: nat)
    requires n <= |r.weights|
    ensures WeightTotal(Parts(r, metrics, n)) == Sums.Sum(Weights(r, metrics), n)
    ensures WeightedTotal(Parts(r, metrics, n)) == Sums.Sum(Scores(r, metrics), n)
  {
    if n > 0 {
      TotalsAreSums(r, metrics, n - 1);
      OnePartMore(r, metrics, n);
    }
  }

  /** Unless the rubric takes the least, the aggregate is the weighted mean of the scores of the
      metrics that have a value, and nothing if their weights do not add up to more than nothing. */
  lemma RawIsWeightedMean(r: Rubric, metrics: seq<Metric>)
    requires r.method_ != Minimum
    ensures var weight, score := Sums.Sum(Weights(r, metrics), |r.weights|), Sums.Sum(Scores(r, metrics), |r.weights|);
      Raw(r, metrics) == if weight > 0.0 then score / weight else 0.0
  {
    TotalsAreSums(r, metrics, |r.weights|);
  }

  /** The least takes the least score of the metrics that have a value. */
  lemma RawIsLeast(r: Rubric, metrics: seq<Metric>, k: nat)
    requires r.method_ == Minimum && k < |r.weights| && Find(metrics, r.weights[k].0).Some?
    ensures Raw(r, metrics) <= MetricScore(r, Find(metrics, r.weights[k].0).value, r.weights[k].0)
    ensures exists j: nat :: j < |r.weights| && IsScoreAt(r, metrics, j, Raw(r, metrics))
  {
    LeastIsBelow(r, metrics, |r.weights|, k);
    LeastIsReached(r, metrics, |r.weights|);
  }

  /** A metric has a value, and it scores this. */
  ghost predicate IsScoreAt(r: Rubric, metrics: seq<Metric>, j: nat, score: real)
    requires j < |r.weights|
  {
    var found := Find(metrics, r.weights[j].0);
    found.Some? && score == MetricScore(r, found.value, r.weights[j].0)
  }

  lemma {:induction false} LeastIsBelow(r: Rubric, metrics: seq<Metric>, n: nat, k: nat)
    requires k < n <= |r.weights| && Find(metrics, r.weights[k].0).Some?
    ensures Parts(r, metrics, n) != []
    ensures Least(Parts(r, metrics, n)) <= MetricScore(r, Find(metrics, r.weights[k].0).value, r.weights[k].0)
  {
    OnePartMore(r, metrics, n);
    if k < n - 1 { LeastIsBelow(r, metrics, n - 1, k); }
  }

  lemma {:induction false} LeastIsReached(r: Rubric, metrics: seq<Metric>, n: nat)
    requires n <= |r.weights| && Parts(r, metrics, n) != []
    ensures exists j: nat :: j < |r.weights| && IsScoreAt(r, metrics, j, Least(Parts(r, metrics, n)))
  {
    OnePartMore(r, metrics, n);
    var ps, before := Parts(r, metrics, n), Parts(r, metrics, n - 1);
    if before != [] { LeastIsReached(r, metrics, n - 1); }
    if Find(metrics, r.weights[n - 1].0).Some? {
      assert IsScoreAt(r, metrics, n - 1, ps[|ps| - 1].score);
      assert Least(ps) == if before == [] then ps[|ps| - 1].score else Min(Least(before), ps[|ps| - 1].score);
    }
  }

  /** What the uncertain metrics' uncertainties amount to next to their values. */
  function Widths(metrics: seq<Metric>): nat -> real {
    (k: nat) =>
      if k < |metrics| && metrics[k].uncertainty.Some? && metrics[k].uncertainty.value > 0.0 then
        var size := if metrics[k].value < 0.0 then -metrics[k].value else metrics[k].value;
        if size > 0.0000000001 then metrics[k].uncertainty.value / size else metrics[k].uncertainty.value
      else 0.0
  }

  /** One for each uncertain metric. */
  function Ones(metrics: seq<Metric>): nat -> real {
    (k: nat) =>
      if k < |metrics| && metrics[k].uncertainty.Some? && metrics[k].uncertainty.value > 0.0 then 1.0 else 0.0
  }

  lemma {:induction false} UncertaintiesAreSums(metrics: seq<Metric>, n: nat)
    requires n <= |metrics|
    ensures RelativeTotal(metrics[..n]) == Sums.Sum(Widths(metrics), n)
    ensures Uncertain(metrics[..n]) as real == Sums.Sum(Ones(metrics), n)
  {
    if n > 0 {
      UncertaintiesAreSums(metrics, n - 1);
      assert metrics[..n][..n - 1] == metrics[..n - 1] && metrics[..n][n - 1] == metrics[n - 1];
    }
  }

  /** The shared penalty is the rate times the mean width of the metrics that state an uncertainty. */
  lemma UncertaintyIsMeanWidth(metrics: seq<Metric>, rate: real)
    ensures var count := Sums.Sum(Ones(metrics), |metrics|);
      if count == 0.0 then UncertaintyPenalty(metrics, rate) == 0.0
      else UncertaintyPenalty(metrics, rate) == Sums.Sum(Widths(metrics), |metrics|) / count * rate
  {
    assert metrics[..|metrics|] == metrics;
    UncertaintiesAreSums(metrics, |metrics|);
  }
}
