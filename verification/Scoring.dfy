/** `services/judge/scorer.py`: the judge's final score. */
module Scoring {
  import opened Common
  import opened Arithmetic
  import opened Thresholds

  datatype Metric = Metric(name: string, value: real, uncertainty: Option<real>)

  /** A method the rubric does not know is taken for the weighted sum. */
  datatype Aggregation = WeightedSum | Minimum | Unknown

  datatype Rubric = Rubric(weights: seq<(string, real)>, thresholds: map<string, Threshold>,
                           constraintPenalties: map<string, real>, feasibilityWeight: real, confidenceRate: real,
                           uncertaintyRate: real, robustnessRate: real, method_: Aggregation)

  /** A metric's part in the breakdown. */
  datatype Part = Part(score: real, weight: real, weighted: real)

  /** `metric_map`: of metrics with one name the last counts. */
  function Find(metrics: seq<Metric>, name: string): Option<Metric> {
    if metrics == [] then None
    else if metrics[|metrics| - 1].name == name then Some(metrics[|metrics| - 1])
    else Find(metrics[..|metrics| - 1], name)
  }

  /** The threshold score of a metric; without a threshold the value itself, clipped. */
  function MetricScore(r: Rubric, m: Metric, name: string): real {
    if name in r.thresholds then LevelScore(LevelOf(m.value, r.thresholds[name])) else Clamp(0.0, 1.0, m.value)
  }

  predicate IsUncertain(m: Metric) { m.uncertainty.Some? && m.uncertainty.value > 0.0 }

  /** The value is not taken for zero. */
  predicate Sizeable(m: Metric) { Abs(m.value) > 0.0000000001 }

  /** A stated uncertainty relative to the value, or as it is next to a value of zero. */
  function Relative(m: Metric): real {
    if !IsUncertain(m) then 0.0
    else if Sizeable(m) then m.uncertainty.value / Abs(m.value)
    else m.uncertainty.value
  }

  /** What the metric's own uncertainty takes. */
  function OwnPenalty(r: Rubric, m: Metric): real {
    if IsUncertain(m) && Sizeable(m) then m.uncertainty.value / Abs(m.value) * r.uncertaintyRate else 0.0
  }

  function PartOf(r: Rubric, m: Metric, name: string, weight: real): Part {
    PartFor(MetricScore(r, m, name), weight, OwnPenalty(r, m))
  }

  function PartFor(score: real, weight: real, penalty: real): Part {
    Part(score, weight, score * weight * (1.0 - penalty))
  }

  /** The parts of the first `n` weighted metrics, those without a value left out. */
  function Parts(r: Rubric, metrics: seq<Metric>, n: nat): seq<Part>
    requires n <= |r.weights|
  {
    if n == 0 then []
    else
      var (name, weight) := r.weights[n - 1];
      var found := Find(metrics, name);
      Parts(r, metrics, n - 1) + if found.Some? then [PartOf(r, found.value, name, weight)] else []
  }

  function WeightTotal(ps: seq<Part>): real {
    if ps == [] then 0.0 else WeightTotal(ps[..|ps| - 1]) + ps[|ps| - 1].weight
  }

  function WeightedTotal(ps: seq<Part>): real {
    if ps == [] then 0.0 else WeightedTotal(ps[..|ps| - 1]) + ps[|ps| - 1].weighted
  }

  function Least(ps: seq<Part>): real
    requires ps != []
  {
    if |ps| == 1 then ps[0].score else Min(Least(ps[..|ps| - 1]), ps[|ps| - 1].score)
  }

  function Aggregate(method_: Aggregation, ps: seq<Part>): real {
    if ps == [] then 0.0
    else if method_ == Minimum then Least(ps)
    else if WeightTotal(ps) > 0.0 then WeightedTotal(ps) / WeightTotal(ps)
    else 0.0
  }

  /** Everything that is taken off, apart from the metrics. */
  datatype Deductions = Deductions(multiplier: real, penalty: real, constraints: real)

  /** The score before it is clipped to the unit interval. */
  ghost function Net(raw: real, d: Deductions): real {
    var net :| net == raw * d.multiplier * (1.0 - d.penalty) - d.constraints;
    net
  }

  lemma NetIs(raw: real, d: Deductions, left: real)
    requires left == raw * d.multiplier * (1.0 - d.penalty)
    ensures Net(raw, d) == left - d.constraints
  {
  }

  ghost function Final(raw: real, d: Deductions): (f: real)
    ensures 0.0 <= f <= 1.0
  {
    Clamp(0.0, 1.0, Net(raw, d))
  }

  /** The relative uncertainties of the metrics that state one. */
  function RelativeTotal(metrics: seq<Metric>): real {
    if metrics == [] then 0.0 else RelativeTotal(metrics[..|metrics| - 1]) + Relative(metrics[|metrics| - 1])
  }

  function Uncertain(metrics: seq<Metric>): nat {
    if metrics == [] then 0
    else Uncertain(metrics[..|metrics| - 1]) + if IsUncertain(metrics[|metrics| - 1]) then 1 else 0
  }

  function UncertaintyPenalty(metrics: seq<Metric>, rate: real): real {
    if Uncertain(metrics) == 0 then 0.0 else RelativeTotal(metrics) / Uncertain(metrics) as real * rate
  }

  function RobustnessPenalty(total: nat, failures: nat, rate: real): real {
    if total == 0 then 0.0 else failures as real / total as real * rate
  }

  /** What violating a constraint by so much takes; some constraints have no penalty. */
  function PenaltyOf(r: Rubric, name: string, magnitude: real): real {
    if name in r.constraintPenalties then r.constraintPenalties[name] * magnitude else 0.0
  }

  function ConstraintTotal(r: Rubric, violations: seq<(string, real)>): real {
    if violations == [] then 0.0
    else
      var (name, magnitude) := violations[|violations| - 1];
      ConstraintTotal(r, violations[..|violations| - 1]) + PenaltyOf(r, name, magnitude)
  }

  function Multiplier(r: Rubric, feasibility: real): real { feasibility * r.feasibilityWeight }

  /** What confidence, uncertainty and robustness take together. */
  function TotalPenalty(r: Rubric, metrics: seq<Metric>, confidence: real, total: nat, failures: nat): real {
    (1.0 - confidence) * r.confidenceRate + UncertaintyPenalty(metrics, r.uncertaintyRate)
    + RobustnessPenalty(total, failures, r.robustnessRate)
  }

  /** The raw score of a scenario. */
  function Raw(r: Rubric, metrics: seq<Metric>): real { Aggregate(r.method_, Parts(r, metrics, |r.weights|)) }

  /** Everything a scenario is scored on, apart from its metrics. */
  datatype Circumstances = Circumstances(feasibility: real, confidence: real, violations: seq<(string, real)>,
      total: nat, failures: nat)

  function Taken(r: Rubric, metrics: seq<Metric>, c: Circumstances): Deductions {
    Deductions(Multiplier(r, c.feasibility), TotalPenalty(r, metrics, c.confidence, c.total, c.failures),
               ConstraintTotal(r, c.violations))
  }

  /** The final score, as `Score` computes it. */
  ghost function FinalOf(r: Rubric, metrics: seq<Metric>, c: Circumstances): real {
    Final(Raw(r, metrics), Taken(r, metrics, c))
  }

  method ScoreParts(r: Rubric, metrics: seq<Metric>) returns (parts: seq<Part>)
    ensures parts == Parts(r, metrics, |r.weights|)
  {
    parts := [];
    for k := 0 to |r.weights|
      invariant parts == Parts(r, metrics, k)
    {
      var (name, weight) := r.weights[k];
      var found := Find(metrics, name);
      if found.Some? {
        var metric := found.value;
        var score := MetricScore(r, metric, name);
        var uncertainty := if metric.uncertainty.Some? then metric.uncertainty.value else 0.0;
        var penalty := 0.0;
        if uncertainty > 0.0 && Abs(metric.value) > 0.0000000001 {
          penalty := uncertainty / Abs(metric.value) * r.uncertaintyRate;
        }
        assert penalty == OwnPenalty(r, metric);
        var part := PartFor(score, weight, penalty);
        assert part == PartOf(r, metric, name, weight);
        parts := parts + [part];
      }
    }
  }

  method FromUncertainty(metrics: seq<Metric>, rate: real) returns (penalty: real)
    ensures penalty == UncertaintyPenalty(metrics, rate)
  {
    var total, count := 0.0, 0;
    for k := 0 to |metrics|
      invariant total == RelativeTotal(metrics[..k]) && count == Uncertain(metrics[..k])
    {
      assert metrics[..k + 1][..k] == metrics[..k] && metrics[..k + 1][k] == metrics[k];
      var m := metrics[k];
      if m.uncertainty.Some? && m.uncertainty.value > 0.0 {
        var relative := m.uncertainty.value;
        if Abs(m.value) > 0.0000000001 { relative := m.uncertainty.value / Abs(m.value); }
        assert relative == Relative(m);
        total, count := total + relative, count + 1;
      }
    }
    assert metrics[..|metrics|] == metrics;
    if count == 0 { return 0.0; }
    penalty := total / count as real * rate;
  }

  method TotalConstraints(r: Rubric, violations: seq<(string, real)>) returns (constraints: real)
    ensures constraints == ConstraintTotal(r, violations)
  {
    constraints := 0.0;
    for k := 0 to |violations|
      invariant constraints == ConstraintTotal(r, violations[..k])
    {
      assert violations[..k + 1][..k] == violations[..k] && violations[..k + 1][k] == violations[k];
      if violations[k].0 in r.constraintPenalties {
        constraints := constraints + r.constraintPenalties[violations[k].0] * violations[k].1;
      }
    }
    assert violations[..|violations|] == violations;
  }

  method Settled(raw: real, d: Deductions) returns (final: real)
    ensures final == Final(raw, d)
  {
    var score := raw;
    score := score * d.multiplier;
    score := score * (1.0 - d.penalty);
    NetIs(raw, d, score);
    score := score - d.constraints;
    final := Max(0.0, Min(1.0, score));
  }

  /** The final score of a scenario. */
  method Score(r: Rubric, metrics: seq<Metric>, feasibility: real, confidence: real,
               violations: seq<(string, real)>, total: nat, failures: nat) returns (final: real)
    ensures final == FinalOf(r, metrics, Circumstances(feasibility, confidence, violations, total, failures))
    ensures 0.0 <= final <= 1.0
  {
    var parts := ScoreParts(r, metrics);
    var raw := Aggregate(r.method_, parts);
    var constraints := TotalConstraints(r, violations);
    var multiplier := feasibility * r.feasibilityWeight;
    var uncertainty := FromUncertainty(metrics, r.uncertaintyRate);
    var penalty := (1.0 - confidence) * r.confidenceRate + uncertainty
                   + RobustnessPenalty(total, failures, r.robustnessRate);
    assert multiplier == Multiplier(r, feasibility);
    assert penalty == TotalPenalty(r, metrics, confidence, total, failures);
    final := Settled(raw, Deductions(multiplier, penalty, constraints));
  }

  // ----- better metrics, no lower score -----

  /** No lower a score and, where parts are weighted, no more taken off it and no more than all of it. */
  ghost predicate CountsForMore(r: Rubric, m: Metric, n: Metric) {
    && m.name == n.name && MetricScore(r, m, m.name) <= MetricScore(r, n, n.name)
    && (r.method_ != Minimum ==> OwnPenalty(r, n) <= OwnPenalty(r, m) && OwnPenalty(r, n) <= 1.0)
  }

  ghost predicate AllCountForMore(r: Rubric, before: seq<Metric>, after: seq<Metric>) {
    |before| == |after| && forall k | 0 <= k < |before| :: CountsForMore(r, before[k], after[k])
  }

  lemma {:induction false} FoundCountsForMore(r: Rubric, before: seq<Metric>, after: seq<Metric>, name: string)
    requires AllCountForMore(r, before, after)
    ensures Find(before, name).Some? <==> Find(after, name).Some?
    ensures Find(before, name).Some? ==>
      Find(before, name).value.name == name && CountsForMore(r, Find(before, name).value, Find(after, name).value)
  {
    if before != [] {
      var k := |before| - 1;
      assert CountsForMore(r, before[k], after[k]);
      if before[k].name != name { FoundCountsForMore(r, before[..k], after[..k], name); }
    }
  }

  /** In order: the weights, the scores and, where they count, the weighted scores. */
  ghost predicate Below(ps: seq<Part>, qs: seq<Part>, weighted: bool) {
    |ps| == |qs| && forall k | 0 <= k < |ps| :: PartBelow(ps[k], qs[k], weighted)
  }

  ghost predicate PartBelow(p: Part, q: Part, weighted: bool) {
    && p.weight == q.weight && 0.0 <= p.score <= q.score
    && (weighted ==> p.weighted <= q.weighted && 0.0 <= q.weighted)
  }

  lemma PartsInOrder(s: real, t: real, w: real, p: real, q: real, weighted: bool)
    requires 0.0 <= s <= t && w >= 0.0 && (weighted ==> q <= p && q <= 1.0)
    ensures PartBelow(PartFor(s, w, p), PartFor(t, w, q), weighted)
  {
    if weighted { WeightedInOrder(s, t, w, p, q); }
  }

  lemma WeightedInOrder(s: real, t: real, w: real, p: real, q: real)
    requires 0.0 <= s <= t && w >= 0.0 && q <= p && q <= 1.0
    ensures s * w * (1.0 - p) <= t * w * (1.0 - q) && 0.0 <= t * w * (1.0 - q)
  {
    var a, b := s * w, t * w;
    ScaleUp(w, s, t);
    ProductIsNonNegative(s, w, a);
    ScaleUp(a, 1.0 - p, 1.0 - q);
    ScaleUp(1.0 - q, a, b);
    ProductIsNonNegative(b, 1.0 - q, b * (1.0 - q));
  }

  lemma PartIsBelow(r: Rubric, m: Metric, n: Metric, weight: real)
    requires CountsForMore(r, m, n) && weight >= 0.0
    ensures PartBelow(PartOf(r, m, m.name, weight), PartOf(r, n, m.name, weight), r.method_ != Minimum)
  {
    PartsInOrder(MetricScore(r, m, m.name), MetricScore(r, n, m.name), weight, OwnPenalty(r, m), OwnPenalty(r, n),
      r.method_ != Minimum);
  }

  ghost predicate NonNegativeWeights(r: Rubric) { forall k | 0 <= k < |r.weights| :: r.weights[k].1 >= 0.0 }

  lemma {:induction false} PartsAreBelow(r: Rubric, before: seq<Metric>, after: seq<Metric>, n: nat)
    requires AllCountForMore(r, before, after) && NonNegativeWeights(r) && n <= |r.weights|
    ensures Below(Parts(r, before, n), Parts(r, after, n), r.method_ != Minimum)
  {
    if n > 0 {
      var name, weight := r.weights[n - 1].0, r.weights[n - 1].1;
      PartsAreBelow(r, before, after, n - 1);
      FoundCountsForMore(r, before, after, name);
      if Find(before, name).Some? { PartIsBelow(r, Find(before, name).value, Find(after, name).value, weight); }
    }
  }

  lemma {:induction false} TotalsAreBelow(ps: seq<Part>, qs: seq<Part>, weighted: bool)
    requires Below(ps, qs, weighted)
    ensures WeightTotal(ps) == WeightTotal(qs)
    ensures weighted ==> WeightedTotal(ps) <= WeightedTotal(qs) && 0.0 <= WeightedTotal(qs)
    ensures ps != [] ==> Least(ps) <= Least(qs) && 0.0 <= Least(qs)
  {
    if ps != [] { TotalsAreBelow(ps[..|ps| - 1], qs[..|ps| - 1], weighted); }
  }

  lemma DivideUp(x: real, y: real, d: real)
    requires x <= y && d > 0.0
    ensures x / d <= y / d
  {
    assert x == (x / d) * d && y == (y / d) * d;
  }

  lemma RawIsNoLower(r: Rubric, before: seq<Metric>, after: seq<Metric>)
    requires AllCountForMore(r, before, after) && NonNegativeWeights(r)
    ensures Raw(r, before) <= Raw(r, after) && 0.0 <= Raw(r, after)
  {
    var ps, qs := Parts(r, before, |r.weights|), Parts(r, after, |r.weights|);
    PartsAreBelow(r, before, after, |r.weights|);
    TotalsAreBelow(ps, qs, r.method_ != Minimum);
    if ps != [] && r.method_ != Minimum && WeightTotal(ps) > 0.0 {
      DivideUp(WeightedTotal(ps), WeightedTotal(qs), WeightTotal(ps));
      QuotientIsNonNegative(WeightedTotal(qs), WeightTotal(qs));
    }
  }

  lemma NetIsMonotone(raw: real, better: real, d: Deductions, e: Deductions)
    requires raw <= better && 0.0 <= better && d.multiplier == e.multiplier >= 0.0
    requires e.penalty <= d.penalty <= 1.0 && d.constraints == e.constraints
    ensures Net(raw, d) <= Net(better, e)
  {
    var x, y, k, l := raw * d.multiplier, better * d.multiplier, 1.0 - d.penalty, 1.0 - e.penalty;
    ScaleUp(d.multiplier, raw, better);
    ProductIsNonNegative(better, d.multiplier, y);
    ScaleUp(k, x, y);
    ScaleUp(y, k, l);
    assert Net(raw, d) == x * k - d.constraints && Net(better, e) == y * l - e.constraints;
  }

  lemma ClippedOrder(x: real, y: real)
    requires x <= y
    ensures Clamp(0.0, 1.0, x) <= Clamp(0.0, 1.0, y)
  {
  }

  // ----- uncertainties -----

  /** The same metrics are uncertain, and none is relatively more so. */
  ghost predicate NoMoreUncertain(before: seq<Metric>, after: seq<Metric>) {
    && |before| == |after|
    && forall k | 0 <= k < |before| ::
      (IsUncertain(before[k]) <==> IsUncertain(after[k])) && Relative(after[k]) <= Relative(before[k])
  }

  lemma {:induction false} UncertaintyAddsUp(before: seq<Metric>, after: seq<Metric>)
    requires NoMoreUncertain(before, after)
    ensures Uncertain(before) == Uncertain(after) && RelativeTotal(after) <= RelativeTotal(before)
  {
    if before != [] { UncertaintyAddsUp(before[..|before| - 1], after[..|before| - 1]); }
  }

  lemma PenaltyDoesNotRise(before: seq<Metric>, after: seq<Metric>, rate: real)
    requires NoMoreUncertain(before, after) && (Uncertain(before) == 0 || rate >= 0.0)
    ensures UncertaintyPenalty(after, rate) <= UncertaintyPenalty(before, rate)
  {
    UncertaintyAddsUp(before, after);
    if Uncertain(before) > 0 {
      var n := Uncertain(before) as real;
      DivideUp(RelativeTotal(after), RelativeTotal(before), n);
      ScaleUp(rate, RelativeTotal(after) / n, RelativeTotal(before) / n);
    }
  }

  /** The same metrics, each at least as good, none relatively more uncertain; where parts are
      weighted, no metric's own penalty rises or takes more than all of its score. Metrics
      without a threshold count as higher is better. */
  ghost predicate Better(r: Rubric, before: seq<Metric>, after: seq<Metric>) {
    && NoMoreUncertain(before, after)
    && forall k | 0 <= k < |before| :: BetterMetric(r, before[k], after[k])
  }

  ghost predicate BetterMetric(r: Rubric, m: Metric, n: Metric) {
    && m.name == n.name
    && (if m.name in r.thresholds then Improves(r.thresholds[m.name], m.value, n.value) else m.value <= n.value)
    && (r.method_ != Minimum ==> OwnPenalty(r, n) <= OwnPenalty(r, m) && OwnPenalty(r, n) <= 1.0)
  }

  /** With non-negative weights, feasibility and uncertainty rate and penalties of at most one,
      improving metrics in their declared directions without making any of them relatively more
      uncertain never lowers the final score. */
  lemma BetterMetricsBetterScore(r: Rubric, before: seq<Metric>, after: seq<Metric>, c: Circumstances)
    requires Better(r, before, after) && NonNegativeWeights(r) && (Uncertain(before) == 0 || r.uncertaintyRate >= 0.0)
    requires Taken(r, before, c).multiplier >= 0.0 && Taken(r, before, c).penalty <= 1.0
    ensures FinalOf(r, before, c) <= FinalOf(r, after, c)
  {
    RawIsNoLower(r, before, after);
    PenaltyDoesNotRise(before, after, r.uncertaintyRate);
    NetIsMonotone(Raw(r, before), Raw(r, after), Taken(r, before, c), Taken(r, after, c));
    ClippedOrder(Net(Raw(r, before), Taken(r, before, c)), Net(Raw(r, after), Taken(r, after, c)));
  }

  /** With the same uncertainty next to values that are not taken for zero, relatively less
      uncertain means larger in magnitude. So a positive value that rises is covered. */
  lemma LargerIsLessUncertain(r: Rubric, m: Metric, n: Metric)
    requires IsUncertain(m) && m.uncertainty == n.uncertainty && Sizeable(m) && Sizeable(n)
    ensures Relative(n) <= Relative(m) <==> Abs(m.value) <= Abs(n.value)
    ensures r.uncertaintyRate >= 0.0 && Abs(m.value) <= Abs(n.value) ==> OwnPenalty(r, n) <= OwnPenalty(r, m)
  {
    LargerDivisor(m.uncertainty.value, Abs(m.value), Abs(n.value));
    if r.uncertaintyRate >= 0.0 && Abs(m.value) <= Abs(n.value) {
      ScaleUp(r.uncertaintyRate, Relative(n), Relative(m));
    }
  }

  lemma LargerDivisor(u: real, x: real, y: real)
    requires u > 0.0 && x > 0.0 && y > 0.0
    ensures u / y <= u / x <==> x <= y
  {
    var p, q := u / x, u / y;
    assert p * x == u && q * y == u;
    if x <= y { assert q * x <= u; } else { assert q * x > u; }
  }

  /** One uncertain metric gets another value or another uncertainty, but stays on its level. */
  ghost predicate OneChanges(r: Rubric, before: seq<Metric>, after: seq<Metric>, k: nat) {
    && |before| == |after| && k < |before| && (forall j | 0 <= j < |before| && j != k :: after[j] == before[j])
    && after[k].name == before[k].name && IsUncertain(before[k]) && IsUncertain(after[k])
    && MetricScore(r, after[k], before[k].name) == MetricScore(r, before[k], before[k].name)
  }

  lemma {:induction false} TotalsDiffer(r: Rubric, before: seq<Metric>, after: seq<Metric>, k: nat)
    requires OneChanges(r, before, after, k)
    ensures Uncertain(after) == Uncertain(before) >= 1
    ensures RelativeTotal(after) - RelativeTotal(before) == Relative(after[k]) - Relative(before[k])
  {
    var n := |before| - 1;
    if k < n { TotalsDiffer(r, before[..n], after[..n], k); } else { assert before[..n] == after[..n]; }
  }

  lemma PenaltyFollows(r: Rubric, before: seq<Metric>, after: seq<Metric>, k: nat)
    requires OneChanges(r, before, after, k) && r.uncertaintyRate > 0.0
    ensures UncertaintyPenalty(after, r.uncertaintyRate) <= UncertaintyPenalty(before, r.uncertaintyRate) <==>
      Relative(after[k]) <= Relative(before[k])
  {
    TotalsDiffer(r, before, after, k);
    var n, x, y := Uncertain(before) as real, RelativeTotal(before), RelativeTotal(after);
    ScaledQuotients(x, y, n, r.uncertaintyRate);
  }

  lemma ScaledQuotients(x: real, y: real, n: real, rate: real)
    requires n > 0.0 && rate > 0.0
    ensures y / n * rate <= x / n * rate <==> y <= x
  {
    var p, q := x / n, y / n;
    assert p * n == x && q * n == y;
    if y <= x {
      DivideUp(y, x, n);
      ScaleUp(rate, q, p);
    } else {
      assert p < q by { if q <= p { ScaleUp(n, q, p); } }
      assert (q - p) * rate > 0.0;
    }
  }

  /** On one side of the cut-off a metric's own penalty goes the way of its relative uncertainty. */
  lemma OwnFollows(r: Rubric, m: Metric, n: Metric)
    requires IsUncertain(m) && IsUncertain(n) && (Sizeable(m) <==> Sizeable(n)) && r.uncertaintyRate >= 0.0
    requires Relative(n) <= Relative(m)
    ensures OwnPenalty(r, n) <= OwnPenalty(r, m)
  {
    if Sizeable(m) { ScaleUp(r.uncertaintyRate, Relative(n), Relative(m)); }
  }

  /** No metric's own penalty takes more than all of its score; this matters where parts are weighted. */
  ghost predicate Bounded(r: Rubric, metrics: seq<Metric>) {
    r.method_ != Minimum ==> forall k | 0 <= k < |metrics| :: OwnPenalty(r, metrics[k]) <= 1.0
  }

  lemma RawFollows(r: Rubric, before: seq<Metric>, after: seq<Metric>, k: nat)
    requires OneChanges(r, before, after, k) && NonNegativeWeights(r) && r.uncertaintyRate >= 0.0 && Bounded(r, before)
    requires r.method_ == Minimum || (Sizeable(before[k]) <==> Sizeable(after[k]))
    requires Relative(after[k]) <= Relative(before[k])
    ensures 0.0 <= Raw(r, after) && Raw(r, before) <= Raw(r, after)
  {
    forall j | 0 <= j < |before| ensures CountsForMore(r, before[j], after[j]) {
      if j == k && r.method_ != Minimum { OwnFollows(r, before[k], after[k]); }
    }
    RawIsNoLower(r, before, after);
  }

  lemma NetFalls(raw: real, lower: real, d: Deductions, e: Deductions)
    requires lower <= raw && d.multiplier == e.multiplier >= 0.0 && d.constraints == e.constraints >= 0.0
    requires d.penalty < e.penalty <= 1.0 && Net(raw, d) > 0.0
    ensures Net(lower, e) < Net(raw, d)
  {
    var x, y, k, l := raw * d.multiplier, lower * d.multiplier, 1.0 - d.penalty, 1.0 - e.penalty;
    assert Net(raw, d) == x * k - d.constraints && Net(lower, e) == y * l - e.constraints;
    ScaleUp(d.multiplier, lower, raw);
    assert x * k > 0.0;
    assert x > 0.0 by { if x <= 0.0 { ScaleUp(k, x, 0.0); } }
    ScaleUp(l, y, x);
    assert x * l < x * k by { assert x * (k - l) > 0.0; }
  }

  /** With uncertainties an improvement can cost. When one uncertain metric moves within its level,
      and the score was neither clipped nor nothing before, it does not fall exactly if the metric
      does not become relatively more uncertain. Under the minimum this holds whatever the values;
      where parts are weighted, as long as both values are taken for zero or neither is. */
  lemma ScoreFollowsUncertainty(r: Rubric, before: seq<Metric>, after: seq<Metric>, k: nat, c: Circumstances)
    requires OneChanges(r, before, after, k) && NonNegativeWeights(r) && r.uncertaintyRate > 0.0
    requires r.method_ == Minimum || (Sizeable(before[k]) <==> Sizeable(after[k]))
    requires Bounded(r, before) && Bounded(r, after)
    requires var d, e := Taken(r, before, c), Taken(r, after, c);
      d.multiplier >= 0.0 && d.constraints >= 0.0 && d.penalty <= 1.0 && e.penalty <= 1.0
    requires 0.0 < Net(Raw(r, before), Taken(r, before, c)) <= 1.0
    ensures FinalOf(r, before, c) <= FinalOf(r, after, c) <==> Relative(after[k]) <= Relative(before[k])
  {
    var raw, other, d, e := Raw(r, before), Raw(r, after), Taken(r, before, c), Taken(r, after, c);
    PenaltyFollows(r, before, after, k);
    if Relative(after[k]) <= Relative(before[k]) {
      RawFollows(r, before, after, k);
      NetIsMonotone(raw, other, d, e);
      ClippedOrder(Net(raw, d), Net(other, e));
    } else {
      RawFollows(r, after, before, k);
      NetFalls(raw, other, d, e);
    }
  }

  // ----- two scenarios -----

  lemma TotalsOfOne(p: Part)
    ensures WeightTotal([p]) == p.weight && WeightedTotal([p]) == p.weighted
  {
    assert [p][..0] == [];
  }

  lemma RawOfOne(r: Rubric, m: Metric, own: real)
    requires r.weights == [(m.name, 1.0)] && r.method_ == WeightedSum
    requires MetricScore(r, m, m.name) == 1.0 && own == OwnPenalty(r, m) && 0.0 <= own <= 1.0
    ensures Raw(r, [m]) == 1.0 - own
  {
    var p := PartFor(1.0, 1.0, own);
    assert Parts(r, [m], 1) == [p];
    TotalsOfOne(p);
    assert p.weighted == 1.0 - own;
  }

  /** The final score with a single, excellent and uncertain metric. */
  lemma OneMetric(r: Rubric, m: Metric, own: real, shared: real)
    requires r.weights == [(m.name, 1.0)] && r.feasibilityWeight == 1.0 && r.method_ == WeightedSum
    requires IsUncertain(m) && MetricScore(r, m, m.name) == 1.0
    requires own == OwnPenalty(r, m) && shared == Relative(m) * r.uncertaintyRate && 0.0 <= own <= 1.0 &&
      0.0 <= shared <= 1.0
    ensures FinalOf(r, [m], Circumstances(1.0, 1.0, [], 0, 0)) == (1.0 - own) * (1.0 - shared)
  {
    var c := Circumstances(1.0, 1.0, [], 0, 0);
    assert [m][..0] == [] && RelativeTotal([]) == 0.0 && Uncertain([]) == 0;
    assert Uncertain([m]) == 1 && RelativeTotal([m]) == Relative(m);
    assert Taken(r, [m], c) == Deductions(1.0, shared, 0.0);
    RawOfOne(r, m, own);
    FinalOfShare(1.0 - own, shared);
  }

  lemma FinalOfShare(raw: real, shared: real)
    requires 0.0 <= raw <= 1.0 && 0.0 <= shared <= 1.0
    ensures Final(raw, Deductions(1.0, shared, 0.0)) == raw * (1.0 - shared)
  {
    var left := raw * (1.0 - shared);
    assert Net(raw, Deductions(1.0, shared, 0.0)) == left;
    ProductIsNonNegative(raw, 1.0 - shared, left);
    ScaleUp(raw, 1.0 - shared, 1.0);
  }

  /** Ten and one are both excellent, and one, the better value, scores less. */
  lemma UncertaintyCanPunishImprovement()
    ensures var t := Threshold(40.0, 30.0, 20.0, 10.0, true);
      var r := Rubric([("delay", 1.0)], map["delay" := t], map[], 1.0, 0.0, 0.05, 0.0, WeightedSum);
      var before, after := [Metric("delay", 10.0, Some(1.0))], [Metric("delay", 1.0, Some(1.0))];
      var c := Circumstances(1.0, 1.0, [], 0, 0);
      Improves(t, 10.0, 1.0) && FinalOf(r, after, c) < FinalOf(r, before, c)
  {
    var t := Threshold(40.0, 30.0, 20.0, 10.0, true);
    var r := Rubric([("delay", 1.0)], map["delay" := t], map[], 1.0, 0.0, 0.05, 0.0, WeightedSum);
    OneMetric(r, Metric("delay", 10.0, Some(1.0)), 0.005, 0.005);
    OneMetric(r, Metric("delay", 1.0, Some(1.0)), 0.05, 0.05);
  }

  /** Across the cut-off the relative uncertainty alone does not decide: zero and two are both
      excellent, two is relatively less uncertain, but only two pays a penalty of its own. */
  lemma CutOffCanPunish()
    ensures var t := Threshold(-4.0, -3.0, -2.0, -1.0, false);
      var r := Rubric([("gain", 1.0)], map["gain" := t], map[], 1.0, 0.0, 0.8, 0.0, WeightedSum);
      var before, after := Metric("gain", 0.0, Some(1.0)), Metric("gain", 1.25, Some(1.0));
      var c := Circumstances(1.0, 1.0, [], 0, 0);
      && Improves(t, 0.0, 1.25) && Relative(after) < Relative(before)
      && FinalOf(r, [after], c) < FinalOf(r, [before], c)
  {
    var t := Threshold(-4.0, -3.0, -2.0, -1.0, false);
    var r := Rubric([("gain", 1.0)], map["gain" := t], map[], 1.0, 0.0, 0.8, 0.0, WeightedSum);
    OneMetric(r, Metric("gain", 0.0, Some(1.0)), 0.0, 0.8);
    OneMetric(r, Metric("gain", 1.25, Some(1.0)), 0.64, 0.64);
  }
}
