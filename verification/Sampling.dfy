/** `services/optimizer/benchmarks/metrics.py`: the sampled hypervolume of three or more objectives. */
module Sampling {
  import opened Common
  import opened Dominance
  import opened Pareto

  /** How many samples are taken, and draw `i` of sample `s`: the same ones in every call, because
      the generator is seeded afresh. */
  datatype Draws = Draws(samples: nat, draw: (nat, nat) -> real) {
    ghost predicate Valid() { samples > 0 && forall s, i :: 0.0 <= draw(s, i) <= 1.0 }
  }

  // ----- the box -----

  /** The least value of objective `i`, and at most the reference's. */
  function Least(rows: seq<Vector>, reference: Vector, i: nat): (low: real)
    requires i < |reference| && HasWidth(rows, |reference|)
  {
    if rows == [] then reference[i] else Min(Least(rows[..|rows| - 1], reference, i), rows[|rows| - 1][i])
  }

  lemma {:induction false} LeastIsReached(rows: seq<Vector>, reference: Vector, i: nat)
    requires i < |reference| && HasWidth(rows, |reference|)
    ensures var low := Least(rows, reference, i);
      && low <= reference[i] && (forall k | 0 <= k < |rows| :: low <= rows[k][i])
      && (low == reference[i] || exists k :: 0 <= k < |rows| && rows[k][i] == low)
  {
    if rows != [] {
      var before := rows[..|rows| - 1];
      LeastIsReached(before, reference, i);
      assert forall k | 0 <= k < |rows| - 1 :: rows[k] == before[k];
      assert rows[|rows| - 1][i] == rows[|rows| - 1][i];
    }
  }

  function BoxLow(rows: seq<Vector>, reference: Vector): (low: Vector)
    requires HasWidth(rows, |reference|)
    ensures |low| == |reference| && forall i | 0 <= i < |low| :: low[i] == Least(rows, reference, i)
  {
    seq(|reference|, i requires 0 <= i < |reference| => Least(rows, reference, i))
  }

  /** The product of the sides. */
  function BoxVolume(low: Vector, high: Vector): real
    requires |low| == |high|
  {
    if low == [] then 1.0
    else BoxVolume(low[..|low| - 1], high[..|low| - 1]) * (high[|low| - 1] - low[|low| - 1])
  }

  // ----- the estimate -----

  function SampleAt(low: Vector, high: Vector, draws: Draws, s: nat): (v: Vector)
    requires |low| == |high|
    ensures |v| == |low|
  {
    seq(|low|, i requires 0 <= i < |low| => low[i] + draws.draw(s, i) * (high[i] - low[i]))
  }

  /** How many of the first `n` samples some row dominates. */
  ghost function Hits(rows: seq<Vector>, low: Vector, high: Vector, draws: Draws, n: nat): (h: nat)
    requires |low| == |high|
    ensures h <= n
  {
    if n == 0 then 0
    else Hits(rows, low, high, draws, n - 1) + if RowIsCovered(rows, SampleAt(low, high, draws, n - 1)) then 1 else 0
  }

  function Share(volume: real, hits: nat, samples: nat): real
    requires samples > 0
  {
    volume * (hits as real / samples as real)
  }

  /** The box's volume, times the share of samples that the rows dominate. */
  ghost predicate IsEstimate(e: real, rows: seq<Vector>, reference: Vector, draws: Draws)
    requires HasWidth(rows, |reference|) && draws.Valid()
  {
    var low := BoxLow(rows, reference);
    e == Share(BoxVolume(low, reference), Hits(rows, low, reference, draws, draws.samples), draws.samples)
  }

  ghost function Estimate(rows: seq<Vector>, reference: Vector, draws: Draws): (e: real)
    requires HasWidth(rows, |reference|) && draws.Valid()
  {
    EstimateExists(rows, reference, draws);
    var e :| IsEstimate(e, rows, reference, draws);
    e
  }

  lemma EstimateExists(rows: seq<Vector>, reference: Vector, draws: Draws)
    requires HasWidth(rows, |reference|) && draws.Valid()
    ensures exists e :: IsEstimate(e, rows, reference, draws)
  {
    var low := BoxLow(rows, reference);
    var e := Share(BoxVolume(low, reference), Hits(rows, low, reference, draws, draws.samples), draws.samples);
    assert IsEstimate(e, rows, reference, draws);
  }

  method CountDominated(dominated: array<bool>, ghost rows: seq<Vector>, ghost low: Vector, ghost high: Vector,
      draws: Draws)
    returns (count: nat)
    requires |low| == |high| && dominated.Length == draws.samples
    requires forall s: nat | s < dominated.Length :: dominated[s] == RowIsCovered(rows, SampleAt(low, high, draws, s))
    ensures count == Hits(rows, low, high, draws, draws.samples)
  {
    count := 0;
    for s := 0 to dominated.Length
      invariant count == Hits(rows, low, high, draws, s)
    {
      if dominated[s] {
        count := count + 1;
      }
    }
  }

  method MarkDominated(dominated: array<bool>, point: Vector, samples: seq<Vector>, ghost before: seq<Vector>)
    requires dominated.Length == |samples|
    requires forall s | 0 <= s < |samples| :: dominated[s] == RowIsCovered(before, samples[s])
    modifies dominated
    ensures forall s | 0 <= s < |samples| :: dominated[s] == RowIsCovered(before + [point], samples[s])
  {
    for s := 0 to |samples|
      invariant forall t | 0 <= t < s :: dominated[t] == RowIsCovered(before + [point], samples[t])
      invariant forall t | s <= t < |samples| :: dominated[t] == RowIsCovered(before, samples[t])
    {
      CoveredByOneMore(before, point, samples[s]);
      if NoWorse(point, samples[s]) {
        dominated[s] := true;
      }
    }
  }

  lemma CoveredByOneMore(rows: seq<Vector>, point: Vector, v: Vector)
    ensures RowIsCovered(rows + [point], v) <==> RowIsCovered(rows, v) || NoWorse(point, v)
  {
    if i :| 0 <= i < |rows| && NoWorse(rows[i], v) { assert (rows + [point])[i] == rows[i]; }
    assert (rows + [point])[|rows|] == point;
  }

  /** The loop over the points marks the samples they dominate. */
  method HypervolumeMonteCarlo(front: seq<Vector>, reference: Vector, draws: Draws) returns (volume: real)
    requires HasWidth(front, |reference|) && draws.Valid()
    ensures volume == Estimate(front, reference, draws)
  {
    var low := BoxLow(front, reference);
    var boxVolume := BoxVolume(low, reference);
    BoxVolumeIsNonNegative(front, reference);
    if boxVolume <= 0.0 {
      return 0.0;
    }
    var samples := seq(draws.samples, s requires 0 <= s < draws.samples => SampleAt(low, reference, draws, s));
    var dominated := new bool[draws.samples](s => false);
    for k := 0 to |front|
      invariant forall s | 0 <= s < |samples| :: dominated[s] == RowIsCovered(front[..k], samples[s])
    {
      MarkDominated(dominated, front[k], samples, front[..k]);
      assert front[..k + 1] == front[..k] + [front[k]];
    }
    assert front[..|front|] == front;
    var count := CountDominated(dominated, front, low, reference, draws);
    volume := Share(boxVolume, count, draws.samples);
  }

  lemma {:induction false} VolumeIsNonNegative(low: Vector, high: Vector)
    requires |low| == |high| && forall i | 0 <= i < |low| :: low[i] <= high[i]
    ensures BoxVolume(low, high) >= 0.0
  {
    if low != [] {
      VolumeIsNonNegative(low[..|low| - 1], high[..|low| - 1]);
    }
  }

  lemma BoxVolumeIsNonNegative(rows: seq<Vector>, reference: Vector)
    requires HasWidth(rows, |reference|)
    ensures BoxVolume(BoxLow(rows, reference), reference) >= 0.0
  {
    forall i | 0 <= i < |reference| ensures BoxLow(rows, reference)[i] <= reference[i] {
      LeastIsReached(rows, reference, i);
    }
    VolumeIsNonNegative(BoxLow(rows, reference), reference);
  }

  // ----- what it depends on -----

  lemma CoverLowers(s: seq<Vector>, t: seq<Vector>, reference: Vector, i: nat)
    requires i < |reference| && HasWidth(s, |reference|) && HasWidth(t, |reference|) && CoversRows(t, s)
    ensures Least(t, reference, i) <= Least(s, reference, i)
  {
    LeastIsReached(s, reference, i);
    LeastIsReached(t, reference, i);
    if k :| 0 <= k < |s| && s[k][i] == Least(s, reference, i) {
      assert RowIsCovered(t, s[k]);
      var l :| 0 <= l < |t| && NoWorse(t[l], s[k]);
      assert Least(t, reference, i) <= t[l][i];
    }
  }

  lemma {:induction false} CoverHits(s: seq<Vector>, t: seq<Vector>, low: Vector, high: Vector, draws: Draws, n: nat)
    requires |low| == |high| && CoversRows(t, s)
    ensures Hits(s, low, high, draws, n) <= Hits(t, low, high, draws, n)
  {
    if n > 0 {
      CoverHits(s, t, low, high, draws, n - 1);
      var sample := SampleAt(low, high, draws, n - 1);
    }
  }

  lemma ShareGrows(volume: real, few: nat, many: nat, samples: nat)
    requires volume >= 0.0 && few <= many <= samples && samples > 0
    ensures Share(volume, few, samples) <= Share(volume, many, samples) <= volume
  {
    assert few as real / samples as real <= many as real / samples as real <= 1.0;
  }

  /** While the box stays the same, better rows never lower the estimate, and it never exceeds the box. */
  lemma EstimateGrowsInItsBox(s: seq<Vector>, t: seq<Vector>, reference: Vector, draws: Draws)
    requires HasWidth(s, |reference|) && HasWidth(t, |reference|) && draws.Valid()
    requires CoversRows(t, s) && BoxLow(s, reference) == BoxLow(t, reference)
    ensures Estimate(s, reference, draws) <= Estimate(t, reference, draws)
      <= BoxVolume(BoxLow(s, reference), reference)
  {
    var low := BoxLow(s, reference);
    BoxVolumeIsNonNegative(s, reference);
    CoverHits(s, t, low, reference, draws, draws.samples);
    ShareGrows(BoxVolume(low, reference), Hits(s, low, reference, draws, draws.samples),
               Hits(t, low, reference, draws, draws.samples), draws.samples);
  }

  lemma SameBox(s: seq<Vector>, t: seq<Vector>, reference: Vector)
    requires HasWidth(s, |reference|) && HasWidth(t, |reference|) && CoversRows(s, t) && CoversRows(t, s)
    ensures BoxLow(s, reference) == BoxLow(t, reference)
  {
    forall i | 0 <= i < |reference| ensures Least(s, reference, i) == Least(t, reference, i) {
      CoverLowers(s, t, reference, i);
      CoverLowers(t, s, reference, i);
    }
  }

  /** Rows that cover each other have the same estimate. */
  lemma MutualCoverSameEstimate(s: seq<Vector>, t: seq<Vector>, reference: Vector, draws: Draws)
    requires HasWidth(s, |reference|) && HasWidth(t, |reference|) && draws.Valid()
    requires CoversRows(s, t) && CoversRows(t, s)
    ensures Estimate(s, reference, draws) == Estimate(t, reference, draws)
  {
    SameBox(s, t, reference);
    EstimateGrowsInItsBox(s, t, reference, draws);
    EstimateGrowsInItsBox(t, s, reference, draws);
  }

  lemma VolumeOfThree(low: Vector, high: Vector)
    requires |low| == |high| == 3
    ensures BoxVolume(low, high) == (high[0] - low[0]) * (high[1] - low[1]) * (high[2] - low[2])
  {
    assert low[..2][..1] == low[..1] && high[..2][..1] == high[..1];
    assert low[..1][..0] == [] && high[..1][..0] == [];
    assert BoxVolume(low[..1], high[..1]) == high[0] - low[0];
  }

  lemma OneSample(rows: seq<Vector>, reference: Vector, draws: Draws, low: Vector, sample: Vector, volume: real)
    requires HasWidth(rows, |reference|) && draws.Valid() && draws.samples == 1
    requires low == BoxLow(rows, reference) && volume == BoxVolume(low, reference)
    requires sample == SampleAt(low, reference, draws, 0)
    ensures Estimate(rows, reference, draws) == if RowIsCovered(rows, sample) then volume else 0.0
  {
    assert Hits(rows, low, reference, draws, 1) == if RowIsCovered(rows, sample) then 1 else 0;
  }

  /** A better row stretches the box, and then the estimate can fall: here from 1 to 0. */
  lemma EstimateCanFall(reference: Vector, row: Vector, better: Vector, draws: Draws)
    requires reference == [1.0, 1.0, 1.0] && row == [0.0, 0.0, 0.0] && better == [-1.0, 0.5, 0.5]
    requires draws == Draws(1, (s: nat, i: nat) => 0.25)
    ensures Estimate([row], reference, draws) == 1.0 && Estimate([row, better], reference, draws) == 0.0
  {
    var low, wide := [0.0, 0.0, 0.0], [-1.0, 0.0, 0.0];
    assert [row, better][..1] == [row];
    forall i: nat | i < 3 ensures Least([row], reference, i) == 0.0 && Least([row, better], reference, i) == wide[i] {
      assert Least([], reference, i) == 1.0;
    }
    var near, far := [0.25, 0.25, 0.25], [-0.5, 0.25, 0.25];
    VolumeOfThree(low, reference);
    VolumeOfThree(wide, reference);
    OneSample([row], reference, draws, low, near, 1.0);
    OneSample([row, better], reference, draws, wide, far, 2.0);
    assert NoWorse([row][0], near);
    assert !NoWorse(row, far) by { assert row[0] > far[0]; }
    assert !NoWorse(better, far) by { assert better[1] > far[1]; }
  }
}
