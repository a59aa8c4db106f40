/** `services/optimizer/benchmarks/harness.py`: the budgeted benchmark loop. */
module Harness {
  import opened Common
  import opened Dominance
  import opened Pareto
  import opened DominatedArea
  import opened Metrics
  import opened Sampling
  import opened Distances

  type Params = map<string, real>

  datatype Record = Record(iteration: nat, evaluations: nat, figure: Figure, distance: Option<real>, frontSize: nat)

  /** A run's problem and backend: `propose(k, n)` is what the backend answers in iteration
      `k` when asked for `n` points, `evaluate` clips and evaluates one of them, and `gap` is the
      distance between two rows. */
  datatype Setup = Setup(budget: nat, batchSize: nat, reference: Vector, truth: seq<Vector>,
                         propose: (nat, nat) -> seq<Params>, evaluate: Params -> Vector,
                         gap: Gap, draws: Draws) {
    ghost predicate Valid() {
      && budget > 0 && batchSize > 0 && |reference| >= 2 && draws.Valid()
      && forall p :: |evaluate(p)| == |reference|
    }

    /** The batch size, or what remains of the budget if that is less. */
    function BatchAt(used: nat): (n: nat)
      requires used <= budget
      ensures used + n <= budget && n <= batchSize && (used + n == budget || n == batchSize)
    {
      if batchSize < budget - used then batchSize else budget - used
    }

    /** The points evaluated in iteration `k` when `used` evaluations are spent. */
    function Proposals(k: nat, used: nat): (r: seq<Params>)
      requires used <= budget
      ensures r <= propose(k, BatchAt(used)) && |r| <= BatchAt(used)
      ensures r == propose(k, BatchAt(used)) || |r| == BatchAt(used)
    {
      var all := propose(k, BatchAt(used));
      if |all| <= BatchAt(used) then all else all[..BatchAt(used)]
    }

    function Evaluate(proposals: seq<Params>): (r: seq<Vector>)
      ensures |r| == |proposals| && forall i | 0 <= i < |r| :: r[i] == evaluate(proposals[i])
    {
      seq(|proposals|, i requires 0 <= i < |proposals| => evaluate(proposals[i]))
    }

    /** The archive after `k` iterations. */
    ghost function ArchiveAfter(k: nat): (r: seq<Vector>)
      ensures |r| <= budget
    {
      if k == 0 then []
      else
        var before := ArchiveAfter(k - 1);
        before + Evaluate(Proposals(k - 1, |before|))
    }

    lemma {:induction false} ArchiveGrows(j: nat, k: nat)
      requires j <= k
      ensures ArchiveAfter(j) <= ArchiveAfter(k)
      decreases k
    {
      if j < k {
        ArchiveGrows(j, k - 1);
      }
    }

    lemma {:induction false} ArchiveHasWidth(k: nat)
      requires Valid()
      ensures HasWidth(ArchiveAfter(k), |reference|)
    {
      if k > 0 { ArchiveHasWidth(k - 1); }
    }
  }

  /** The area the first `k` batches dominate, on a two-objective problem. */
  ghost function AreaAfter(setup: Setup, k: nat): real
    requires setup.Valid() && |setup.reference| == 2
  {
    setup.ArchiveHasWidth(k);
    Area(AsPoints(setup.ArchiveAfter(k)), AsPoint(setup.reference))
  }

  /** `figure` is that of the whole archive after `k` iterations. */
  ghost predicate FigureAfter(setup: Setup, figure: Figure, k: nat)
    requires setup.Valid()
  {
    setup.ArchiveHasWidth(k);
    IsFigureOf(figure, setup.ArchiveAfter(k), setup.reference, setup.draws)
  }

  /** What record `k` must say of the archive after iteration `k + 1`. */
  ghost predicate RecordsArchive(setup: Setup, r: Record, k: nat)
    requires setup.Valid()
  {
    && r.iteration == k + 1
    && r.evaluations == |setup.ArchiveAfter(k + 1)|
    && FigureAfter(setup, r.figure, k + 1)
  }

  ghost predicate RecordsFront(setup: Setup, r: Record, k: nat) {
    var front := Front(setup.ArchiveAfter(k + 1));
    r.frontSize == |front| && r.distance == Distance(setup.truth, front, setup.gap)
  }

  ghost predicate RecordsRound(setup: Setup, r: Record, k: nat)
    requires setup.Valid()
  {
    RecordsArchive(setup, r, k) && RecordsFront(setup, r, k)
  }

  /** Every record describes the archive as it stood when the record was made. */
  ghost predicate RecordsRun(setup: Setup, history: seq<Record>)
    requires setup.Valid()
  {
    forall k | 0 <= k < |history| :: RecordsRound(setup, history[k], k)
  }

  lemma RecordsRunStep(setup: Setup, history: seq<Record>, record: Record)
    requires setup.Valid() && RecordsRun(setup, history)
    requires RecordsRound(setup, record, |history|)
    ensures RecordsRun(setup, history + [record])
  {
    forall k | 0 <= k < |history| + 1 ensures RecordsRound(setup, (history + [record])[k], k) {
      if k < |history| { assert RecordsRound(setup, history[k], k); }
    }
  }

  method Measure(rows: seq<Vector>, reference: Vector, draws: Draws) returns (front: seq<Vector>, figure: Figure)
    requires HasWidth(rows, |reference|) && |reference| >= 2 && draws.Valid()
    ensures front == Front(rows)
    ensures IsFigureOf(figure, rows, reference, draws)
  {
    front := NonDominated(rows);
    FrontIsInside(rows, reference);
    figure := Hypervolume(front, reference, draws);
    FigureOfFront(figure, rows, reference, draws);
  }

  method Judge(setup: Setup, ghost k: nat, archive: seq<Vector>)
    returns (front: seq<Vector>, figure: Figure, distance: Option<real>)
    requires setup.Valid() && archive == setup.ArchiveAfter(k)
    ensures front == Front(archive) && distance == Distance(setup.truth, front, setup.gap)
    ensures FigureAfter(setup, figure, k)
  {
    setup.ArchiveHasWidth(k);
    front, figure := Measure(archive, setup.reference, setup.draws);
    distance := Distance(setup.truth, front, setup.gap);
  }

  /** One batch: evaluate, archive, measure the archive so far. */
  method RunIteration(setup: Setup, k: nat, archive0: seq<Vector>, proposals: seq<Params>)
    returns (archive: seq<Vector>, record: Record)
    requires setup.Valid() && archive0 == setup.ArchiveAfter(k) && proposals == setup.Proposals(k, |archive0|)
    ensures archive == setup.ArchiveAfter(k + 1) && |archive| == |archive0| + |proposals|
    ensures RecordsRound(setup, record, k)
  {
    archive := archive0 + setup.Evaluate(proposals);
    var front, figure, distance := Judge(setup, k + 1, archive);
    record := Record(k + 1, |archive|, figure, distance, |front|);
  }

  method Round(setup: Setup, archive0: seq<Vector>, history0: seq<Record>, proposals: seq<Params>)
    returns (archive: seq<Vector>, history: seq<Record>)
    requires setup.Valid() && RecordsRun(setup, history0) && archive0 == setup.ArchiveAfter(|history0|)
    requires proposals == setup.Proposals(|history0|, |archive0|)
    ensures |history| == |history0| + 1 && RecordsRun(setup, history)
    ensures archive == setup.ArchiveAfter(|history|) && |archive| == |archive0| + |proposals|
  {
    var record;
    archive, record := RunIteration(setup, |history0|, archive0, proposals);
    RecordsRunStep(setup, history0, record);
    history := history0 + [record];
  }

  /** The run stops within its budget, and short of it only if the backend proposed nothing.
      The recorded hypervolume is that of the whole archive so far. */
  method RunBenchmark(setup: Setup)
    returns (archive: seq<Vector>, history: seq<Record>, front: seq<Vector>, figure: Figure, distance: Option<real>)
    requires setup.Valid()
    ensures archive == setup.ArchiveAfter(|history|) && |archive| <= setup.budget
    ensures |archive| < setup.budget ==> setup.Proposals(|history|, |archive|) == []
    ensures |history| <= setup.budget
    ensures RecordsRun(setup, history)
    ensures front == Front(archive) && distance == Distance(setup.truth, front, setup.gap)
    ensures FigureAfter(setup, figure, |history|)
  {
    archive, history := [], [];
    while |archive| < setup.budget
      invariant archive == setup.ArchiveAfter(|history|)
      invariant |history| <= |archive| <= setup.budget
      invariant RecordsRun(setup, history)
      decreases setup.budget - |archive|
    {
      var proposals := setup.Proposals(|history|, |archive|);
      if proposals == [] {
        break;
      }
      archive, history := Round(setup, archive, history, proposals);
    }
    front, figure, distance := Judge(setup, |history|, archive);
  }

  lemma AreaOfPrefix(a: seq<Vector>, b: seq<Vector>, reference: Point)
    requires HasWidth(b, 2) && a <= b
    ensures HasWidth(a, 2) && Area(AsPoints(a), reference) <= Area(AsPoints(b), reference)
  {
    assert AsPoints(b) == AsPoints(a) + AsPoints(b[|a|..]);
    AreaIsMonotone(AsPoints(a), AsPoints(b[|a|..]), reference);
  }

  lemma AreaAfterGrows(setup: Setup, j: nat, k: nat)
    requires setup.Valid() && |setup.reference| == 2 && j <= k
    ensures AreaAfter(setup, j) <= AreaAfter(setup, k)
    ensures |setup.ArchiveAfter(j)| <= |setup.ArchiveAfter(k)|
  {
    setup.ArchiveGrows(j, k);
    setup.ArchiveHasWidth(k);
    AreaOfPrefix(setup.ArchiveAfter(j), setup.ArchiveAfter(k), AsPoint(setup.reference));
  }

  /** On two-objective problems the recorded hypervolume never decreases, and the number of
      evaluations never does either. */
  lemma HistoryIsMonotone(setup: Setup, history: seq<Record>, j: nat, k: nat)
    requires setup.Valid() && |setup.reference| == 2
    requires RecordsRun(setup, history) && j <= k < |history|
    ensures Volume(history[j].figure) <= Volume(history[k].figure)
    ensures history[j].evaluations <= history[k].evaluations <= setup.budget
  {
    AreaAfterGrows(setup, j + 1, k + 1);
  }

  lemma ArchivesAreCovered(setup: Setup, j: nat, k: nat)
    requires setup.Valid() && j <= k
    ensures HasWidth(setup.ArchiveAfter(j), |setup.reference|) && HasWidth(setup.ArchiveAfter(k), |setup.reference|)
    ensures CoversRows(setup.ArchiveAfter(k), setup.ArchiveAfter(j))
  {
    setup.ArchiveGrows(j, k);
    setup.ArchiveHasWidth(j);
    setup.ArchiveHasWidth(k);
  }

  /** The lower corner of the box. */
  ghost function BoxAfter(setup: Setup, k: nat): Vector
    requires setup.Valid()
  {
    setup.ArchiveHasWidth(k);
    BoxOf(setup.ArchiveAfter(k), setup.reference)
  }

  lemma FiguresGrowInTheirBox(setup: Setup, f: Figure, g: Figure, j: nat, k: nat)
    requires setup.Valid() && j <= k && FigureAfter(setup, f, j) && FigureAfter(setup, g, k)
    requires f.MonteCarlo? && BoxAfter(setup, j) == BoxAfter(setup, k)
    ensures g.MonteCarlo? && f.volume <= g.volume
  {
    ArchivesAreCovered(setup, j, k);
    FigureGrowsInItsBox(f, g, setup.ArchiveAfter(j), setup.ArchiveAfter(k), setup.reference, setup.draws);
  }

  /** On more objectives a recorded estimate can fall (`Sampling.EstimateCanFall`), but not while the
      box that the samples are drawn from stays the same. */
  lemma SampledHistoryIsMonotone(setup: Setup, history: seq<Record>, j: nat, k: nat)
    requires setup.Valid() && RecordsRun(setup, history) && j <= k < |history|
    requires history[j].figure.MonteCarlo? && BoxAfter(setup, j + 1) == BoxAfter(setup, k + 1)
    ensures history[k].figure.MonteCarlo? && history[j].figure.volume <= history[k].figure.volume
  {
    FiguresGrowInTheirBox(setup, history[j].figure, history[k].figure, j + 1, k + 1);
  }

  /** If the backend always fills its batch, the budget is spent exactly. */
  lemma FullBatchesSpendTheBudget(setup: Setup, archive: seq<Vector>, k: nat)
    requires setup.Valid() && archive == setup.ArchiveAfter(k)
    requires forall i, n :: |setup.propose(i, n)| >= n
    requires |archive| < setup.budget ==> setup.Proposals(k, |archive|) == []
    ensures |archive| == setup.budget
  {
    assert |setup.propose(k, setup.BatchAt(|archive|))| >= setup.BatchAt(|archive|);
  }
}
