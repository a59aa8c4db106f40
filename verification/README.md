# A verified model of the optimisation engine and the code around it

This project models, in Dafny, the deterministic core of a decision-support platform: its
multi-objective optimiser and the figures it is judged by, a grid simulation, the samplers that
feed them, the books that optimiser, evidence store and run records keep, and the judge's scoring.
Every main result holds for all inputs, all runs or all interleavings.

Random draws are a tape that may hold anything, so what is proved of a run holds for every seed.
Powers, trigonometric functions, `strip`, unit tables and backends are parameters of which only the
stated laws are used. Floating-point numbers are exact reals, indices are exact integers, and a
Python dictionary whose order matters is the list of its entries in insertion order.

`dafny verify dfyconfig.toml` checks the whole project.

## How it is organised

- `Ranking`, `Dominance`: dominance as a table of dominators; chains, ranks and fronts.
- `Pareto`, `Nsga`, `Activities`: the three implementations of the non-dominated set - a shrinking
  mask, NSGA-II's counting sort, the workflow's frontier activity - and their agreement.
- `DominatedArea`, `Sampling`, `Metrics`: the area of a union of boxes by inclusion and exclusion, its
  meaning as a count of unit cells, the left-to-right sweep that computes it, and the sampled
  estimate for other numbers of objectives.
- `Distances`: the mean distance of the true front from the rows found.
- `Orderings`, `Crowding`, `Selection`, `Variation`, `RandomState`, `Evolution`, `Harness`: crowding
  distances, parent selection, crossover and mutation, the optimiser object and the benchmark loop.
- `Sums`, `GridStep`, `Diffusion`: finite sums, the diffusion step on values and what it does to a
  grid's total; balance, maximum principle and runs, and the loops over arrays.
- `Simplex`, `Dtlz`, `DtlzSphere`: the simplex sampler, the DTLZ objectives it provides fronts for,
  and the normalised samples of the spherical ones.
- `Gathering`, `Claims`, `Consistency`, `ClaimStore`, `ClaimIndex`, `ClaimDatabase`: order-free
  totals over pairs, pair checks, what a pass finds and a query draws, the verifier, the dictionary
  of claims with its indexes, the database.
- `Bandit`, `Stopping`, `Optimizer`: the two budget ledgers, the stop rules and the object that
  drives them.
- `Common`, `Arithmetic`: the vocabulary and the real arithmetic the other modules share.
- `RunSpec`: the writers of a run's stored specification, in any interleaving.
- `Chunking`: sliding windows and greedy packing.
- `Scenarios`: Latin hypercube and the other scenario generators.
- `KnotSearch`, `Thresholds`, `Scoring`, `ScoreLaws`: the interpolating search, scores by levels and
  between them, the judge's final score and what it depends on.

Code that works by updating objects, arrays or loop variables is imperative here too: classes with
`modifies` clauses, arrays and loops, each method proved against a function or predicate about which
the lemmas then speak.

## Where the code and its promises part

- `initialize_population` keeps a frontier recorded earlier although the new population is
  unevaluated: the stored frontier is right afterwards exactly if it was empty. The next `observe`
  repairs it.
- `_simplex_weights` announces a trimmed grid but returns the whole one
  (`Simplex.SampleSizeIsTheRequest`).
- A sliding window can be asked for sizes with which it never ends; the exact range is
  `Chunking.EndsOnEveryText`, and the defaults can lead out of it
  (`Chunking.RequestedEndsOnEveryText`).
- The last window can lie wholly inside the one before it, exactly if some window's end lies behind
  the text by less than the overlap (`Chunking.SuperfluousIfEndIsClose`). So a text that one chunk
  would hold becomes two if it is longer than the chunk size less the overlap
  (`Chunking.ShortTextIsChunkedTwice`).
- Adding a new claim under an id that is already used leaves lists and conflicts out of step exactly
  if a recorded conflict mentions that id (`ClaimDatabase.FreshFits`), and always breaks the indexes.
- A consistency query draws conflict ids that are never recorded. The recorded ids of the next pass
  then start behind a gap exactly if two claims on one subject from different documents have
  something against each other (`ClaimDatabase.QueryAndVerify`, with `Consistency.OneClash` for an
  input).
- Verifying again records again whatever is found: `k` passes over unchanged claims record `k` copies
  and lower every confidence `k` times (`ClaimDatabase.PassesRepeat`, `ClaimDatabase.PassesWearDown`).
  A pass changes nothing exactly if it finds nothing (`ClaimDatabase.PassChangesIfItFinds`).
- On two objectives the hypervolume in a run's history never falls. The sampled estimate for others
  can (`Sampling.EstimateCanFall`), though not while the sampled box stays the same.
- The distance from the true front is no such measure at all: a better archive can lie further away
  (`Distances.DistanceCanRise`).
- An integer range with ends that round outwards lets coerced values leave it
  (`Scenarios.CoercedIsAllowedIfSound`).
- A stale save can overwrite an empty progress field and drops the narrative
  (`RunSpec.WrittenSurvivesIfFilled`, `RunSpec.NarrativeSurvivesIfSaved`).
- The judge's uncertainty penalty is relative to the value, so with uncertainties a better metric
  can score less (`Scoring.UncertaintyCanPunishImprovement`). When one metric moves within its level,
  the score is neither nothing nor clipped and, where parts are weighted, both values lie on one side
  of the 1e-10 cut-off, it does exactly if the metric becomes relatively more uncertain
  (`Scoring.ScoreFollowsUncertainty`).
- Nothing checks the order of a threshold's bounds. Where lower is better, the interpolated score of a
  better value can be lower if they are out of order (`Thresholds.MisplacedBoundFalls`), and exactly
  then (`Thresholds.SmoothIsMonotoneIfInOrder`).
- After a second evaluation at the same parameters the frontier is listed with the candidate, and so
  the objectives, of the first one. The listed objectives are the frontier's own exactly if, wherever
  the latest evaluation of some parameters is beaten by no other's latest, the first evaluation there
  had the same outcome (`Optimizer.CarriedIfFirstIsLatest`).
- The Latin hypercube's share of a scenario budget is a third, not the 30% its comment gives.

## Model

| member | source | states |
|---|---|---|
| Nsga.Dominates | services/optimizer/evolutionary.py:68-90 | the comparison answers yes exactly if no objective is looked up as worse and some is better, larger being better where the goal maximises and smaller where it minimises; a missing objective counts 0 |
| Nsga.Tally | services/optimizer/evolutionary.py:97-115 | the double loop leaves each evaluated individual with the number of its dominators and with the duplicate-free list of those it dominates |
| Nsga.PeelFront | services/optimizer/evolutionary.py:120-128 | one peeling round turns counts of dominators inside a level into counts inside the next level and collects exactly the freed members |
| Nsga.NonDominatedSort | services/optimizer/evolutionary.py:92-131 | the counting sort terminates and front `k` lists, once each, exactly the individuals whose longest chain of dominators has length `k`; front 0 is, in index order, those that are evaluated and that no evaluated individual outdoes in the declared directions |
| Nsga.LayerIsChains | services/optimizer/evolutionary.py:117-129 | an individual survives `k` peeling rounds if and only if a chain of `k` dominators leads down to it |
| Ranking.RankIsUnique | services/optimizer/evolutionary.py:92-131 | no individual has two ranks |
| Ranking.FrontsAreDisjoint | services/optimizer/evolutionary.py:92-131 | no index stands twice, in two fronts or in one |
| Ranking.FrontIsAntichain | services/optimizer/evolutionary.py:92-131 | members of one front do not dominate each other |
| Ranking.FrontIsCovered | services/optimizer/evolutionary.py:92-131 | each member of front `k + 1` is dominated by a member of front `k` |
| Ranking.DominatorIsEarlier | services/optimizer/evolutionary.py:92-131 | a dominator sits in a strictly earlier front |
| Ranking.RankingIsUnique | services/optimizer/evolutionary.py:92-131 | two lists of fronts that meet the specification have the same members front by front |
| Ranking.FrontZeroIsUndominated | services/optimizer/evolutionary.py:117-131 | front 0 of any ranking holds exactly the individuals nobody dominates |
| Ranking.UndominatedCovers | services/optimizer/evolutionary.py:117-131 | every dominated point has an undominated dominator |
| Pareto.NonDominated | services/optimizer/benchmarks/metrics.py:36-56 | the shrinking-mask filter returns exactly the declaratively non-dominated rows, in order |
| Pareto.KeptRowsSuffice | services/optimizer/benchmarks/metrics.py:46-54 | comparing a row only with the rows still kept gives the same verdict as comparing it with all rows |
| Pareto.FrontCovers | services/optimizer/benchmarks/metrics.py:36-56 | a row is kept if and only if no row dominates it, and every dropped row is dominated by a kept one |
| Pareto.FrontIsIdempotent | services/optimizer/benchmarks/metrics.py:36-56 | filtering twice is filtering once |
| Activities.GetParetoFrontier | services/orchestrator/activities/optimization.py:187-246 | the frontier activity returns, in order, the scored and fully reported points that no other such point dominates; no looked-up metric is missing |
| Activities.RunAll | services/orchestrator/activities/optimization.py:187-246 | run on the same points with any mix of minimised and maximised metrics, the activity, front 0 of the counting sort and the mask filter, each given the directions its own way, keep the same positions |
| Activities.ImplementationsAgree | services/orchestrator/activities/optimization.py:221-246 | for any mix of directions the three implementations decide on one and the same table of dominators |
| DominatedArea.AreaCountsCells | services/optimizer/benchmarks/metrics.py:59-69 | on integer points the inclusion-exclusion area of the union of boxes is the number of unit cells |
| DominatedArea.CellsAreDominated | services/optimizer/benchmarks/metrics.py:59-69 | those cells are exactly the ones below the reference that at least one point dominates |
| DominatedArea.MeasurePermutes | services/optimizer/benchmarks/metrics.py:59-69 | the area does not depend on the order of the points |
| DominatedArea.MeasureOfSweepStep | services/optimizer/benchmarks/metrics.py:64-68 | a point that lies to the right of all others adds its box less the part under the lowest one so far |
| DominatedArea.AreaIsMonotone | services/optimizer/benchmarks/metrics.py:104-129 | more points never take area away |
| Metrics.Hypervolume2d | services/optimizer/benchmarks/metrics.py:59-69 | the sweep computes the area of the union of boxes for any points inside the reference, dominated ones and ties in any order allowed |
| Metrics.AreaOfFront | services/optimizer/benchmarks/metrics.py:116-129 | filtering to the non-dominated rows first does not change the area |
| Metrics.AreaOfInside | services/optimizer/benchmarks/metrics.py:121-124 | dropping the rows that the reference does not strictly dominate does not change the area |
| Metrics.Hypervolume | services/optimizer/benchmarks/metrics.py:104-133 | with two objectives the figure is the area dominated by all the points given, otherwise the estimate for all of them that lie inside the reference; it is empty exactly if none does |
| Metrics.FigureOfFront | services/optimizer/benchmarks/harness.py:165-166 | the figure of the non-dominated rows is that of all rows, sampled or not |
| Sampling.HypervolumeMonteCarlo | services/optimizer/benchmarks/metrics.py:72-101 | marking the samples point by point yields the box's volume times the share of samples that some point dominates |
| Sampling.MutualCoverSameEstimate | services/optimizer/benchmarks/metrics.py:90-101 | point sets that dominate each other's points have the same box and the same estimate |
| Sampling.EstimateGrowsInItsBox | services/optimizer/benchmarks/metrics.py:90-101 | with the same draws better points never lower the estimate while the box stays the same, and it never exceeds the box |
| Sampling.EstimateCanFall | services/optimizer/benchmarks/metrics.py:88-101 | a further point that stretches the box takes an estimate from 1 to 0 |
| Crowding.CrowdingDistance | services/optimizer/evolutionary.py:133-172 | fronts of one or two are all infinite; on larger ones each distance is the sum of the gaps objective by objective, finite ones lie between 0 and the number of objectives and sum to at most twice that number |
| Crowding.EndsAreInfinite | services/optimizer/evolutionary.py:152-154 | the first and the last of any objective stay infinite whatever the other objectives do |
| Crowding.GapsTelescope | services/optimizer/evolutionary.py:163-170 | neighbour gaps telescope to the two largest values less the two smallest ones |
| Crowding.CrowdBound | services/optimizer/evolutionary.py:157-170 | a finite crowding distance lies between 0 and the number of objectives |
| Selection.SelectParents | services/optimizer/evolutionary.py:300-313 | parents are taken best front first and, inside a front, by descending crowding distance, until there are enough or none is left |
| Selection.NobodyBetterIsLeft | services/optimizer/evolutionary.py:300-313 | who is passed over or taken later sits in a worse front, or in the same one at no larger a crowding distance |
| Selection.ChoiceIsUpwardClosed | services/optimizer/evolutionary.py:300-313 | whoever dominates a chosen parent is chosen too |
| Variation.MutationSweeps | services/optimizer/evolutionary.py:227-242 | mutation is monotone in its draw and sweeps the whole range: draw 0 gives the lower bound, one half the old value and 1 the upper bound, for any power function that is monotone and has roots |
| Variation.ChildrenSpread | services/optimizer/evolutionary.py:196-206 | crossover spreads the children evenly about the midpoint: between the parents for draws up to 1/alpha, outside them for the others |
| Variation.CrossoverSweeps | services/optimizer/evolutionary.py:190-206 | as the draw rises the children move apart from the midpoint: at 0 both are the midpoint, at 1/alpha they are the parents, and at 1 the lower child is the lower bound |
| Variation.ChildrenLieAround | services/optimizer/evolutionary.py:182-211 | parents that are close or not drawn for crossover are copied; else the children lie between the parents and keep their sum for draws up to 1/alpha, and on both sides of them for the others |
| Evolution.EvolutionaryOptimizer.SbxCrossover | services/optimizer/evolutionary.py:174-213 | the children stay in the box, and each parameter of both is the crossover of the parents' values with exactly the draws that follow on the tape, in the order of the parameters |
| Evolution.EvolutionaryOptimizer.CrossoverDraws | services/optimizer/evolutionary.py:182-211 | a parameter takes one draw, and a second one only if its values are crossed over, which equal values never are |
| Evolution.EvolutionaryOptimizer.PolynomialMutation | services/optimizer/evolutionary.py:215-245 | the mutant stays in the box; for each parameter in turn the next draw decides whether it is kept, and only if not the draw behind it says how it is mutated |
| Evolution.EvolutionaryOptimizer.MutationDraws | services/optimizer/evolutionary.py:220-245 | a parameter takes one draw, and a second one only if it is mutated: never at rate 0, always at rate 1 |
| Evolution.EvolutionaryOptimizer.RandomIndividual | services/optimizer/evolutionary.py:61-66 | a random individual lies in the box, each parameter being the next draw stretched over its bounds |
| Evolution.EvolutionaryOptimizer.InitializePopulation | services/optimizer/evolutionary.py:247-253 | the new population lies in the box, is drawn from the tape one individual after the other and is unevaluated; the stored frontier is right afterwards exactly if it was empty |
| Evolution.EvolutionaryOptimizer.Observe | services/optimizer/evolutionary.py:255-271 | the first match within 1e-10 is replaced, else the observation is added; afterwards the stored frontier is exactly the non-dominated subset of the evaluated individuals, even if it was stale |
| Evolution.EvolutionaryOptimizer.UpdateParetoFrontier | services/optimizer/evolutionary.py:273-281 | rebuilds the exact frontier, unless nothing is evaluated |
| Evolution.EvolutionaryOptimizer.Evolve | services/optimizer/evolutionary.py:283-339 | box and exact frontier are kept, nothing evaluated changes; with at least four evaluated individuals an even number of offspring joins the population unevaluated, pair by pair: two draws pick the parents the ranking selects, the third decides whether they are crossed over (below the crossover rate) or copied, and the following ones mutate both |
| Evolution.EvolutionaryOptimizer.AlwaysCrossed | services/optimizer/evolutionary.py:323-325 | at crossover rate 1 and mutation rate 0 every pair is the crossover of the parents drawn, whatever the draws |
| Evolution.EvolutionaryOptimizer.NeverCrossed | services/optimizer/evolutionary.py:323-327 | at crossover rate 0 and mutation rate 0 every pair is a copy of the parents drawn, whatever the draws |
| Evolution.MatchingIsClose | services/optimizer/evolutionary.py:261-263 | parameters match exactly if all differ by less than 1e-10 either way, a missing one counting 0; a pair just inside matches and one just outside does not |
| Evolution.FrontierMeaning | services/optimizer/evolutionary.py:273-281 | an individual is on the frontier if and only if it is evaluated and no evaluated individual is nowhere worse and somewhere better in the declared directions |
| Harness.RunBenchmark | services/optimizer/benchmarks/harness.py:120-200 | the run ends, never evaluates beyond its budget and stops short of it only if the backend proposed nothing; every record gives the figures of the archive of its moment, the mean distance from the true front included, and the final ones are those of the whole archive |
| Distances.Nearest | services/optimizer/benchmarks/metrics.py:136-139 | the distance to the nearest row is attained by some row and exceeded by none |
| Distances.DistanceIsMean | services/optimizer/benchmarks/metrics.py:142-157 | with one true row more, the total of the distances grows by that row's distance to its nearest found row |
| Distances.MoreRowsAreNoFurther | services/optimizer/benchmarks/metrics.py:142-157 | with more rows found the true front is no further away |
| Distances.NoDistanceIfAllFound | services/optimizer/benchmarks/metrics.py:142-157 | the distance is never negative, and nothing exactly if every true row is found |
| Distances.DistanceCanRise | services/optimizer/benchmarks/harness.py:160-172 | between archives it can rise: a row that dominates the only one found takes its place, and the distance becomes its own |
| Harness.SampledHistoryIsMonotone | services/optimizer/benchmarks/harness.py:145-181 | a recorded estimate never falls between archives with the same box |
| Harness.HistoryIsMonotone | services/optimizer/benchmarks/harness.py:145-181 | on two objectives the recorded hypervolume and the evaluation count never decrease |
| Harness.FullBatchesSpendTheBudget | services/optimizer/benchmarks/harness.py:145-156 | a backend that always fills its batch spends the budget exactly |
| Diffusion.DiffusionStep | compute/domain_packs/spatial_pack/pack.py:117-162 | the double loop computes, for every cell, the clamped-neighbour stencil with upwind advection, decay and noise, clipped at zero |
| GridStep.LaplacianSumsToZero | compute/domain_packs/spatial_pack/pack.py:130-138 | the clamped-neighbour Laplacian sums to zero over the grid |
| Diffusion.MassBalance | compute/domain_packs/spatial_pack/pack.py:117-162 | for every wind the new total is the decayed old one, less each wind strength times the difference between the sums of two opposite edges, plus the noise drawn, plus what clipping added |
| Diffusion.Conservation | compute/domain_packs/spatial_pack/pack.py:117-162 | without wind and noise, on a non-negative grid with 4 diffusion + decay at most 1, a step multiplies the total by exactly 1 - decay |
| Diffusion.MaximumPrinciple | compute/domain_packs/spatial_pack/pack.py:129-160 | with 4 diffusion + decay + wind strengths at most 1 and no noise, every new cell lies between (1 - decay) times the old bounds |
| Diffusion.StepIsMonotone | compute/domain_packs/spatial_pack/pack.py:129-160 | such a step preserves pointwise order between grids, boundary, wind and equal noise included |
| Diffusion.RunConserves | compute/domain_packs/spatial_pack/pack.py:221-223 | over `t` steps the total is (1 - decay)^t times the initial one |
| Diffusion.RunStaysBetween | compute/domain_packs/spatial_pack/pack.py:221-223 | over `t` steps the bounds shrink by (1 - decay)^t |
| Diffusion.RunIsMonotone | compute/domain_packs/spatial_pack/pack.py:221-223 | runs with the same noise keep the order of the grids they start from |
| Diffusion.InitializeGrid | compute/domain_packs/spatial_pack/pack.py:97-115 | each cell holds the contributions of exactly the sources on the grid that lie within three radii of it |
| Diffusion.OneSourceDeposits | compute/domain_packs/spatial_pack/pack.py:105-113 | a source deposits its intensity times the bell at the cell's distance, and nothing if it is off the grid or the cell further away than three radii |
| Diffusion.DepositIsSymmetric | compute/domain_packs/spatial_pack/pack.py:110-113 | cells equally far from a source get the same from it |
| Diffusion.DepositsAdd | compute/domain_packs/spatial_pack/pack.py:105-113 | what two groups of sources deposit adds up |
| Diffusion.DepositsScale | compute/domain_packs/spatial_pack/pack.py:112-113 | multiplying all intensities multiplies every cell |
| Diffusion.Simulate | compute/domain_packs/spatial_pack/pack.py:207-231 | the final grid is that of `steps` iterated steps, and every tenth step is recorded, after it is taken, with the grid's maximum and mean |
| Diffusion.RecordedFigures | compute/domain_packs/spatial_pack/pack.py:220-231 | without wind and noise a recorded mean is exactly (1 - decay)^t times the initial one, and a recorded maximum at most that share of the initial one |
| Simplex.SimplexWeights | services/optimizer/benchmarks/problems.py:239-264 | the search ends at the least positive number of divisions that gives enough points, and the recursion lists the whole grid; two objectives get evenly spaced pairs |
| Simplex.Sampler.Recurse | services/optimizer/benchmarks/problems.py:256-261 | the recursion appends the current prefix continued by each composition of the remainder, in order |
| Simplex.EachCompositionOnce | services/optimizer/benchmarks/problems.py:256-263 | the enumeration contains each composition, nothing else, and none twice |
| Simplex.CompositionCount | services/optimizer/benchmarks/problems.py:249-251 | there are C(divisions + m - 1, m - 1) compositions, by the hockey-stick identity |
| Simplex.GridGrows | services/optimizer/benchmarks/problems.py:249-251 | from two objectives on, more divisions give more points, so the search ends |
| Simplex.SampleIsTheGrid | services/optimizer/benchmarks/problems.py:239-264 | the sample has the binomial number of points, all different, non-negative and summing to 1, and every division of the whole is among them |
| Simplex.SampleSizeIsTheRequest | services/optimizer/benchmarks/problems.py:247-264 | the sample has the requested size exactly if some grid has it: nothing is trimmed |
| Simplex.FourBecomeSix | services/optimizer/benchmarks/problems.py:247-264 | a request for four points on three objectives is answered with six |
| Dtlz.Dtlz1Objectives | services/optimizer/benchmarks/problems.py:183-193 | the running products compute the DTLZ1 objectives |
| Dtlz.Dtlz2StyleObjectives | services/optimizer/benchmarks/problems.py:196-209 | the running products compute the DTLZ2-style objectives |
| Dtlz.ObjectivesTelescope | services/optimizer/benchmarks/problems.py:183-209 | whatever measure each factor and its complement split, the objectives' measures sum to that of the whole product |
| Dtlz.Dtlz1Sum | services/optimizer/benchmarks/problems.py:183-193 | the DTLZ1 objectives sum to exactly (1 + g)/2 for every vector and objective count |
| Dtlz.Dtlz2Sum | services/optimizer/benchmarks/problems.py:196-209 | the squares of the DTLZ2-style objectives sum to exactly (1 + g)^2, from cos^2 + sin^2 = 1 alone |
| Dtlz.Dtlz1FrontIsUnbeaten | services/optimizer/benchmarks/problems.py:267-272 | no decision vector's DTLZ1 objectives dominate a point of the sampled hyperplane |
| Dtlz.SphereFrontIsUnbeaten | services/optimizer/benchmarks/problems.py:275-283 | no decision vector's DTLZ2-style objectives dominate a point of the unit sphere |
| DtlzSphere.NormalisedIsOnSphere | services/optimizer/benchmarks/problems.py:275-283 | dividing a vector by its norm puts it on the unit sphere |
| DtlzSphere.SphereFrontIsAttained | services/optimizer/benchmarks/problems.py:196-209 | every non-negative vector on the unit sphere is the image of a decision vector in the unit box, given that cosine and sine reach every point of the quarter circle |
| DtlzSphere.SphereSampleIsOptimal | services/optimizer/benchmarks/problems.py:275-283 | every simplex point divided by its norm lies on the sphere, is attained and not dominated |
| Dtlz.Dtlz1FrontIsAttained | services/optimizer/benchmarks/problems.py:183-193 | every non-negative vector summing to 1/2 is the image of a decision vector in the unit box |
| Dtlz.Dtlz1SampleIsOptimal | services/optimizer/benchmarks/problems.py:267-272 | every sampled point of the DTLZ1 front is attained and not dominated |
| Claims.CheckPairIsSymmetric | services/evidence/claims.py:348-481 | what a pair is found to disagree on does not depend on which claim comes first |
| Claims.SeverityIsAFraction | services/evidence/claims.py:385-481 | severities lie between 0 and 1 |
| Claims.FreshnessMeans | services/evidence/claims.py:445-461 | a pair is reported as a freshness conflict exactly if the predicates are equal, both dates are given and lie more than the threshold of whole days apart, and the objects differ |
| Claims.FreshnessWeighs | services/evidence/claims.py:456-466 | such a conflict weighs the age in whole days over twice the threshold, at most 1 |
| Claims.UnitMismatchMeans | services/evidence/claims.py:385-410 | a unit mismatch is reported exactly if both claims with one predicate are numeric, both have units and their base units differ, and it weighs 0.3 |
| Claims.ComparedMeans | services/evidence/claims.py:412-420 | the value compared is the normalised one, unless that is missing or zero |
| Claims.DiscrepancyMeans | services/evidence/claims.py:412-443 | a numeric discrepancy is reported exactly if there is no unit mismatch and the values compared lie further apart than the tolerance times their mean magnitude, unless that is below 1e-10; it weighs their distance relative to that mean, at most 1 |
| Claims.NoDiscrepancyWithoutValues | services/evidence/claims.py:412-424 | without both values nothing is compared |
| Claims.FindingsInOrder | services/evidence/claims.py:348-383 | a pair has at most two findings, and of two the numeric one comes first |
| Consistency.PassFindsEachPairOnce | services/evidence/claims.py:308-346 | the group-by-group pair loop reports every two claims about one subject exactly once and no others |
| Consistency.FoundPermutes | services/evidence/claims.py:308-346 | reordering the claims changes neither the conflicting pairs nor kinds nor severities |
| Consistency.ConfidencePermutes | services/evidence/claims.py:340-344 | reordering the claims changes no final confidence |
| Consistency.LeftIsBounded | services/evidence/claims.py:342-344 | `n` conflicts leave at least 0.7^n of a confidence |
| Consistency.ScoreIsOneIfAllAgree | services/evidence/claims.py:483-523 | a consistency score is a fraction, and 1 exactly if every two claims of the subject come from different documents and have nothing found against them |
| Consistency.ScoreIsTheShare | services/evidence/claims.py:500-519 | the score of a subject with several claims is the number of its pairs from different documents with nothing found against them, out of all n(n - 1)/2 |
| ClaimStore.ClaimVerifier.CheckPair | services/evidence/claims.py:348-383 | the conflicts are those of the specification for this pair, about these two ids in this order, numbered one after the other |
| ClaimStore.ClaimVerifier.VerifyClaims | services/evidence/claims.py:308-346 | a pass lists exactly the findings of the specification, numbered in order, and, ids being distinct, notes each with exactly the two claims it involves |
| ClaimStore.CrossSourceConsistency | services/evidence/claims.py:483-523 | scores every subject by its share of agreeing pairs and records nothing, but draws an id for each finding between two claims on one subject from different documents |
| Consistency.QueryDraws | services/evidence/claims.py:508-516 | a query draws no id exactly if no two such claims have anything against each other, and never more than a pass finds |
| Consistency.OneClash | services/evidence/claims.py:508-516 | two documents whose numbers differ beyond the tolerance make a query draw one id |
| ClaimDatabase.ClaimDB.AddClaim | services/evidence/claims.py:538-553 | the database stays consistent exactly if the added claim's own list and confidence are what a scan finds for its id; both indexes append the id, and stay right exactly if it is new |
| ClaimDatabase.FreshFits | services/evidence/claims.py:538-553 | a new claim, under whatever id, fits exactly if no recorded conflict mentions that id |
| ClaimDatabase.UnknownIsUnmentioned | services/evidence/claims.py:538-553 | in an agreeing database no conflict mentions an unknown id, so a new claim under one fits |
| ClaimDatabase.ClaimDB.VerifyAll | services/evidence/claims.py:599-612 | consistency and indexes are kept, the conflicts found are appended under the next ids, the two totals are right, and nothing changes exactly if nothing is found |
| ClaimDatabase.PassChangesIfItFinds | services/evidence/claims.py:599-612 | a stored pass leaves claims and conflicts as they were exactly if the check finds nothing |
| ClaimDatabase.PassesRepeat | services/evidence/claims.py:599-612 | `k` passes over unchanged claims record `k` copies of what the check finds |
| ClaimDatabase.PassesWearDown | services/evidence/claims.py:340-344 | each such pass leaves the same share of a claim's confidence, what one pass's findings leave |
| ClaimDatabase.WornIsPower | services/evidence/claims.py:340-344 | `k` such shares are that share to the power `k` |
| ClaimDatabase.QueryAndVerify | services/evidence/claims.py:483-523 | after a consistency query and a pass the recorded ids have no gap exactly if no two claims on one subject from different documents have anything against each other |
| ClaimDatabase.PassKeepsAgreement | services/evidence/claims.py:599-612 | storing a pass's conflicts keeps every claim's own list and confidence in step with a scan |
| ClaimDatabase.ClaimDB.GetConflictsForClaim | services/evidence/claims.py:575-580 | the scan returns the conflicts that involve the claim |
| ClaimDatabase.ListIsScan | services/evidence/claims.py:575-580 | in a consistent database each claim's own list holds exactly the ids that the scan finds, in the same order |
| ClaimDatabase.ConfidenceIsBounded | services/evidence/claims.py:340-344 | after any history a confidence is at least 0.7^(number of conflicts) times the initial one, and at most that one |
| ClaimDatabase.OrderDoesNotMatter | services/evidence/claims.py:599-612 | the same claims in another order, verified once by the verifier's check, end with the same conflicts and confidences |
| ClaimIndex.IndexFollowsIfNew | services/evidence/claims.py:538-553 | the subject and document indexes stay right exactly if the added id is new |
| ClaimIndex.LookupIsGroup | services/evidence/claims.py:564-573 | a lookup through a right index yields exactly the claims with that key, in order |
| ClaimDatabase.ClaimDB.GetClaimsForSubject | services/evidence/claims.py:564-568 | returns the claims stored under the listed ids; with right indexes and distinct ids, exactly the subject's claims in order |
| ClaimDatabase.ClaimDB.GetClaimsForDocument | services/evidence/claims.py:570-573 | the same for a document |
| Bandit.MultiFidelityBandit.Update | services/optimizer/bandit.py:110-151 | books one pull; budget and pull costs stay balanced; the level's alpha counts the comparisons whose relative error is below 1 - threshold, its beta the others |
| Bandit.ErrorMeans | services/optimizer/bandit.py:134-137 | the relative error is the distance next to the larger magnitude or a millionth, the same both ways, at most 2, and nothing exactly for equal scores |
| Bandit.MultiFidelityBandit.SelectFidelity | services/optimizer/bandit.py:65-108 | high if forced or few evaluations are left; else affordable if anything is, by the best draw if high is affordable and by the greatest cost if not, the first of equals |
| Stopping.StoppingRules.Check | services/optimizer/stopping.py:100-158 | stops exactly if the minimum is reached and some rule applies, no later than at the larger of the two iteration limits, for a rule that applies, in the order of the rules; convergence bounds the gain of the last two rounds by twice the tolerance; fails exactly if no rule applies and the plateau rule has an empty window |
| Stopping.LimitsSpelledOut | services/optimizer/stopping.py:106-158 | each limit is a reason from the limit itself on, and convergence is two steps in a row of less than the tolerance either way |
| Stopping.PlateauSpelledOut | services/optimizer/stopping.py:139-147 | the plateau rule applies exactly if no two scores of the window lie as far apart as the threshold |
| Stopping.NoPlateauYet | services/optimizer/stopping.py:139-140 | before there are as many scores as the window is long there is no plateau |
| Stopping.PlateauIsTheGap | services/optimizer/stopping.py:140-147 | with scores that never get worse the plateau rule is the difference between the window's ends |
| Optimizer.UnifiedOptimizer.Update | services/optimizer/optimizer.py:358-461 | spent budget plus remaining budget stays the initial one, evaluations stay the number of candidates and of pulls, best scores never get worse and end with the best of all candidates; the evolutionary optimiser's frontier is exact after a result and each of its members is listed with a candidate within 1e-10; the answer is that of the stopping rules |
| Optimizer.PullsAddUp | services/optimizer/optimizer.py:411-415 | total pulls equal the number of candidates |
| Optimizer.RecordedNext | services/optimizer/optimizer.py:420-431 | recording the best of all candidates keeps the list of best scores monotone in the primary direction |
| Optimizer.WholeFrontierIsListed | services/optimizer/optimizer.py:442-461 | every frontier member that was told as a candidate is listed, in order and within 1e-10 |
| Optimizer.MatchIsClose | services/optimizer/optimizer.py:453-459 | a candidate matches exactly if all parameters of the member differ by less than 1e-10 either way, one it lacks counting 0; a pair just inside matches and one just outside does not |
| Optimizer.CarriedIfFirstIsLatest | services/optimizer/optimizer.py:450-461 | the listed candidates carry the objectives that put the members on the frontier exactly if, at every candidate that is the last at its parameters and that no other such candidate beats, the first candidate there has the same objectives |
| Optimizer.LatestIsKept | services/optimizer/evolutionary.py:255-271 | observing a candidate keeps this: the evaluated individuals are the candidates that are last at their parameters, and each is the first to match its own |
| Optimizer.UnifiedOptimizer.FrontierIsCarried | services/optimizer/optimizer.py:442-461 | so the optimiser's own listed frontier carries its objectives exactly under that condition on its history |
| Optimizer.CarriedIfNothingIsRepeated | services/optimizer/optimizer.py:450-461 | so they do if no parameters are evaluated twice |
| Optimizer.RepetitionListsTheFirst | services/optimizer/optimizer.py:450-461 | evaluated twice at the same parameters, the individual keeps the second outcome and the first candidate is listed for it, which carries the objectives exactly if both outcomes are the same |
| Optimizer.UnifiedOptimizer.ProposeEvolutionary | services/optimizer/optimizer.py:325-350 | the proposals are the first of the offspring that the evolutionary optimiser breeds from what is evaluated, as many as asked for; they lie in the box, and what it knows stays a candidate |
| Optimizer.FillBatch | services/optimizer/optimizer.py:273-302 | a batch is the feasible proposals followed by feasible random draws out of three per place, cut at the batch size |
| Optimizer.FeasibleJoins | services/optimizer/optimizer.py:273-281 | filtering keeps the order and takes each proposal by itself |
| RunSpec.RunTable.RecordRunStage | services/orchestrator/activities/persistence.py:41-75 | adds a row to the stage table in any case, and updates the first entry of the stage or appends one, in the stored run only |
| RunSpec.RunTable.UpdateRunSpec | services/orchestrator/activities/persistence.py:85-97 | stores the saved specification, except for progress keys already filled |
| RunSpec.RunTable.PersistRunProgress | services/orchestrator/activities/persistence.py:319-330 | writes the five progress fields of the stored run |
| RunSpec.MarkedIsRight | services/orchestrator/activities/persistence.py:60-69 | recording changes the status of its stage and of no other, and adds an entry only if there was none |
| RunSpec.StagesAreLatest | services/orchestrator/activities/persistence.py:41-97 | under any interleaving, stale saves included, a stage keeps at most one entry and it has the latest recorded status |
| RunSpec.ProgressIsLatest | services/orchestrator/activities/persistence.py:85-97 | under any interleaving a filled progress field stays that of the latest progress write |
| RunSpec.WrittenSurvivesIfFilled | services/orchestrator/activities/persistence.py:91-93 | a written field survives everything up to the next progress write exactly if it is filled; an empty one can be overwritten by a stale save |
| RunSpec.NarrativeSurvivesIfSaved | services/orchestrator/activities/persistence.py:81-97 | up to the next progress write a written narrative survives exactly if nothing is saved or the latest saved copy has it |
| Chunking.SlidingWindowChunk | services/evidence/chunking.py:37-69 | windows start at 0, each `overlap` before the end of the one before, none longer than the size, shorter only if text remains, at the last space in it if that lies past the middle, until the text is covered |
| Chunking.WindowsRebuildTheText | services/evidence/chunking.py:37-69 | dropping from each window what it shares with the one before rebuilds the text |
| Chunking.SuperfluousIfEndIsClose | services/evidence/chunking.py:46-67 | only the last window can lie inside the one before, and it does exactly if some window's end lies behind the text by less than the overlap |
| Chunking.ShortTextIsChunkedTwice | services/evidence/chunking.py:46-67 | a text of at most the chunk size, but longer than that less the overlap, becomes two chunks, the second inside the first |
| Chunking.EndsOnEveryText | services/evidence/chunking.py:46-67 | the loop ends on every text if and only if the overlap is at most half the chunk size and below it |
| Chunking.RequestedEndsOnEveryText | services/evidence/chunking.py:24-67 | which requested sizes end on every text; a requested overlap of 0 becomes 50, which is in range exactly for chunk sizes of at least 100 |
| Chunking.Pack | services/evidence/chunking.py:72-140 | chunks are joins of consecutive non-empty pieces, every piece once and in order, none over the limit unless a single piece, and none could have taken the next piece |
| Scenarios.CoercedIsAllowedIfSound | services/orchestrator/activities/pipeline.py:19-24 | coerced values stay in the declared range for every raw value exactly if the ends of an integer range do not round out of it |
| Scenarios.CoercedIsNearest | services/orchestrator/activities/pipeline.py:19-24 | coercion clamps to the range, and takes for an integer range the nearest integer to that, the even one of two |
| Scenarios.Shuffled | services/orchestrator/activities/pipeline.py:377-378 | the shuffle is the permutation that the tape's next draws decide, place by place from the last |
| Scenarios.EveryShuffleHappens | services/orchestrator/activities/pipeline.py:377-378 | and every permutation is the shuffle of some draws |
| Scenarios.StratifiedSamples | services/orchestrator/activities/pipeline.py:375-382 | exactly one sample lies in each stratum, the one the shuffle names, at the place in it that the next draw says |
| Scenarios.GenerateLhs | services/orchestrator/activities/pipeline.py:355-421 | every dimension is stratified by the tape, and scenario `i` takes sample `i` of every dimension, coerced to its range |
| Scenarios.PointIsInSlice | services/orchestrator/activities/pipeline.py:375-400 | a sample in stratum `k` of `n` becomes a value in the `k`-th of `n` equal slices of the range |
| Scenarios.GenerateGrid | services/orchestrator/activities/pipeline.py:286-352 | as many grid scenarios as index tuples, up to the count; scenario `k` takes the grid values of tuple `k`, coerced to their ranges, and its choices from the next draws |
| Scenarios.GridIsEven | services/orchestrator/activities/pipeline.py:305-330 | the grid values of a range are evenly spaced from its lower to its upper end |
| Scenarios.TruncatedMeans | services/orchestrator/activities/pipeline.py:441 | `int` cuts towards zero |
| Scenarios.TupleAt | services/orchestrator/activities/pipeline.py:319-321 | the `k`-th index tuple is the one that reads `k` in base `points`, so none is listed twice |
| Scenarios.TupleIsListed | services/orchestrator/activities/pipeline.py:319-321 | every index tuple is listed, at the place it reads |
| Scenarios.GenerateRandom | services/orchestrator/activities/pipeline.py:424-469 | exactly the requested number of random scenarios, every parameter set to a coerced draw from its range, a drawn choice or its fixed value, in the order of the tape |
| Scenarios.GenerateBoundary | services/orchestrator/activities/pipeline.py:472-530 | lower end, upper end and middle in turn, coerced to their ranges |
| Scenarios.ExtremesTakeTurns | services/orchestrator/activities/pipeline.py:485-505 | the extremes are the lower ends, the upper ends and the middles, in turn |
| Scenarios.GenerateStructuredScenarios | services/orchestrator/activities/pipeline.py:201-283 | exactly the budget, at least 50, in this order: without ranges none, else the smaller of the whole grid and the larger of 10 and a fifth of the budget follow the first grid tuples, the larger of 15 and a third of it follow stratified samples, random ones follow, and in directed runs a tenth, at most 10, at the end are the extremes in turn; every action is allowed if no integer range has an end that rounds out of it |
| Thresholds.ThresholdIsMonotone | services/judge/scorer.py:213-241 | improving a value in its direction never lowers its threshold score, even if the bounds are out of order |
| Thresholds.InterpolateScore | services/judge/scorer.py:244-293 | the search over neighbouring knots, in sorted order if lower is better |
| Thresholds.OrderedIsCurve | services/judge/scorer.py:244-293 | for strictly ordered bounds the search computes the straight lines between the levels' scores |
| Thresholds.SmoothIsMonotoneIfInOrder | services/judge/scorer.py:244-293 | improving a value never lowers its interpolated score: always if higher is better, and if lower is better exactly if the bounds are weakly in order |
| Thresholds.MisplacedBoundFalls | services/judge/scorer.py:256-262 | with bounds out of order the value 20 scores 0.7 and the better value 10 scores 0.5 |
| Thresholds.SmoothRefinesStepsIfOrdered | services/judge/scorer.py:244-293 | every interpolated score lies between the score of the level reached and that of the next exactly if the bounds are strictly in order |
| Scoring.Score | services/judge/scorer.py:370-537 | the final score is the clamped aggregate times feasibility and penalties less constraints, hence between 0 and 1 |
| Scoring.BetterMetricsBetterScore | services/judge/scorer.py:419-537 | with non-negative weights, feasibility and uncertainty rate and penalties of at most 1, improving metrics without making any relatively more uncertain never lowers the final score, under weighted sum and minimum |
| Scoring.ScoreFollowsUncertainty | services/judge/scorer.py:438-537 | when one uncertain metric moves within its level, a score that was neither nothing nor clipped does not fall exactly if the metric's relative uncertainty does not rise; where parts are weighted, for values on one side of the 1e-10 cut-off |
| Scoring.LargerIsLessUncertain | services/judge/scorer.py:438-444 | with the same uncertainty, away from zero, relatively less uncertain means larger in magnitude |
| Scoring.UncertaintyCanPunishImprovement | services/judge/scorer.py:438-444 | of two excellent delays with the same uncertainty the better one scores less |
| Scoring.CutOffCanPunish | services/judge/scorer.py:438-444 | across the 1e-10 cut-off a better, relatively less uncertain value can score less |
| ScoreLaws.FinalSpelledOut | services/judge/scorer.py:491-530 | the final score is the aggregate times feasibility and its weight, times what confidence, uncertainty and robustness leave, less the constraint penalties, cut to the unit interval |
| ScoreLaws.InfeasibleScoresNothing | services/judge/scorer.py:497-530 | a scenario of feasibility 0 scores nothing, unless a violation pays |
| ScoreLaws.FeasibilityRaises | services/judge/scorer.py:497-530 | more feasibility never lowers the score and raises it unless it stays clipped, with total penalty at most 1 |
| ScoreLaws.ConfidenceRaises | services/judge/scorer.py:500-530 | nor does more confidence, and it raises the score likewise |
| ScoreLaws.FewerFailuresRaise | services/judge/scorer.py:508-530 | nor do fewer robustness failures |
| ScoreLaws.SmallerViolationRaises | services/judge/scorer.py:488-530 | nor does a smaller violation of a penalised constraint; one of a constraint without a penalty changes nothing |
| ScoreLaws.ViolationCosts | services/judge/scorer.py:488-494 | each violation of a penalised constraint costs its magnitude times the constraint's penalty, and nothing else costs |
| ScoreLaws.RawIsWeightedMean | services/judge/scorer.py:455-486 | unless the least is taken, the aggregate is the weighted mean over the metrics that have a value |
| ScoreLaws.RawIsLeast | services/judge/scorer.py:475-479 | the least is attained by one of the metrics that have a value and exceeded by none |
| ScoreLaws.PartMeans | services/judge/scorer.py:438-446 | a metric counts with its score times its weight, less what its own relative uncertainty takes |
| ScoreLaws.MetricScoreMeans | services/judge/scorer.py:427-436 | the score of a value with a threshold is that of the best level reached, 0.5, 0.7, 0.85 or 1; without one it is the value cut to the unit interval |
| ScoreLaws.LastOneCounts | services/judge/scorer.py:410-422 | of several metrics with one name the last counts |
| ScoreLaws.UncertaintyIsMeanWidth | services/judge/scorer.py:300-322 | the shared uncertainty penalty is the rate times the mean relative uncertainty of the metrics that state one |

## Left out

- Evolution.EvolutionaryOptimizer.Observe: stored dictionaries are values, so a caller that changes a dictionary after handing it over is not modelled.
- Sampling.HypervolumeMonteCarlo: the draws are a parameter, the same in every call because the generator is seeded afresh; how close the estimate comes is not stated.
- Metrics.Argsort: any sorted arrangement of the rows, because the sweep is right for every order of ties.
- Diffusion.Simulate: the resolution scaling before and the interpolation after the step loop are not modelled.
- Diffusion.InitializeGrid: the exponential is a parameter.
- Harness.RunBenchmark: the Euclidean distance between two rows is a parameter.
- Dtlz.Dtlz2StyleObjectives: the distance and, for DTLZ4, the biased coordinates are passed in, because they are transcendental.
- DtlzSphere.SphereFrontIsAttained: the square root is a parameter that squares back, and cosine and sine are a pair that reaches every point of the quarter circle.
- Claims.CheckPairIsSymmetric: the unit table enters as a map from units to base units, and the age threshold is at least one day, because zero makes the severity a division by zero.
- ClaimStore.ClaimVerifier.VerifyClaims: if two claims share an id, what is found and how it is numbered is stated, but not which of them is marked.
- Bandit.MultiFidelityBandit.SelectFidelity: the Beta draws divided by the root of the cost are parameters; every level has a cost.
- Optimizer.UnifiedOptimizer.Update: penalised objectives are given values, and the Bayesian surrogate's observation is not modelled.
- RunSpec.RunTable.RecordRunStage: of the two times in a stage row only whether they are set is modelled, and a stage entry that is no record matches no stage.
- Chunking.Pack: splitting the text and stripping the pieces are done before.
- Scenarios.GenerateGrid: the truncated root that gives the points per dimension is a parameter.
- Scenarios.GenerateStructuredScenarios: ranges have lower ends not above their upper ends and lists are not empty; looking up missing ranges and hashing are not modelled.
- Scoring.ScoreFollowsUncertainty: weighted parts and a value that crosses the 1e-10 cut-off; there the metric's own penalty comes or goes whatever its relative uncertainty does.
- Scoring.Score: the geometric mean, the breakdown's labels and the benchmark comparisons are not modelled.
- Floating-point rounding and NaN: all arithmetic is exact; the 1e-10 matches are comparisons of reals.
- Zero-width bounds in mutation: a division by zero in the code, so the box requires non-empty intervals.
- Generational distance, ZDT problems, recency decay: sampling or transcendental formulas.
- One-dimensional input to the quality figures: the reshaping in `_as_matrix` is not modelled.
- `update_optimizer`, `check_convergence` and `_sample_bound` of the workflow activities, `get_allocation_strategy` and `should_promote` of the bandit are not modelled.
- Claim extraction by regular expressions, unit normalisation of values, ingestion of chunks, citations and summaries.
- Gaussian processes and acquisition, LLM calls, workflow plumbing, databases, object stores, hashing and the user interface.
