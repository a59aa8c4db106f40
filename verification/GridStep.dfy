/** One diffusion step of `compute/domain_packs/spatial_pack/pack.py` as a value, and what it does to
    a grid's total.

    The clamped-neighbour Laplacian and the upwind advection of a row are differences of shifted
    copies, so that their sums telescope to nothing and to the difference of the edges. */
module GridStep {
  import opened Common
  import opened Sums
  import opened Arithmetic

  type Grid = seq<seq<real>>

  datatype State = State(diffusion: real, decay: real, windX: real, windY: real) {
    /** Each cell's new value is then a weighted mean of old ones, less the decay. */
    predicate Stable() {
      && diffusion >= 0.0 && decay >= 0.0
      && 4.0 * diffusion + decay + Abs(windX) + Abs(windY) <= 1.0
    }

    /** The share of a cell's value that decay leaves. */
    function Kept(): real { 1.0 - decay }

    predicate NoWind() { windX == 0.0 && windY == 0.0 }
  }

  ghost predicate Square(g: Grid, n: nat) {
    |g| == n && forall i | 0 <= i < n :: |g[i]| == n
  }

  function At(g: Grid, i: nat, j: nat): real {
    if i < |g| && j < |g[i]| then g[i][j] else 0.0
  }

  function Low(i: nat): nat { if i == 0 then 0 else i - 1 }

  function High(i: nat, n: nat): nat { if i + 1 < n then i + 1 else if n == 0 then 0 else n - 1 }

  /** The drift along one axis, by upwind differences: from the side the wind blows from, where
      there is a neighbour. */
  function Advection(wind: real, center: real, before: real, behind: real, hasBefore: bool, hasBehind: bool): real {
    if wind > 0.0 && hasBefore then wind * (center - before)
    else if wind < 0.0 && hasBehind then wind * (behind - center)
    else 0.0
  }

  /** A cell's value after diffusion, drift and decay; `four` is the sum over its neighbours. */
  function Updated(s: State, center: real, four: real, advection: real): real {
    center + s.diffusion * (four - 4.0 * center) - advection - s.decay * center
  }

  /** The same from the neighbours' values; the flags say on which sides there is a neighbour. */
  function Stencil(s: State, center: real, up: real, down: real, left: real, right: real,
                   hasUp: bool, hasDown: bool, hasLeft: bool, hasRight: bool): real {
    Updated(s, center, up + down + left + right,
            Advection(s.windX, center, up, down, hasUp, hasDown) +
              Advection(s.windY, center, left, right, hasLeft, hasRight))
  }

  function Raw(g: Grid, n: nat, s: State, i: nat, j: nat): real {
    Stencil(s, At(g, i, j), At(g, Low(i), j), At(g, High(i, n), j), At(g, i, Low(j)), At(g, i, High(j, n)),
            i > 0, i + 1 < n, j > 0, j + 1 < n)
  }

  /** The new cell: noise added, then clipped at zero. */
  function Next(g: Grid, n: nat, s: State, noise: (nat, nat) -> real, i: nat, j: nat): real {
    Max(0.0, Raw(g, n, s, i, j) + noise(i, j))
  }

  /** `r` holds every cell's next value. */
  ghost predicate IsStep(r: Grid, g: Grid, n: nat, s: State, noise: (nat, nat) -> real) {
    && Square(r, n)
    && forall i: nat, j: nat {:trigger Next(g, n, s, noise, i, j)} | i < n && j < n ::
      At(r, i, j) == Next(g, n, s, noise, i, j)
  }

  lemma StepExists(g: Grid, n: nat, s: State, noise: (nat, nat) -> real)
    ensures exists r :: IsStep(r, g, n, s, noise)
  {
    var r := seq(n, i requires 0 <= i < n => seq(n, j requires 0 <= j < n => Next(g, n, s, noise, i, j)));
    assert IsStep(r, g, n, s, noise);
  }

  ghost function Step(g: Grid, n: nat, s: State, noise: (nat, nat) -> real): (r: Grid)
    ensures IsStep(r, g, n, s, noise)
  {
    StepExists(g, n, s, noise);
    var r :| IsStep(r, g, n, s, noise);
    r
  }

  // ----- conservation -----

  function Row(g: Grid, i: nat): nat -> real { (j: nat) => At(g, i, j) }

  function RowSums(g: Grid, n: nat): nat -> real { (i: nat) => Sum(Row(g, i), n) }

  /** The total over an `n` by `n` grid. */
  function Total(g: Grid, n: nat): real { Sum(RowSums(g, n), n) }

  /** What diffuses into a cell, net, before scaling. */
  function Laplacian(g: Grid, n: nat, i: nat, j: nat): real {
    At(g, Low(i), j) + At(g, High(i, n), j) + At(g, i, Low(j)) + At(g, i, High(j, n)) - 4.0 * At(g, i, j)
  }

  ghost function LaplacianRow(g: Grid, n: nat, i: nat): nat -> real { (j: nat) => Laplacian(g, n, i, j) }

  ghost function LaplacianSums(g: Grid, n: nat): nat -> real { (i: nat) => Sum(LaplacianRow(g, n, i), n) }

  ghost function RawRow(g: Grid, n: nat, s: State, i: nat): nat -> real { (j: nat) => Raw(g, n, s, i, j) }

  ghost function RawSums(g: Grid, n: nat, s: State): nat -> real { (i: nat) => Sum(RawRow(g, n, s, i), n) }

  lemma {:induction false} LaplacianPrefix(g: Grid, n: nat, i: nat, k: nat)
    ensures Sum(LaplacianRow(g, n, i), k) ==
      Sum(Row(g, Low(i)), k) + Sum(Row(g, High(i, n)), k)
      + Sum(Before(Row(g, i)), k) + Sum(Behind(Row(g, i), n), k) - 4.0 * Sum(Row(g, i), k)
  {
    if k > 0 { LaplacianPrefix(g, n, i, k - 1); }
  }

  /** Inside a row, what diffuses out of one cell arrives in another: only the flow from the
      two neighbouring rows is left. */
  lemma LaplacianOfRow(g: Grid, n: nat, i: nat)
    requires n > 0
    ensures LaplacianSums(g, n)(i) == RowSums(g, n)(Low(i)) + RowSums(g, n)(High(i, n)) - 2.0 * RowSums(g, n)(i)
  {
    LaplacianPrefix(g, n, i, n);
    NeighboursSumToTwice(Row(g, i), n);
  }

  lemma {:induction false} LaplacianRowsPrefix(g: Grid, n: nat, k: nat)
    requires n > 0
    ensures Sum(LaplacianSums(g, n), k) ==
      Sum(Before(RowSums(g, n)), k) + Sum(Behind(RowSums(g, n), n), k) - 2.0 * Sum(RowSums(g, n), k)
  {
    if k > 0 {
      LaplacianRowsPrefix(g, n, k - 1);
      LaplacianOfRow(g, n, k - 1);
    }
  }

  /** The clamped-neighbour Laplacian sums to zero over the grid. */
  lemma LaplacianSumsToZero(g: Grid, n: nat)
    requires n > 0
    ensures Sum(LaplacianSums(g, n), n) == 0.0
  {
    LaplacianRowsPrefix(g, n, n);
    NeighboursSumToTwice(RowSums(g, n), n);
  }

  /** What diffusion and decay leave of a row. */
  ghost function CalmRow(g: Grid, n: nat, s: State, i: nat): nat -> real {
    (j: nat) => s.Kept() * At(g, i, j) + s.diffusion * Laplacian(g, n, i, j)
  }

  ghost function CalmSums(g: Grid, n: nat, s: State): nat -> real { (i: nat) => Sum(CalmRow(g, n, s, i), n) }

  /** Multiplication by a wind's strength. What is summed below is summed for any additive function. */
  function Times(wind: real): real -> real { (x: real) => wind * x }

  ghost predicate AddsAt(push: real -> real, x: real, y: real) { push(x + y) == push(x) + push(y) }

  ghost predicate Additive(push: real -> real) { forall x, y :: AddsAt(push, x, y) }

  lemma TimesIsAdditive(wind: real)
    ensures Additive(Times(wind))
  {
    forall x, y ensures AddsAt(Times(wind), x, y) { Distribute(wind, x, y); }
  }

  ghost function Pushed(push: real -> real, f: nat -> real): nat -> real { (i: nat) => push(f(i)) }

  lemma {:induction false} SumOfPushed(push: real -> real, f: nat -> real, n: nat)
    requires Additive(push)
    ensures Sum(Pushed(push, f), n) == push(Sum(f, n))
  {
    if n > 0 {
      SumOfPushed(push, f, n - 1);
      assert AddsAt(push, Sum(f, n - 1), f(n - 1));
    } else {
      assert AddsAt(push, 0.0, 0.0);
    }
  }

  /** The upwind differences between a row and its neighbouring row. */
  ghost function Across(g: Grid, n: nat, wind: real, i: nat): nat -> real {
    (j: nat) => if wind > 0.0 then At(g, i, j) - At(g, Low(i), j) else At(g, High(i, n), j) - At(g, i, j)
  }

  /** Two additive effects of the upwind differences along both axes: what they take from a row. */
  ghost function DriftRow(g: Grid, n: nat, s: State, x: real -> real, y: real -> real, i: nat): nat -> real {
    (j: nat) => x(Across(g, n, s.windX, i)(j)) + y(Slope(Row(g, i), n, s.windY)(j))
  }

  ghost function DriftSums(g: Grid, n: nat, s: State, x: real -> real, y: real -> real): nat -> real {
    (i: nat) => Sum(DriftRow(g, n, s, x, y, i), n)
  }

  lemma AcrossSum(g: Grid, n: nat, wind: real, i: nat)
    ensures Sum(Across(g, n, wind, i), n) == Slope(RowSums(g, n), n, wind)(i)
  {
    if wind > 0.0 {
      SumOfDifference(Across(g, n, wind, i), Row(g, i), Row(g, Low(i)), n);
      assert Before(RowSums(g, n))(i) == RowSums(g, n)(Low(i));
    } else {
      SumOfDifference(Across(g, n, wind, i), Row(g, High(i, n)), Row(g, i), n);
      assert Behind(RowSums(g, n), n)(i) == RowSums(g, n)(High(i, n));
    }
  }

  /** How far the two ends of each row are apart. */
  ghost function RowEdges(g: Grid, n: nat): nat -> real
    requires n > 0
  {
    (i: nat) => At(g, i, n - 1) - At(g, i, 0)
  }

  ghost function Column(g: Grid, j: nat): nat -> real { (i: nat) => At(g, i, j) }

  lemma SumOfTwo(f: nat -> real, a: nat -> real, b: nat -> real, n: nat)
    requires forall i: nat | i < n :: f(i) == a(i) + b(i)
    ensures Sum(f, n) == Sum(a, n) + Sum(b, n)
  {
    SumOfDifference(a, f, b, n);
  }

  lemma DriftRowBalance(g: Grid, n: nat, s: State, x: real -> real, y: real -> real, i: nat)
    requires n > 0 && Additive(x) && Additive(y)
    ensures DriftSums(g, n, s, x, y)(i) == Pushed(x, Slope(RowSums(g, n), n, s.windX))(i) + Pushed(y, RowEdges(g, n))(i)
  {
    SumOfTwo(DriftRow(g, n, s, x, y, i), Pushed(x, Across(g, n, s.windX, i)),
      Pushed(y, Slope(Row(g, i), n, s.windY)), n);
    SumOfPushed(x, Across(g, n, s.windX, i), n);
    SumOfPushed(y, Slope(Row(g, i), n, s.windY), n);
    AcrossSum(g, n, s.windX, i);
    SlopeTelescopes(Row(g, i), n, s.windY);
  }

  lemma PushedAcross(g: Grid, n: nat, wind: real, x: real -> real)
    requires n > 0 && Additive(x)
    ensures Sum(Pushed(x, Slope(RowSums(g, n), n, wind)), n) == x(RowSums(g, n)(n - 1) - RowSums(g, n)(0))
  {
    SumOfPushed(x, Slope(RowSums(g, n), n, wind), n);
    SlopeTelescopes(RowSums(g, n), n, wind);
  }

  lemma PushedEdges(g: Grid, n: nat, y: real -> real)
    requires n > 0 && Additive(y)
    ensures Sum(Pushed(y, RowEdges(g, n)), n) == y(Sum(Column(g, n - 1), n) - Sum(Column(g, 0), n))
  {
    SumOfPushed(y, RowEdges(g, n), n);
    SumOfDifference(RowEdges(g, n), Column(g, n - 1), Column(g, 0), n);
  }

  lemma DriftBalance(g: Grid, n: nat, s: State, x: real -> real, y: real -> real)
    requires n > 0 && Additive(x) && Additive(y)
    ensures Sum(DriftSums(g, n, s, x, y), n) ==
      Sum(Pushed(x, Slope(RowSums(g, n), n, s.windX)), n) + Sum(Pushed(y, RowEdges(g, n)), n)
  {
    var across, edges := Slope(RowSums(g, n), n, s.windX), RowEdges(g, n);
    forall i: nat | i < n ensures DriftSums(g, n, s, x, y)(i) == Pushed(x, across)(i) + Pushed(y, edges)(i) {
      DriftRowBalance(g, n, s, x, y, i);
    }
    SumOfTwo(DriftSums(g, n, s, x, y), Pushed(x, across), Pushed(y, edges), n);
  }

  lemma AdvectionIsSlope(wind: real, center: real, before: real, behind: real, hasBefore: bool, hasBehind: bool,
      slope: real)
    requires (!hasBefore ==> before == center) && (!hasBehind ==> behind == center)
    requires slope == if wind > 0.0 then center - before else behind - center
    ensures Advection(wind, center, before, behind, hasBefore, hasBehind) == Times(wind)(slope)
  {
  }

  lemma UpdatedParts(s: State, center: real, four: real, advection: real, calm: real)
    requires calm == s.Kept() * center + s.diffusion * (four - 4.0 * center)
    ensures Updated(s, center, four, advection) == calm - advection
  {
  }

  /** What the wind takes from one cell. */
  ghost function Drift(g: Grid, n: nat, s: State, i: nat, j: nat): real {
    Advection(s.windX, At(g, i, j), At(g, Low(i), j), At(g, High(i, n), j), i > 0, i + 1 < n)
    + Advection(s.windY, At(g, i, j), At(g, i, Low(j)), At(g, i, High(j, n)), j > 0, j + 1 < n)
  }

  lemma RawIsCalmLessDrift(g: Grid, n: nat, s: State, i: nat, j: nat)
    ensures Raw(g, n, s, i, j) == CalmRow(g, n, s, i)(j) - Drift(g, n, s, i, j)
  {
    var four := At(g, Low(i), j) + At(g, High(i, n), j) + At(g, i, Low(j)) + At(g, i, High(j, n));
    UpdatedParts(s, At(g, i, j), four, Drift(g, n, s, i, j), CalmRow(g, n, s, i)(j));
  }

  lemma AcrossIsPushed(g: Grid, n: nat, wind: real, i: nat, j: nat)
    requires i < n
    ensures Advection(wind, At(g, i, j), At(g, Low(i), j), At(g, High(i, n), j), i > 0, i + 1 < n) ==
      Times(wind)(Across(g, n, wind, i)(j))
  {
    AdvectionIsSlope(wind, At(g, i, j), At(g, Low(i), j), At(g, High(i, n), j), i > 0, i + 1 < n,
      Across(g, n, wind, i)(j));
  }

  lemma AlongIsPushed(g: Grid, n: nat, wind: real, i: nat, j: nat)
    requires j < n
    ensures Advection(wind, At(g, i, j), At(g, i, Low(j)), At(g, i, High(j, n)), j > 0, j + 1 < n) ==
      Times(wind)(Slope(Row(g, i), n, wind)(j))
  {
    var slope := Slope(Row(g, i), n, wind)(j);
    assert Before(Row(g, i))(j) == At(g, i, Low(j)) && Behind(Row(g, i), n)(j) == At(g, i, High(j, n));
    assert slope == if wind > 0.0 then At(g, i, j) - At(g, i, Low(j)) else At(g, i, High(j, n)) - At(g, i, j);
    AdvectionIsSlope(wind, At(g, i, j), At(g, i, Low(j)), At(g, i, High(j, n)), j > 0, j + 1 < n, slope);
  }

  lemma DriftIsPushed(g: Grid, n: nat, s: State, i: nat, j: nat)
    requires i < n && j < n
    ensures Drift(g, n, s, i, j) == DriftRow(g, n, s, Times(s.windX), Times(s.windY), i)(j)
  {
    AcrossIsPushed(g, n, s.windX, i, j);
    AlongIsPushed(g, n, s.windY, i, j);
  }

  /** What all the wind takes from a row. */
  ghost function WindSums(g: Grid, n: nat, s: State): nat -> real { DriftSums(g, n, s, Times(s.windX), Times(s.windY)) }

  lemma RawRowBalance(g: Grid, n: nat, s: State, i: nat)
    requires i < n
    ensures RawSums(g, n, s)(i) == CalmSums(g, n, s)(i) - WindSums(g, n, s)(i)
  {
    var drift := DriftRow(g, n, s, Times(s.windX), Times(s.windY), i);
    forall j: nat | j < n ensures RawRow(g, n, s, i)(j) == CalmRow(g, n, s, i)(j) - drift(j) {
      RawIsCalmLessDrift(g, n, s, i, j);
      DriftIsPushed(g, n, s, i, j);
    }
    SumOfDifference(RawRow(g, n, s, i), CalmRow(g, n, s, i), drift, n);
  }

  lemma CalmIsMix(g: Grid, n: nat, s: State, i: nat, j: nat)
    ensures IsMix(CalmRow(g, n, s, i), s.Kept(), Row(g, i), s.diffusion, LaplacianRow(g, n, i), j)
  {
  }

  lemma CalmRowBalance(g: Grid, n: nat, s: State, i: nat)
    ensures IsMix(CalmSums(g, n, s), s.Kept(), RowSums(g, n), s.diffusion, LaplacianSums(g, n), i)
  {
    forall j: nat | j < n
      ensures IsMix(CalmRow(g, n, s, i), s.Kept(), Row(g, i), s.diffusion, LaplacianRow(g, n, i), j)
    {
      CalmIsMix(g, n, s, i, j);
    }
    SumOfMix(CalmRow(g, n, s, i), s.Kept(), Row(g, i), s.diffusion, LaplacianRow(g, n, i), n);
  }

  lemma CalmBalance(g: Grid, n: nat, s: State)
    requires n > 0
    ensures Sum(CalmSums(g, n, s), n) == s.Kept() * Total(g, n)
  {
    forall i: nat | i < n
      ensures IsMix(CalmSums(g, n, s), s.Kept(), RowSums(g, n), s.diffusion, LaplacianSums(g, n), i)
    {
      CalmRowBalance(g, n, s, i);
    }
    SumOfMix(CalmSums(g, n, s), s.Kept(), RowSums(g, n), s.diffusion, LaplacianSums(g, n), n);
    LaplacianSumsToZero(g, n);
  }

  /** What the wind takes from the whole grid: along each axis its strength times what the far edge
      holds more than the near one. */
  ghost function BlownAway(g: Grid, n: nat, s: State): real
    requires n > 0
  {
    Times(s.windX)(RowSums(g, n)(n - 1) - RowSums(g, n)(0)) +
      Times(s.windY)(Sum(Column(g, n - 1), n) - Sum(Column(g, 0), n))
  }

  lemma WindBalance(g: Grid, n: nat, s: State)
    requires n > 0
    ensures Sum(WindSums(g, n, s), n) == BlownAway(g, n, s)
  {
    TimesIsAdditive(s.windX);
    TimesIsAdditive(s.windY);
    DriftBalance(g, n, s, Times(s.windX), Times(s.windY));
    PushedAcross(g, n, s.windX, Times(s.windX));
    PushedEdges(g, n, Times(s.windY));
  }

  /** Before noise and clipping, the total loses exactly what decays and what the wind takes. */
  lemma RawBalance(g: Grid, n: nat, s: State)
    requires n > 0
    ensures Sum(RawSums(g, n, s), n) == s.Kept() * Total(g, n) - BlownAway(g, n, s)
  {
    forall i: nat | i < n ensures RawSums(g, n, s)(i) == CalmSums(g, n, s)(i) - WindSums(g, n, s)(i) {
      RawRowBalance(g, n, s, i);
    }
    SumOfDifference(RawSums(g, n, s), CalmSums(g, n, s), WindSums(g, n, s), n);
    CalmBalance(g, n, s);
    WindBalance(g, n, s);
  }

  ghost function NoiseSums(noise: (nat, nat) -> real, n: nat): nat -> real {
    (i: nat) => Sum((j: nat) => noise(i, j), n)
  }

  /** What clipping at zero adds to a cell. */
  function Clipped(g: Grid, n: nat, s: State, noise: (nat, nat) -> real, i: nat, j: nat): real {
    Max(0.0, -(Raw(g, n, s, i, j) + noise(i, j)))
  }

  ghost function ClippedSums(g: Grid, n: nat, s: State, noise: (nat, nat) -> real): nat -> real {
    (i: nat) => Sum((j: nat) => Clipped(g, n, s, noise, i, j), n)
  }
}
