/** `compute/domain_packs/spatial_pack/pack.py`: grid diffusion with clamped neighbours,
    upwind advection, decay, noise and clipping at zero. */
module Diffusion {
  import opened Common
  import opened Sums
  import opened Arithmetic
  import opened GridStep

  /** The full balance of one step: the decayed total, less what the wind takes, plus the noise
      drawn, plus what clipping added. */
  lemma MassBalance(g: Grid, n: nat, s: State, noise: (nat, nat) -> real)
    requires n > 0
    ensures Total(Step(g, n, s, noise), n) ==
      s.Kept() * Total(g, n) - BlownAway(g, n, s) + Sum(NoiseSums(noise, n), n) + Sum(ClippedSums(g, n, s, noise), n)
  {
    var after := Step(g, n, s, noise);
    forall i: nat | i < n
      ensures RowSums(after, n)(i) == RawSums(g, n, s)(i) + NoiseSums(noise, n)(i) + ClippedSums(g, n, s, noise)(i)
    {
      forall j: nat | j < n
        ensures Row(after, i)(j) == Raw(g, n, s, i, j) + noise(i, j) + Clipped(g, n, s, noise, i, j)
      {
        assert At(after, i, j) == Next(g, n, s, noise, i, j);
      }
      SumOfThree(Row(after, i), RawRow(g, n, s, i), (j: nat) => noise(i, j),
        (j: nat) => Clipped(g, n, s, noise, i, j), n);
    }
    SumOfThree(RowSums(after, n), RawSums(g, n, s), NoiseSums(noise, n), ClippedSums(g, n, s, noise), n);
    RawBalance(g, n, s);
  }

  // ----- comparison and the maximum principle -----

  /** The strength of the wind on a cell, if there is a neighbour on the upwind side. */
  function Pull(wind: real, before: bool, behind: bool): (r: real)
    ensures 0.0 <= r <= Abs(wind)
  {
    if wind > 0.0 && before then wind else if wind < 0.0 && behind then -wind else 0.0
  }

  /** The value on the upwind side. */
  function Upwind(wind: real, before: real, behind: real): real {
    if wind > 0.0 then before else behind
  }

  /** What the cell itself weighs, next to pulls `a` and `b`. */
  function CenterWeight(s: State, a: real, b: real): real { s.Kept() - 4.0 * s.diffusion - a - b }

  lemma CenterWeighs(s: State, a: real, b: real)
    requires s.Stable() && a <= Abs(s.windX) && b <= Abs(s.windY)
    ensures CenterWeight(s, a, b) >= 0.0
  {
  }

  function Weighted(w: real, d: real, a: real, b: real, center: real, four: real, x: real, y: real): real {
    w * center + d * four + a * x + b * y
  }

  /** The advection along one axis, written with the upwind value. */
  lemma AdvectionIsUpwind(wind: real, center: real, before: real, behind: real, hasBefore: bool, hasBehind: bool)
    ensures Advection(wind, center, before, behind, hasBefore, hasBehind) ==
      Pull(wind, hasBefore, hasBehind) * center - Pull(wind, hasBefore, hasBehind) * Upwind(wind, before, behind)
  {
  }

  /** The stencil as a weighted sum; a stable state makes every weight non-negative. */
  lemma StencilIsWeighted(s: State, center: real, up: real, down: real, left: real, right: real,
                          hasUp: bool, hasDown: bool, hasLeft: bool, hasRight: bool)
    ensures var a, b := Pull(s.windX, hasUp, hasDown), Pull(s.windY, hasLeft, hasRight);
      Stencil(s, center, up, down, left, right, hasUp, hasDown, hasLeft, hasRight) ==
      Weighted(CenterWeight(s, a, b), s.diffusion, a, b, center,
               up + down + left + right, Upwind(s.windX, up, down), Upwind(s.windY, left, right))
  {
    AdvectionIsUpwind(s.windX, center, up, down, hasUp, hasDown);
    AdvectionIsUpwind(s.windY, center, left, right, hasLeft, hasRight);
    Collected(s, center, up + down + left + right, Pull(s.windX, hasUp, hasDown), Pull(s.windY, hasLeft, hasRight),
              Upwind(s.windX, up, down), Upwind(s.windY, left, right),
              Advection(s.windX, center, up, down, hasUp, hasDown),
                Advection(s.windY, center, left, right, hasLeft, hasRight));
  }

  lemma Collected(s: State, c: real, four: real, a: real, b: real, x: real, y: real, dx: real, dy: real)
    requires dx == a * c - a * x && dy == b * c - b * y
    ensures Updated(s, c, four, dx + dy) ==
      Weighted(CenterWeight(s, a, b), s.diffusion, a, b, c, four, x, y)
  {
    SpreadOut(s.diffusion, four, c);
    CollectFour(s.Kept(), s.diffusion, a, b, c);
  }

  lemma SpreadOut(d: real, four: real, c: real)
    ensures d * (four - 4.0 * c) == d * four - 4.0 * (d * c)
  {
  }

  lemma CollectFour(k: real, d: real, a: real, b: real, c: real)
    ensures (k - 4.0 * d - a - b) * c == k * c - 4.0 * (d * c) - a * c - b * c
  {
    Difference(k - 4.0 * d - a, b, c);
    Difference(k - 4.0 * d, a, c);
    Difference(k, 4.0 * d, c);
  }

  lemma Difference(x: real, y: real, c: real)
    ensures (x - y) * c == x * c - y * c
  {
  }

  lemma WeightedMonotone(w: real, d: real, a: real, b: real, c: real, four: real, x: real, y: real,
                         c': real, four': real, x': real, y': real)
    requires w >= 0.0 && d >= 0.0 && a >= 0.0 && b >= 0.0
    requires c <= c' && four <= four' && x <= x' && y <= y'
    ensures Weighted(w, d, a, b, c, four, x, y) <= Weighted(w, d, a, b, c', four', x', y')
  {
    ScaleUp(w, c, c');
    ScaleUp(d, four, four');
    ScaleUp(a, x, x');
    ScaleUp(b, y, y');
  }

  /** `g` is nowhere above `h`. */
  ghost predicate Below(g: Grid, h: Grid, n: nat) {
    forall i: nat, j: nat | i < n && j < n :: At(g, i, j) <= At(h, i, j)
  }

  lemma RawMonotone(g: Grid, h: Grid, n: nat, s: State, i: nat, j: nat)
    requires s.Stable() && Below(g, h, n) && i < n && j < n
    ensures Raw(g, n, s, i, j) <= Raw(h, n, s, i, j)
  {
    var u, d, l, r := Low(i), High(i, n), Low(j), High(j, n);
    StencilIsWeighted(s, At(g, i, j), At(g, u, j), At(g, d, j), At(g, i, l), At(g, i, r), i > 0, i + 1 < n, j > 0,
      j + 1 < n);
    StencilIsWeighted(s, At(h, i, j), At(h, u, j), At(h, d, j), At(h, i, l), At(h, i, r), i > 0, i + 1 < n, j > 0,
      j + 1 < n);
    var a, b := Pull(s.windX, i > 0, i + 1 < n), Pull(s.windY, j > 0, j + 1 < n);
    CenterWeighs(s, a, b);
    WeightedMonotone(CenterWeight(s, a, b), s.diffusion, a, b,
      At(g, i, j), At(g, u, j) + At(g, d, j) + At(g, i, l) + At(g, i, r),
      Upwind(s.windX, At(g, u, j), At(g, d, j)), Upwind(s.windY, At(g, i, l), At(g, i, r)),
      At(h, i, j), At(h, u, j) + At(h, d, j) + At(h, i, l) + At(h, i, r),
      Upwind(s.windX, At(h, u, j), At(h, d, j)), Upwind(s.windY, At(h, i, l), At(h, i, r)));
  }

  /** A stable step preserves order between grids, wind, boundary and noise included. */
  lemma StepIsMonotone(g: Grid, h: Grid, n: nat, s: State, noise: (nat, nat) -> real)
    requires s.Stable() && Below(g, h, n)
    ensures Below(Step(g, n, s, noise), Step(h, n, s, noise), n)
  {
    forall i: nat, j: nat | i < n && j < n
      ensures At(Step(g, n, s, noise), i, j) <= At(Step(h, n, s, noise), i, j)
    {
      RawMonotone(g, h, n, s, i, j);
      assert Next(g, n, s, noise, i, j) <= Next(h, n, s, noise, i, j);
    }
  }

  function Constant(n: nat, v: real): (g: Grid)
    ensures forall i: nat, j: nat | i < n && j < n :: At(g, i, j) == v
  {
    seq(n, i requires 0 <= i < n => seq(n, j requires 0 <= j < n => v))
  }

  lemma RawOfConstant(n: nat, s: State, v: real, i: nat, j: nat)
    requires i < n && j < n
    ensures Raw(Constant(n, v), n, s, i, j) == s.Kept() * v
  {
    assert Raw(Constant(n, v), n, s, i, j) == v - s.decay * v;
  }

  ghost predicate Silent(noise: (nat, nat) -> real, n: nat) {
    forall i: nat, j: nat | i < n && j < n :: noise(i, j) == 0.0
  }

  ghost predicate Between(g: Grid, n: nat, low: real, high: real) {
    forall i: nat, j: nat | i < n && j < n :: low <= At(g, i, j) <= high
  }

  /** Compared with the two constant grids, a step scales both bounds by what decay leaves. */
  lemma RawBetween(g: Grid, n: nat, s: State, low: real, high: real, i: nat, j: nat)
    requires s.Stable() && Between(g, n, low, high) && i < n && j < n
    ensures s.Kept() * low <= Raw(g, n, s, i, j) <= s.Kept() * high
  {
    RawMonotone(Constant(n, low), g, n, s, i, j);
    RawMonotone(g, Constant(n, high), n, s, i, j);
    RawOfConstant(n, s, low, i, j);
    RawOfConstant(n, s, high, i, j);
  }

  /** The maximum principle, for non-negative grids without noise. */
  lemma MaximumPrinciple(g: Grid, n: nat, s: State, noise: (nat, nat) -> real, low: real, high: real)
    requires s.Stable() && Silent(noise, n) && 0.0 <= low && Between(g, n, low, high)
    ensures Between(Step(g, n, s, noise), n, s.Kept() * low, s.Kept() * high)
  {
    forall i: nat, j: nat | i < n && j < n
      ensures s.Kept() * low <= At(Step(g, n, s, noise), i, j) <= s.Kept() * high
    {
      RawBetween(g, n, s, low, high, i, j);
      assert At(Step(g, n, s, noise), i, j) == Next(g, n, s, noise, i, j);
      ScaleUp(s.Kept(), 0.0, low);
    }
  }

  /** Without wind and noise, a stable step multiplies a non-negative grid's total by exactly
      what decay leaves: nothing is clipped. */
  lemma Conservation(g: Grid, n: nat, s: State, noise: (nat, nat) -> real)
    requires n > 0 && s.NoWind() && s.Stable() && Silent(noise, n)
    requires forall i: nat, j: nat | i < n && j < n :: At(g, i, j) >= 0.0
    ensures Total(Step(g, n, s, noise), n) == s.Kept() * Total(g, n)
  {
    MassBalance(g, n, s, noise);
    forall i: nat | i < n ensures NoiseSums(noise, n)(i) == 0.0 && ClippedSums(g, n, s, noise)(i) == 0.0 {
      forall j: nat | j < n ensures Clipped(g, n, s, noise, i, j) == 0.0 {
        RawMonotone(Constant(n, 0.0), g, n, s, i, j);
        RawOfConstant(n, s, 0.0, i, j);
      }
      SumIsZero((j: nat) => noise(i, j), n);
      SumIsZero((j: nat) => Clipped(g, n, s, noise, i, j), n);
    }
    SumIsZero(NoiseSums(noise, n), n);
    SumIsZero(ClippedSums(g, n, s, noise), n);
  }

  // ----- whole runs -----

  /** `k` to the power `t`, times `v`. */
  function Shrunk(k: real, v: real, t: nat): real { if t == 0 then v else k * Shrunk(k, v, t - 1) }

  /** The grid after `t` steps; `noise(k)` is drawn in step `k`. */
  ghost function Run(g: Grid, n: nat, s: State, noise: nat -> (nat, nat) -> real, t: nat): Grid {
    if t == 0 then g else Step(Run(g, n, s, noise, t - 1), n, s, noise(t - 1))
  }

  lemma {:induction false} ShrunkIsNonNegative(k: real, v: real, t: nat)
    requires k >= 0.0 && v >= 0.0
    ensures Shrunk(k, v, t) >= 0.0
  {
    if t > 0 { ShrunkIsNonNegative(k, v, t - 1); }
  }

  /** Over `t` silent steps the bounds shrink geometrically. */
  lemma {:induction false} RunStaysBetween(g: Grid, n: nat, s: State, noise: nat -> (nat, nat) -> real, t: nat,
      low: real, high: real)
    requires s.Stable() && 0.0 <= low && Between(g, n, low, high)
    requires forall k: nat | k < t :: Silent(noise(k), n)
    ensures Between(Run(g, n, s, noise, t), n, Shrunk(s.Kept(), low, t), Shrunk(s.Kept(), high, t))
  {
    if t > 0 {
      RunStaysBetween(g, n, s, noise, t - 1, low, high);
      ShrunkIsNonNegative(s.Kept(), low, t - 1);
      MaximumPrinciple(Run(g, n, s, noise, t - 1), n, s, noise(t - 1),
                       Shrunk(s.Kept(), low, t - 1), Shrunk(s.Kept(), high, t - 1));
    }
  }

  /** Over `t` silent, windless steps the total shrinks geometrically, and by nothing else. */
  lemma {:induction false} RunConserves(g: Grid, n: nat, s: State, noise: nat -> (nat, nat) -> real, t: nat)
    requires n > 0 && s.NoWind() && s.Stable() && forall k: nat | k < t :: Silent(noise(k), n)
    requires forall i: nat, j: nat | i < n && j < n :: At(g, i, j) >= 0.0
    ensures Total(Run(g, n, s, noise, t), n) == Shrunk(s.Kept(), Total(g, n), t)
  {
    if t > 0 {
      RunConserves(g, n, s, noise, t - 1);
      RunIsNonNegative(g, n, s, noise, t - 1);
      Conservation(Run(g, n, s, noise, t - 1), n, s, noise(t - 1));
    }
  }

  lemma RunIsNonNegative(g: Grid, n: nat, s: State, noise: nat -> (nat, nat) -> real, t: nat)
    requires forall i: nat, j: nat | i < n && j < n :: At(g, i, j) >= 0.0
    ensures forall i: nat, j: nat | i < n && j < n :: At(Run(g, n, s, noise, t), i, j) >= 0.0
  {
    if t > 0 {
      forall i: nat, j: nat | i < n && j < n ensures At(Run(g, n, s, noise, t), i, j) >= 0.0 {
        assert Next(Run(g, n, s, noise, t - 1), n, s, noise(t - 1), i, j) >= 0.0;
      }
    }
  }

  /** Runs with the same noise keep the order of the grids they start from. */
  lemma {:induction false} RunIsMonotone(g: Grid, h: Grid, n: nat, s: State, noise: nat -> (nat, nat) -> real, t: nat)
    requires s.Stable() && Below(g, h, n)
    ensures Below(Run(g, n, s, noise, t), Run(h, n, s, noise, t), n)
  {
    if t > 0 {
      RunIsMonotone(g, h, n, s, noise, t - 1);
      StepIsMonotone(Run(g, n, s, noise, t - 1), Run(h, n, s, noise, t - 1), n, s, noise(t - 1));
    }
  }

  // ----- the arrays -----

  function ViewOf(a: array2<real>): (g: Grid)
    requires a.Length0 == a.Length1
    reads a
    ensures Square(g, a.Length0)
    ensures forall i: nat, j: nat | i < a.Length0 && j < a.Length0 :: At(g, i, j) == a[i, j]
  {
    seq(a.Length0, i requires 0 <= i < a.Length0 reads a =>
      seq(a.Length0, j requires 0 <= j < a.Length0 reads a => a[i, j]))
  }

  lemma SameCells(g: Grid, h: Grid, n: nat)
    requires Square(g, n) && Square(h, n)
    requires forall i: nat, j: nat | i < n && j < n :: At(g, i, j) == At(h, i, j)
    ensures g == h
  {
    forall i | 0 <= i < n ensures g[i] == h[i] {
      forall j | 0 <= j < n ensures g[i][j] == h[i][j] {
        assert At(g, i, j) == At(h, i, j);
      }
    }
  }

  /** The wind's part of a cell's update. */
  method Advect(grid: array2<real>, state: State, i: nat, j: nat) returns (advection: real)
    requires grid.Length0 == grid.Length1 && i < grid.Length0 && j < grid.Length0
    ensures var n := grid.Length0;
      advection ==
        Advection(state.windX, grid[i, j], grid[Low(i), j], grid[High(i, n), j], i > 0, i + 1 < n)
        + Advection(state.windY, grid[i, j], grid[i, Low(j)], grid[i, High(j, n)], j > 0, j + 1 < n)
  {
    var n := grid.Length0;
    var center := grid[i, j];
    advection := 0.0;
    if state.windX > 0.0 && i > 0 {
      advection := advection + state.windX * (center - grid[i - 1, j]);
    } else if state.windX < 0.0 && i < n - 1 {
      advection := advection + state.windX * (grid[i + 1, j] - center);
    }
    if state.windY > 0.0 && j > 0 {
      advection := advection + state.windY * (center - grid[i, j - 1]);
    } else if state.windY < 0.0 && j < n - 1 {
      advection := advection + state.windY * (grid[i, j + 1] - center);
    }
  }

  /** The stencil at a cell of the array. */
  function StencilAt(grid: array2<real>, s: State, i: nat, j: nat): real
    requires grid.Length0 == grid.Length1 && i < grid.Length0 && j < grid.Length0
    reads grid
  {
    var n := grid.Length0;
    Stencil(s, grid[i, j], grid[Low(i), j], grid[High(i, n), j], grid[i, Low(j)], grid[i, High(j, n)],
            i > 0, i + 1 < n, j > 0, j + 1 < n)
  }

  lemma StencilAtIsRaw(grid: array2<real>, s: State, i: nat, j: nat)
    requires grid.Length0 == grid.Length1 && i < grid.Length0 && j < grid.Length0
    ensures StencilAt(grid, s, i, j) == Raw(ViewOf(grid), grid.Length0, s, i, j)
  {
    var g, n := ViewOf(grid), grid.Length0;
    assert At(g, Low(i), j) == grid[Low(i), j] && At(g, High(i, n), j) == grid[High(i, n), j];
    assert At(g, i, Low(j)) == grid[i, Low(j)] && At(g, i, High(j, n)) == grid[i, High(j, n)] &&
      At(g, i, j) == grid[i, j];
  }

  /** The body of the double loop: the new value of one cell. */
  method NewValue(grid: array2<real>, state: State, noise: real, i: nat, j: nat) returns (value: real)
    requires grid.Length0 == grid.Length1 && i < grid.Length0 && j < grid.Length0
    ensures value == Max(0.0, StencilAt(grid, state, i, j) + noise)
  {
    var n := grid.Length0;
    var up, down := grid[Low(i), j], grid[High(i, n), j];
    var left, right := grid[i, Low(j)], grid[i, High(j, n)];
    var center := grid[i, j];
    var laplacian := up + down + left + right - 4.0 * center;
    var advection := Advect(grid, state, i, j);
    var newValue := center + state.diffusion * laplacian - advection - state.decay * center;
    newValue := newValue + noise;
    value := Max(0.0, newValue);
  }

  method DiffusionStep(grid: array2<real>, state: State, noise: (nat, nat) -> real) returns (newGrid: array2<real>)
    requires grid.Length0 == grid.Length1
    ensures fresh(newGrid) && newGrid.Length0 == newGrid.Length1 == grid.Length0
    ensures ViewOf(newGrid) == Step(ViewOf(grid), grid.Length0, state, noise)
  {
    var n := grid.Length0;
    newGrid := new real[n, n]((i, j) => 0.0);
    ghost var g := ViewOf(grid);
    for i := 0 to n
      invariant forall a: nat, b: nat | a < i && b < n :: newGrid[a, b] == Next(g, n, state, noise, a, b)
    {
      for j := 0 to n
        invariant forall a: nat, b: nat | a < i && b < n :: newGrid[a, b] == Next(g, n, state, noise, a, b)
        invariant forall b: nat | b < j :: newGrid[i, b] == Next(g, n, state, noise, i, b)
      {
        var value := NewValue(grid, state, noise(i, j), i, j);
        StencilAtIsRaw(grid, state, i, j);
        newGrid[i, j] := value;
      }
    }
    StepIsUnique(ViewOf(newGrid), g, n, state, noise);
  }

  lemma StepIsUnique(r: Grid, g: Grid, n: nat, s: State, noise: (nat, nat) -> real)
    requires Square(r, n)
    requires forall i: nat, j: nat | i < n && j < n :: At(r, i, j) == Next(g, n, s, noise, i, j)
    ensures r == Step(g, n, s, noise)
  {
    forall i: nat, j: nat | i < n && j < n ensures At(r, i, j) == At(Step(g, n, s, noise), i, j) {
      assert At(Step(g, n, s, noise), i, j) == Next(g, n, s, noise, i, j);
    }
    SameCells(r, Step(g, n, s, noise), n);
  }

  // ----- the simulation around the step -----

  datatype Source = Source(x: int, y: int, intensity: real, radius: real) {
    function Times(k: real): Source { this.(intensity := k * intensity) }

    predicate OnGrid(n: nat) { 0 <= x < n && 0 <= y < n }

    function DistanceSquared(i: nat, j: nat): real { ((i - x) * (i - x) + (j - y) * (j - y)) as real }

    /** Not further away than three radii. */
    predicate Reaches(i: nat, j: nat) { radius >= 0.0 && DistanceSquared(i, j) <= 9.0 * radius * radius }

    /** `bell(d, r)` stands for the exponential of `-d / (2 r * r)`. */
    function Contribution(i: nat, j: nat, bell: (real, real) -> real): real {
      intensity * bell(DistanceSquared(i, j), radius)
    }
  }

  /** What a source deposits in one cell, if it lies on the grid. */
  ghost function Deposit(s: Source, n: nat, bell: (real, real) -> real, i: nat, j: nat): real {
    var d :| d == if s.OnGrid(n) && s.Reaches(i, j) then s.Contribution(i, j, bell) else 0.0;
    d
  }

  /** What the sources deposit in one cell together. */
  ghost function Deposited(sources: seq<Source>, n: nat, bell: (real, real) -> real, i: nat, j: nat): real {
    if sources == [] then 0.0
    else
      Deposited(sources[..|sources| - 1], n, bell, i, j) + Deposit(sources[|sources| - 1], n, bell, i, j)
  }

  lemma DepositIs(s: Source, n: nat, bell: (real, real) -> real, i: nat, j: nat, contribution: real)
    requires s.Reaches(i, j) ==> contribution == s.Contribution(i, j, bell)
    ensures Deposit(s, n, bell, i, j) == if s.OnGrid(n) && s.Reaches(i, j) then contribution else 0.0
  {
  }

  /** A single source: nothing if it is off the grid or the cell further away than three radii, and
      else its intensity times the bell at the distance. */
  lemma OneSourceDeposits(s: Source, n: nat, bell: (real, real) -> real, i: nat, j: nat, squared: real)
    requires squared == ((i - s.x) * (i - s.x) + (j - s.y) * (j - s.y)) as real
    ensures Deposit(s, n, bell, i, j) ==
      if 0 <= s.x < n && 0 <= s.y < n && s.radius >= 0.0 && squared <= 9.0 * s.radius * s.radius
      then s.intensity * bell(squared, s.radius)
      else 0.0
  {
    DepositIs(s, n, bell, i, j, s.Contribution(i, j, bell));
  }

  /** A source deposits alike on all sides: in cells as far away from it, as much. */
  lemma DepositIsSymmetric(s: Source, n: nat, bell: (real, real) -> real, i: nat, j: nat, k: nat, l: nat)
    requires (i - s.x) * (i - s.x) + (j - s.y) * (j - s.y) == (k - s.x) * (k - s.x) + (l - s.y) * (l - s.y)
    ensures Deposit(s, n, bell, i, j) == Deposit(s, n, bell, k, l)
  {
    var squared := ((i - s.x) * (i - s.x) + (j - s.y) * (j - s.y)) as real;
    OneSourceDeposits(s, n, bell, i, j, squared);
    OneSourceDeposits(s, n, bell, k, l, squared);
  }

  /** What two groups of sources deposit adds up. */
  lemma {:induction false} DepositsAdd(some: seq<Source>, others: seq<Source>, n: nat, bell: (real, real) -> real,
      i: nat, j: nat)
    ensures Deposited(some + others, n, bell, i, j) ==
      Deposited(some, n, bell, i, j) + Deposited(others, n, bell, i, j)
  {
    if others == [] {
      assert some + others == some;
    } else {
      var k := |others| - 1;
      DepositsAdd(some, others[..k], n, bell, i, j);
      assert (some + others)[..|some| + k] == some + others[..k];
    }
  }

  /** The sources with their intensities multiplied. */
  function Louder(sources: seq<Source>, k: real): seq<Source> {
    seq(|sources|, i requires 0 <= i < |sources| => sources[i].Times(k))
  }

  lemma {:induction false} DepositsFollow(before: seq<Source>, after: seq<Source>, push: real -> real, n: nat,
      bell: (real, real) -> real, i: nat, j: nat)
    requires |before| == |after| && Additive(push)
    requires forall k | 0 <= k < |before| :: Deposit(after[k], n, bell, i, j) == push(Deposit(before[k], n, bell, i, j))
    ensures Deposited(after, n, bell, i, j) == push(Deposited(before, n, bell, i, j))
  {
    if before == [] {
      assert AddsAt(push, 0.0, 0.0);
    } else {
      var k := |before| - 1;
      DepositsFollow(before[..k], after[..k], push, n, bell, i, j);
      assert AddsAt(push, Deposited(before[..k], n, bell, i, j), Deposit(before[k], n, bell, i, j));
    }
  }

  /** Deposits scale with the intensities. */
  lemma DepositsScale(sources: seq<Source>, k: real, n: nat, bell: (real, real) -> real, i: nat, j: nat)
    ensures Deposited(Louder(sources, k), n, bell, i, j) == k * Deposited(sources, n, bell, i, j)
  {
    var louder, push := Louder(sources, k), Times(k);
    assert Deposited(louder, n, bell, i, j) == push(Deposited(sources, n, bell, i, j)) by {
      TimesIsAdditive(k);
      forall m | 0 <= m < |sources|
        ensures Deposit(louder[m], n, bell, i, j) == push(Deposit(sources[m], n, bell, i, j))
      {
        DepositScales(sources[m], k, n, bell, i, j);
      }
      DepositsFollow(sources, louder, push, n, bell, i, j);
    }
  }

  lemma DepositScales(s: Source, k: real, n: nat, bell: (real, real) -> real, i: nat, j: nat)
    ensures Deposit(s.Times(k), n, bell, i, j) == Times(k)(Deposit(s, n, bell, i, j))
  {
    var squared := ((i - s.x) * (i - s.x) + (j - s.y) * (j - s.y)) as real;
    OneSourceDeposits(s, n, bell, i, j, squared);
    OneSourceDeposits(s.Times(k), n, bell, i, j, squared);
    Associate(k, s.intensity, bell(squared, s.radius));
  }

  lemma Associate(k: real, x: real, y: real)
    ensures k * x * y == k * (x * y)
  {
  }

  lemma {:induction false} DepositIsNonNegative(sources: seq<Source>, n: nat, bell: (real, real) -> real,
      i: nat, j: nat)
    requires (forall s | s in sources :: s.intensity >= 0.0) && forall d, r :: bell(d, r) >= 0.0
    ensures Deposited(sources, n, bell, i, j) >= 0.0
  {
    if sources != [] {
      var last := sources[|sources| - 1];
      assert last in sources;
      DepositIsNonNegative(sources[..|sources| - 1], n, bell, i, j);
      ProductIsNonNegative(last.intensity, bell(last.DistanceSquared(i, j), last.radius),
        last.Contribution(i, j, bell));
      DepositIs(last, n, bell, i, j, last.Contribution(i, j, bell));
    }
  }

  /** The source adds its contribution to every cell in reach; `before` are the sources
      already on the grid. */
  method AddSource(grid: array2<real>, source: Source, bell: (real, real) -> real, ghost before: seq<Source>)
    requires grid.Length0 == grid.Length1
    requires forall i: nat, j: nat | i < grid.Length0 && j < grid.Length0 ::
      grid[i, j] == Deposited(before, grid.Length0, bell, i, j)
    modifies grid
    ensures forall i: nat, j: nat | i < grid.Length0 && j < grid.Length0 ::
      grid[i, j] == Deposited(before + [source], grid.Length0, bell, i, j)
  {
    var n := grid.Length0;
    ghost var after := before + [source];
    assert after[..|before|] == before;
    if source.OnGrid(n) {
      for i := 0 to n
        invariant forall a: nat, b: nat | a < n && b < n ::
          grid[a, b] == Deposited(if a < i then after else before, n, bell, a, b)
      {
        for j := 0 to n
          invariant forall a: nat, b: nat | a < n && b < n ::
            grid[a, b] == Deposited(if a < i || (a == i && b < j) then after else before, n, bell, a, b)
        {
          if source.Reaches(i, j) {
            var contribution := source.Contribution(i, j, bell);
            DepositIs(source, n, bell, i, j, contribution);
            grid[i, j] := grid[i, j] + contribution;
          } else {
            DepositIs(source, n, bell, i, j, 0.0);
          }
        }
      }
    }
  }

  method InitializeGrid(n: nat, sources: seq<Source>, bell: (real, real) -> real) returns (grid: array2<real>)
    ensures fresh(grid) && grid.Length0 == grid.Length1 == n
    ensures forall i: nat, j: nat | i < n && j < n :: grid[i, j] == Deposited(sources, n, bell, i, j)
  {
    grid := new real[n, n]((i, j) => 0.0);
    for k := 0 to |sources|
      invariant forall i: nat, j: nat | i < n && j < n :: grid[i, j] == Deposited(sources[..k], n, bell, i, j)
    {
      AddSource(grid, sources[k], bell, sources[..k]);
      assert sources[..k + 1] == sources[..k] + [sources[k]];
    }
    assert sources[..|sources|] == sources;
  }

  // ----- what is recorded -----

  /** The largest of the first `k` cells of a row. */
  function RowMax(g: Grid, i: nat, k: nat): (x: real)
    requires k > 0
    ensures (exists j: nat :: j < k && x == At(g, i, j)) && forall j: nat | j < k :: At(g, i, j) <= x
  {
    if k == 1 then At(g, i, 0) else Max(RowMax(g, i, k - 1), At(g, i, k - 1))
  }

  /** The largest cell of the first `k` rows. */
  function GridMax(g: Grid, n: nat, k: nat): (x: real)
    requires n > 0 && k > 0
    ensures exists i: nat, j: nat :: i < k && j < n && x == At(g, i, j)
    ensures forall i: nat, j: nat | i < k && j < n :: At(g, i, j) <= x
  {
    if k == 1 then RowMax(g, 0, n) else Max(GridMax(g, n, k - 1), RowMax(g, k - 1, n))
  }

  function Mean(g: Grid, n: nat): real
    requires n > 0
  {
    Total(g, n) / (n * n) as real
  }

  /** One recorded point of the trajectory. */
  datatype Snapshot = Snapshot(step: nat, greatest: real, mean: real)

  function SnapshotOf(t: nat, g: Grid, n: nat): Snapshot
    requires n > 0
  {
    Snapshot(t, GridMax(g, n, n), Mean(g, n))
  }

  /** The trajectory holds the figures of every tenth step, after it was taken. */
  ghost predicate Records(trajectory: seq<Snapshot>, initial: Grid, n: nat, s: State, noise: nat -> (nat, nat) -> real)
    requires n > 0
  {
    forall k | 0 <= k < |trajectory| :: trajectory[k] == SnapshotOf(10 * k, Run(initial, n, s, noise, 10 * k + 1), n)
  }

  lemma {:induction false} OneMoreRecord(trajectory: seq<Snapshot>, initial: Grid, n: nat, s: State,
      noise: nat -> (nat, nat) -> real, t: nat)
    requires n > 0 && Records(trajectory, initial, n, s, noise) && t == 10 * |trajectory|
    ensures Records(trajectory + [SnapshotOf(t, Run(initial, n, s, noise, t + 1), n)], initial, n, s, noise)
  {
  }

  lemma Tens(t: nat)
    ensures (t + 10) / 10 == (t + 9) / 10 + if t % 10 == 0 then 1 else 0
    ensures t % 10 == 0 ==> t == 10 * ((t + 9) / 10)
  {
  }

  method Figures(grid: array2<real>, t: nat) returns (snapshot: Snapshot)
    requires grid.Length0 == grid.Length1 > 0
    ensures snapshot == SnapshotOf(t, ViewOf(grid), grid.Length0)
  {
    snapshot := SnapshotOf(t, ViewOf(grid), grid.Length0);
  }

  /** The step loop: the final grid is the run's, and every tenth step is recorded. */
  method Simulate(n: nat, sources: seq<Source>, bell: (real, real) -> real, state: State, steps: nat,
      noise: nat -> (nat, nat) -> real)
    returns (grid: array2<real>, trajectory: seq<Snapshot>, ghost initial: Grid)
    requires n > 0
    ensures grid.Length0 == grid.Length1 == n && Square(initial, n)
    ensures forall i: nat, j: nat | i < n && j < n :: At(initial, i, j) == Deposited(sources, n, bell, i, j)
    ensures ViewOf(grid) == Run(initial, n, state, noise, steps)
    ensures |trajectory| == (steps + 9) / 10
    ensures Records(trajectory, initial, n, state, noise)
  {
    grid := InitializeGrid(n, sources, bell);
    initial, trajectory := ViewOf(grid), [];
    for t := 0 to steps
      invariant grid.Length0 == grid.Length1 == n
      invariant ViewOf(grid) == Run(initial, n, state, noise, t)
      invariant |trajectory| == (t + 9) / 10
      invariant Records(trajectory, initial, n, state, noise)
    {
      grid := DiffusionStep(grid, state, noise(t));
      Tens(t);
      if t % 10 == 0 {
        var snapshot := Figures(grid, t);
        OneMoreRecord(trajectory, initial, n, state, noise, t);
        trajectory := trajectory + [snapshot];
      }
    }
  }

  lemma {:induction false} ShrunkQuotient(k: real, v: real, d: real, t: nat)
    requires d > 0.0
    ensures Shrunk(k, v, t) / d == Shrunk(k, v / d, t)
  {
    if t > 0 {
      ShrunkQuotient(k, v, d, t - 1);
      QuotientOfProduct(k, Shrunk(k, v, t - 1), d);
    }
  }

  lemma QuotientOfProduct(k: real, x: real, d: real)
    requires d > 0.0
    ensures (k * x) / d == k * (x / d)
  {
    var q := x / d;
    assert q * d == x;
    assert (k * q) * d == k * x;
  }

  /** Without wind and noise, what a simulation records falls geometrically: the mean by exactly
      what decay takes, and the maximum by no less. */
  lemma RecordedFigures(sources: seq<Source>, n: nat, bell: (real, real) -> real, initial: Grid, s: State,
                        noise: nat -> (nat, nat) -> real, t: nat)
    requires n > 0 && s.NoWind() && s.Stable() && forall k: nat | k < t :: Silent(noise(k), n)
    requires (forall x | x in sources :: x.intensity >= 0.0) && forall d, r :: bell(d, r) >= 0.0
    requires forall i: nat, j: nat | i < n && j < n :: At(initial, i, j) == Deposited(sources, n, bell, i, j)
    ensures var then_ := Run(initial, n, s, noise, t);
      && Mean(then_, n) == Shrunk(s.Kept(), Mean(initial, n), t)
      && 0.0 <= GridMax(then_, n, n) <= Shrunk(s.Kept(), GridMax(initial, n, n), t)
  {
    forall i: nat, j: nat | i < n && j < n
      ensures At(initial, i, j) >= 0.0
    {
      DepositIsNonNegative(sources, n, bell, i, j);
    }
    RunConserves(initial, n, s, noise, t);
    ShrunkQuotient(s.Kept(), Total(initial, n), (n * n) as real, t);
    RunStaysBetween(initial, n, s, noise, t, 0.0, GridMax(initial, n, n));
    ShrunkIsNonNegative(s.Kept(), 0.0, t);
  }
}
