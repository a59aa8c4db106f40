/** `services/optimizer/benchmarks/problems.py`: quasi-uniform points on the unit simplex. */
module Simplex {
  /** Binomial coefficients, by Pascal's rule. */
  function Binom(n: nat, k: nat): nat {
    if k == 0 then 1 else if n == 0 then 0 else Binom(n - 1, k - 1) + Binom(n - 1, k)
  }

  lemma {:induction false} BinomIsZero(n: nat, k: nat)
    requires k > n
    ensures Binom(n, k) == 0
  {
    if n > 0 {
      BinomIsZero(n - 1, k - 1);
      BinomIsZero(n - 1, k);
    }
  }

  lemma {:induction false} BinomIsPositive(n: nat, k: nat)
    requires k <= n
    ensures Binom(n, k) >= 1
  {
    if k > 0 { BinomIsPositive(n - 1, k - 1); }
  }

  /** The number of points a grid with `divisions` steps puts on the simplex. */
  function GridSize(divisions: nat, m: nat): nat
    requires m >= 1
  {
    Binom(divisions + m - 1, m - 1)
  }

  /** From two objectives on, more divisions mean more points: the search for enough ends. */
  lemma GridGrows(divisions: nat, m: nat)
    requires m >= 2
    ensures GridSize(divisions, m) < GridSize(divisions + 1, m)
  {
    BinomIsPositive(divisions + m - 1, m - 2);
  }

  // ----- compositions -----

  function Total(c: seq<nat>): nat { if c == [] then 0 else c[0] + Total(c[1..]) }

  /** `c` divides `total` into `parts` shares. */
  predicate IsComposition(c: seq<nat>, total: nat, parts: nat) { |c| == parts && Total(c) == total }

  function Prefixed(value: nat, rest: seq<seq<nat>>): (r: seq<seq<nat>>)
    ensures |r| == |rest| && forall k | 0 <= k < |r| :: r[k] == [value] + rest[k]
  {
    seq(|rest|, k requires 0 <= k < |rest| => [value] + rest[k])
  }

  /** The compositions of `remaining`, smallest first share first. */
  function Compositions(remaining: nat, parts: nat): seq<seq<nat>>
    requires parts >= 1
    decreases parts, remaining + 2
  {
    if parts == 1 then [[remaining]] else StartingBelow(remaining, parts, remaining + 1)
  }

  /** Those whose first share is below `bound`. */
  function StartingBelow(remaining: nat, parts: nat, bound: nat): seq<seq<nat>>
    requires parts >= 2 && bound <= remaining + 1
    decreases parts, bound
  {
    if bound == 0 then []
    else StartingBelow(remaining, parts, bound - 1)
         + Prefixed(bound - 1, Compositions(remaining - (bound - 1), parts - 1))
  }

  /** Each element is a composition whose first share is below `bound`. */
  lemma {:induction false} StartingBelowIsSound(remaining: nat, parts: nat, bound: nat)
    requires parts >= 2 && bound <= remaining + 1
    ensures forall c | c in StartingBelow(remaining, parts, bound) :: IsComposition(c, remaining, parts) && c[0] < bound
    decreases parts, bound
  {
    if bound > 0 {
      var value := bound - 1;
      StartingBelowIsSound(remaining, parts, value);
      CompositionsAreSound(remaining - value, parts - 1);
      var rest := Compositions(remaining - value, parts - 1);
      forall k | 0 <= k < |rest| ensures IsComposition(Prefixed(value, rest)[k], remaining, parts) {
        assert rest[k] in rest;
        assert ([value] + rest[k])[1..] == rest[k];
      }
    }
  }

  lemma {:induction false} CompositionsAreSound(remaining: nat, parts: nat)
    requires parts >= 1
    ensures forall c | c in Compositions(remaining, parts) :: IsComposition(c, remaining, parts)
    decreases parts, remaining + 2
  {
    if parts == 1 {
      assert Total([remaining]) == remaining + Total([]);
    } else {
      StartingBelowIsSound(remaining, parts, remaining + 1);
    }
  }

  lemma {:induction false} StartingBelowIsComplete(remaining: nat, parts: nat, bound: nat, c: seq<nat>)
    requires parts >= 2 && bound <= remaining + 1 && IsComposition(c, remaining, parts) && c[0] < bound
    ensures c in StartingBelow(remaining, parts, bound)
    decreases parts, bound
  {
    if c[0] < bound - 1 {
      StartingBelowIsComplete(remaining, parts, bound - 1, c);
    } else {
      var rest := Compositions(remaining - (bound - 1), parts - 1);
      CompositionsAreComplete(remaining - (bound - 1), parts - 1, c[1..]);
      var k :| 0 <= k < |rest| && rest[k] == c[1..];
      assert c == [bound - 1] + rest[k] == Prefixed(bound - 1, rest)[k];
    }
  }

  lemma {:induction false} CompositionsAreComplete(remaining: nat, parts: nat, c: seq<nat>)
    requires parts >= 1 && IsComposition(c, remaining, parts)
    ensures c in Compositions(remaining, parts)
    decreases parts, remaining + 2
  {
    if parts == 1 {
      assert c == [c[0]] && c[1..] == [];
      assert Total(c) == c[0] + Total([]);
    } else {
      StartingBelowIsComplete(remaining, parts, remaining + 1, c);
    }
  }

  ghost predicate Distinct<T>(s: seq<T>) { forall i, j | 0 <= i < j < |s| :: s[i] != s[j] }

  lemma {:induction false} StartingBelowIsDistinct(remaining: nat, parts: nat, bound: nat)
    requires parts >= 2 && bound <= remaining + 1
    ensures Distinct(StartingBelow(remaining, parts, bound))
    decreases parts, bound
  {
    if bound > 0 {
      var before := StartingBelow(remaining, parts, bound - 1);
      var rest := Compositions(remaining - (bound - 1), parts - 1);
      StartingBelowIsDistinct(remaining, parts, bound - 1);
      StartingBelowIsSound(remaining, parts, bound - 1);
      CompositionsAreDistinct(remaining - (bound - 1), parts - 1);
      assert StartingBelow(remaining, parts, bound) == before + Prefixed(bound - 1, rest);
      BlockIsDistinct(before, bound - 1, rest);
    }
  }

  lemma BlockIsDistinct(before: seq<seq<nat>>, value: nat, rest: seq<seq<nat>>)
    requires Distinct(before) && Distinct(rest)
    requires forall c | c in before :: |c| > 0 && c[0] < value
    ensures Distinct(before + Prefixed(value, rest))
  {
    var all, n := before + Prefixed(value, rest), |before|;
    forall i, j | 0 <= i < j < |all| ensures all[i] != all[j] {
      if j < n {
        assert all[i] == before[i] && all[j] == before[j];
      } else if i < n {
        assert all[i] == before[i] && before[i] in before && all[j][0] == value;
      } else {
        assert all[i][1..] == rest[i - n] && all[j][1..] == rest[j - n];
      }
    }
  }

  lemma {:induction false} CompositionsAreDistinct(remaining: nat, parts: nat)
    requires parts >= 1
    ensures Distinct(Compositions(remaining, parts))
    decreases parts, remaining + 2
  {
    if parts >= 2 { StartingBelowIsDistinct(remaining, parts, remaining + 1); }
  }

  /** The sampler visits each composition of `remaining` exactly once. */
  lemma EachCompositionOnce(remaining: nat, parts: nat)
    requires parts >= 1
    ensures Distinct(Compositions(remaining, parts))
    ensures forall c :: c in Compositions(remaining, parts) <==> IsComposition(c, remaining, parts)
  {
    CompositionsAreDistinct(remaining, parts);
    CompositionsAreSound(remaining, parts);
    forall c | IsComposition(c, remaining, parts) ensures c in Compositions(remaining, parts) {
      CompositionsAreComplete(remaining, parts, c);
    }
  }

  /** The hockey-stick identity: what starts below `bound` is all but what starts at or above it. */
  lemma {:induction false} StartingBelowCount(remaining: nat, parts: nat, bound: nat)
    requires parts >= 2 && bound <= remaining + 1
    ensures |StartingBelow(remaining, parts, bound)| + Binom(remaining + parts - 1 - bound, parts - 1)
      == Binom(remaining + parts - 1, parts - 1)
    decreases parts, bound
  {
    if bound > 0 {
      StartingBelowCount(remaining, parts, bound - 1);
      CompositionCount(remaining - (bound - 1), parts - 1);
      assert Binom(remaining + parts - bound, parts - 1) ==
        Binom(remaining + parts - 1 - bound, parts - 2) + Binom(remaining + parts - 1 - bound, parts - 1);
    }
  }

  /** There are as many compositions as the binomial coefficient the search computes. */
  lemma {:induction false} CompositionCount(remaining: nat, parts: nat)
    requires parts >= 1
    ensures |Compositions(remaining, parts)| == Binom(remaining + parts - 1, parts - 1)
    decreases parts, remaining + 2
  {
    if parts >= 2 {
      StartingBelowCount(remaining, parts, remaining + 1);
      BinomIsZero(parts - 2, parts - 1);
    }
  }

  // ----- points -----

  /** Every share as a fraction of `divisions`. */
  function Shares(c: seq<nat>, divisions: nat): (p: seq<real>)
    requires divisions >= 1
    ensures |p| == |c| && forall k | 0 <= k < |c| :: p[k] == c[k] as real / divisions as real
  {
    seq(|c|, k requires 0 <= k < |c| => c[k] as real / divisions as real)
  }

  /** `current` continued by each of the compositions. */
  function Continued(current: seq<real>, compositions: seq<seq<nat>>, divisions: nat): (r: seq<seq<real>>)
    requires divisions >= 1
    ensures |r| == |compositions| && forall k | 0 <= k < |r| :: r[k] == current + Shares(compositions[k], divisions)
  {
    seq(|compositions|, k requires 0 <= k < |compositions| => current + Shares(compositions[k], divisions))
  }

  ghost function Points(divisions: nat, m: nat): seq<seq<real>>
    requires divisions >= 1 && m >= 1
  {
    Continued([], Compositions(divisions, m), divisions)
  }

  lemma ContinuedPrefix(current: seq<real>, value: nat, rest: seq<seq<nat>>, divisions: nat)
    requires divisions >= 1
    ensures Continued(current + [value as real / divisions as real], rest, divisions)
      == Continued(current, Prefixed(value, rest), divisions)
  {
    var share := value as real / divisions as real;
    forall k | 0 <= k < |rest|
      ensures (current + [share]) + Shares(rest[k], divisions) == current + Shares([value] + rest[k], divisions)
    {
      assert Shares([value] + rest[k], divisions) == [share] + Shares(rest[k], divisions);
    }
  }

  lemma ContinuedAppend(current: seq<real>, first: seq<seq<nat>>, second: seq<seq<nat>>, divisions: nat)
    requires divisions >= 1
    ensures Continued(current, first + second, divisions)
      == Continued(current, first, divisions) + Continued(current, second, divisions)
  {
  }

  class Sampler {
    var points: seq<seq<real>>
    const divisions: nat
    const objectives: nat

    constructor (divisions: nat, objectives: nat)
      ensures this.divisions == divisions && this.objectives == objectives && points == []
    {
      this.divisions, this.objectives, points := divisions, objectives, [];
    }

    /** Appends `current` continued in every possible way, in order. */
    method Recurse(remaining: nat, depth: nat, current: seq<real>)
      requires divisions >= 1 && depth < objectives
      modifies this
      ensures points == old(points) + Continued(current, Compositions(remaining, objectives - depth), divisions)
      decreases objectives - depth
    {
      if depth == objectives - 1 {
        points := points + [current + [remaining as real / divisions as real]];
        assert Shares([remaining], divisions) == [remaining as real / divisions as real];
        return;
      }
      ghost var parts := objectives - depth;
      for value := 0 to remaining + 1
        invariant points == old(points) + Continued(current, StartingBelow(remaining, parts, value), divisions)
      {
        Recurse(remaining - value, depth + 1, current + [value as real / divisions as real]);
        ContinuedPrefix(current, value, Compositions(remaining - value, parts - 1), divisions);
        ContinuedAppend(current, StartingBelow(remaining, parts, value),
                        Prefixed(value, Compositions(remaining - value, parts - 1)), divisions);
      }
    }
  }

  /** `numpy.linspace(0, 1, n)` at `k`. */
  function Spaced(n: nat, k: nat): real
    requires k < n
  {
    if n == 1 then 0.0 else k as real / (n - 1) as real
  }

  /** The divisions the search stops at: the least positive number giving at least `n` points. */
  ghost predicate IsLeast(divisions: nat, n: nat, m: nat)
    requires m >= 1
  {
    && divisions >= 1 && GridSize(divisions, m) >= n
    && forall d: nat {:trigger GridSize(d, m)} | 1 <= d < divisions :: GridSize(d, m) < n
  }

  method SimplexWeights(n: nat, m: nat) returns (points: seq<seq<real>>, ghost divisions: nat)
    requires m >= 2
    ensures m == 2 ==> |points| == n && forall k | 0 <= k < n :: points[k] == [Spaced(n, k), 1.0 - Spaced(n, k)]
    ensures m > 2 ==> IsLeast(divisions, n, m) && points == Points(divisions, m)
  {
    divisions := 1;
    if m == 2 {
      points := seq(n, k requires 0 <= k < n => [Spaced(n, k), 1.0 - Spaced(n, k)]);
      return;
    }
    var d := 1;
    while GridSize(d, m) < n
      invariant d >= 1
      invariant forall e: nat {:trigger GridSize(e, m)} | 1 <= e < d :: GridSize(e, m) < n
      decreases n - GridSize(d, m)
    {
      GridGrows(d, m);
      d := d + 1;
    }
    var sampler := new Sampler(d, m);
    sampler.Recurse(d, 0, []);
    points, divisions := sampler.points, d;
  }

  // ----- what the sample is -----

  function SumOf(p: seq<real>): real { if p == [] then 0.0 else p[0] + SumOf(p[1..]) }

  lemma {:induction false} SharesSum(c: seq<nat>, divisions: nat)
    requires divisions >= 1
    ensures SumOf(Shares(c, divisions)) == Total(c) as real / divisions as real
  {
    if c != [] {
      SharesSum(c[1..], divisions);
      assert Shares(c, divisions)[1..] == Shares(c[1..], divisions);
      AddQuotients(c[0] as real, Total(c[1..]) as real, divisions as real);
    }
  }

  lemma AddQuotients(x: real, y: real, d: real)
    requires d > 0.0
    ensures x / d + y / d == (x + y) / d
  {
  }

  lemma QuotientIsInjective(x: nat, y: nat, d: nat)
    requires d >= 1 && x as real / d as real == y as real / d as real
    ensures x == y
  {
    assert x as real == (x as real / d as real) * d as real;
    assert y as real == (y as real / d as real) * d as real;
  }

  lemma SharesAreInjective(a: seq<nat>, b: seq<nat>, divisions: nat)
    requires divisions >= 1 && Shares(a, divisions) == Shares(b, divisions)
    ensures a == b
  {
    forall k | 0 <= k < |a| ensures a[k] == b[k] {
      assert Shares(a, divisions)[k] == Shares(b, divisions)[k];
      QuotientIsInjective(a[k], b[k], divisions);
    }
  }

  /** `p` has `m` non-negative coordinates summing to one. */
  ghost predicate OnSimplex(p: seq<real>, m: nat) {
    |p| == m && SumOf(p) == 1.0 && forall k | 0 <= k < m :: p[k] >= 0.0
  }

  lemma Quotient(x: nat, d: nat)
    requires d >= 1
    ensures x as real / d as real >= 0.0 && d as real / d as real == 1.0
  {
  }

  lemma SharesAreOnTheSimplex(c: seq<nat>, divisions: nat, m: nat)
    requires divisions >= 1 && IsComposition(c, divisions, m)
    ensures OnSimplex(Shares(c, divisions), m)
  {
    SharesSum(c, divisions);
    forall k | 0 <= k < m ensures Shares(c, divisions)[k] >= 0.0 { Quotient(c[k], divisions); }
    Quotient(0, divisions);
  }

  lemma PointsAreOnTheSimplex(divisions: nat, m: nat, k: nat)
    requires divisions >= 1 && m >= 1 && k < |Points(divisions, m)|
    ensures OnSimplex(Points(divisions, m)[k], m)
  {
    var c := Compositions(divisions, m)[k];
    CompositionsAreSound(divisions, m);
    assert c in Compositions(divisions, m);
    assert Points(divisions, m)[k] == Shares(c, divisions);
    SharesAreOnTheSimplex(c, divisions, m);
  }

  lemma PointsAreComplete(divisions: nat, m: nat, c: seq<nat>)
    requires divisions >= 1 && m >= 1 && IsComposition(c, divisions, m)
    ensures Shares(c, divisions) in Points(divisions, m)
  {
    var compositions := Compositions(divisions, m);
    CompositionsAreComplete(divisions, m, c);
    var k :| 0 <= k < |compositions| && compositions[k] == c;
    assert Points(divisions, m)[k] == Shares(c, divisions);
  }

  /** The sample has the binomial number of points, all different, each on the simplex; and every
      division of the whole into `m` shares of so many `divisions`-ths is among them. */
  lemma SampleIsTheGrid(divisions: nat, m: nat)
    requires divisions >= 1 && m >= 1
    ensures |Points(divisions, m)| == GridSize(divisions, m)
    ensures Distinct(Points(divisions, m))
    ensures forall p | p in Points(divisions, m) :: OnSimplex(p, m)
    ensures forall c | IsComposition(c, divisions, m) :: Shares(c, divisions) in Points(divisions, m)
  {
    CompositionCount(divisions, m);
    CompositionsAreDistinct(divisions, m);
    PointsAreDistinct(Compositions(divisions, m), divisions);
    forall k | 0 <= k < |Points(divisions, m)| ensures OnSimplex(Points(divisions, m)[k], m) {
      PointsAreOnTheSimplex(divisions, m, k);
    }
    forall c | IsComposition(c, divisions, m) ensures Shares(c, divisions) in Points(divisions, m) {
      PointsAreComplete(divisions, m, c);
    }
  }

  lemma PointsAreDistinct(compositions: seq<seq<nat>>, divisions: nat)
    requires divisions >= 1 && Distinct(compositions)
    ensures Distinct(Continued([], compositions, divisions))
  {
    var points := Continued([], compositions, divisions);
    forall i, j | 0 <= i < j < |points| ensures points[i] != points[j] {
      assert points[i] == Shares(compositions[i], divisions) && points[j] == Shares(compositions[j], divisions);
      if points[i] == points[j] { SharesAreInjective(compositions[i], compositions[j], divisions); }
    }
  }

  lemma {:induction false} GridIsMonotone(d: nat, e: nat, m: nat)
    requires m >= 2 && d <= e
    ensures GridSize(d, m) <= GridSize(e, m)
  {
    if d < e {
      GridIsMonotone(d, e - 1, m);
      GridGrows(e - 1, m);
    }
  }

  /** The grid is not trimmed to the requested count: exactly the requests that some grid with
      a positive number of divisions meets exactly are answered with as many points. */
  lemma SampleSizeIsTheRequest(divisions: nat, n: nat, m: nat)
    requires m >= 2 && IsLeast(divisions, n, m)
    ensures |Points(divisions, m)| == n <==> exists d: nat :: d >= 1 && GridSize(d, m) == n
  {
    CompositionCount(divisions, m);
    if d: nat :| d >= 1 && GridSize(d, m) == n {
      GridIsMonotone(divisions, d, m);
    }
  }

  /** Four points on three objectives are answered with six. */
  lemma FourBecomeSix()
    ensures IsLeast(2, 4, 3) && |Points(2, 3)| == 6
  {
    SampleIsTheGrid(2, 3);
    assert Binom(2, 1) == 2 && Binom(3, 1) == 3;
    assert Binom(3, 2) == 3 && Binom(4, 2) == 6;
    forall d: nat | 1 <= d < 2 ensures GridSize(d, 3) < 4 {
      assert d == 1;
    }
  }
}
