/** `services/optimizer/benchmarks/problems.py`: the DTLZ objectives and the fronts they are
    measured against. */
module Dtlz {
  import opened Arithmetic
  import opened Sums
  import Dominance
  import Simplex

  /** `top` times the first `k` factors: what the inner loop accumulates. */
  function Running(top: real, head: nat -> real, k: nat): real {
    if k == 0 then top else Running(top, head, k - 1) * head(k - 1)
  }

  /** Objective `i` of `m`: the leading `m - 1 - i` factors, and from the second objective on
      the complement of the factor that the one before still had. */
  function Objective(top: real, head: nat -> real, complement: nat -> real, m: nat, i: nat): real
    requires i < m
  {
    var product := Running(top, head, m - 1 - i);
    if i > 0 then product * complement(m - 1 - i) else product
  }

  function Objectives(top: real, head: nat -> real, complement: nat -> real, m: nat): (v: seq<real>)
    ensures |v| == m && forall i | 0 <= i < m :: v[i] == Objective(top, head, complement, m, i)
  {
    seq(m, i requires 0 <= i < m => Objective(top, head, complement, m, i))
  }

  function Coordinate(x: seq<real>): nat -> real { (j: nat) => if j < |x| then x[j] else 0.0 }

  /** `f` of each coordinate. */
  function Through(f: real -> real, x: seq<real>): nat -> real { (j: nat) => f(if j < |x| then x[j] else 0.0) }

  function Rest(x: seq<real>): nat -> real { (j: nat) => 1.0 - Coordinate(x)(j) }

  // ----- distance functions -----

  function SphereTerm(t: real): real { (t - 0.5) * (t - 0.5) }

  function Sphere(tail: seq<real>): real { Sum(Through(SphereTerm, tail), |tail|) }

  /** One summand; `cosine(u)` stands for `cos(20 pi u)`. */
  function RastriginTerm(cosine: real -> real, t: real): real { (t - 0.5) * (t - 0.5) - cosine(t - 0.5) }

  function Rastrigin(tail: seq<real>, cosine: real -> real): real {
    100.0 * (|tail| as real + Sum(Through((t: real) => RastriginTerm(cosine, t), tail), |tail|))
  }

  ghost predicate CosineBounded(cosine: real -> real) {
    cosine(0.0) == 1.0 && forall u :: cosine(u) <= 1.0
  }

  lemma SquareIsNonNegative(x: real)
    ensures x * x >= 0.0
  {
  }

  lemma {:induction false} RastriginPrefix(tail: seq<real>, cosine: real -> real, k: nat)
    requires CosineBounded(cosine) && k <= |tail|
    ensures Sum(Through((t: real) => RastriginTerm(cosine, t), tail), k) >= -(k as real)
    ensures (forall j | 0 <= j < k :: tail[j] == 0.5) ==>
      Sum(Through((t: real) => RastriginTerm(cosine, t), tail), k) == -(k as real)
  {
    if k > 0 {
      RastriginPrefix(tail, cosine, k - 1);
      SquareIsNonNegative(tail[k - 1] - 0.5);
    }
  }

  /** Both distances are non-negative, and zero in the middle of the tail's box. */
  lemma DistancesAreNonNegative(tail: seq<real>, cosine: real -> real)
    requires CosineBounded(cosine)
    ensures Sphere(tail) >= 0.0 && Rastrigin(tail, cosine) >= 0.0
    ensures (forall j | 0 <= j < |tail| :: tail[j] == 0.5) ==> Sphere(tail) == 0.0 && Rastrigin(tail, cosine) == 0.0
  {
    RastriginPrefix(tail, cosine, |tail|);
    forall j: nat | j < |tail| ensures Through(SphereTerm, tail)(j) >= 0.0 { SquareIsNonNegative(tail[j] - 0.5); }
    SumIsNonNegative(Through(SphereTerm, tail), |tail|);
    if forall j | 0 <= j < |tail| :: tail[j] == 0.5 { SumIsZero(Through(SphereTerm, tail), |tail|); }
  }

  // ----- the products -----

  function Dtlz1(x: seq<real>, m: nat, cosine: real -> real): (v: seq<real>)
    requires 1 <= m <= |x| + 1
    ensures |v| == m
  {
    Objectives(0.5 * (1.0 + Rastrigin(x[m - 1..], cosine)), Coordinate(x), Rest(x), m)
  }

  /** `cosine(t)` and `sine(t)` stand for the functions of a quarter turn times `t`. */
  function Dtlz2Style(x: seq<real>, m: nat, g: real, cosine: real -> real, sine: real -> real): (v: seq<real>)
    ensures |v| == m
  {
    Objectives(1.0 + g, Through(cosine, x), Through(sine, x), m)
  }

  method Dtlz1Objectives(x: seq<real>, m: nat, cosine: real -> real) returns (values: array<real>)
    requires 1 <= m <= |x| + 1
    ensures fresh(values)
    ensures values[..] == Dtlz1(x, m, cosine)
  {
    var g := Rastrigin(x[m - 1..], cosine);
    values := new real[m];
    for i := 0 to m
      invariant forall k | 0 <= k < i :: values[k] == Objective(0.5 * (1.0 + g), Coordinate(x), Rest(x), m, k)
    {
      var product := 0.5 * (1.0 + g);
      for j := 0 to m - 1 - i
        invariant product == Running(0.5 * (1.0 + g), Coordinate(x), j)
      {
        product := product * x[j];
      }
      if i > 0 {
        product := product * (1.0 - x[m - 1 - i]);
      }
      values[i] := product;
    }
  }

  method Dtlz2StyleObjectives(x: seq<real>, m: nat, g: real, cosine: real -> real, sine: real -> real)
    returns (values: array<real>)
    requires 1 <= m <= |x| + 1
    ensures fresh(values)
    ensures values[..] == Dtlz2Style(x, m, g, cosine, sine)
  {
    values := new real[m];
    for i := 0 to m
      invariant forall k | 0 <= k < i :: values[k] == Objective(1.0 + g, Through(cosine, x), Through(sine, x), m, k)
    {
      var product := 1.0 + g;
      for j := 0 to m - 1 - i
        invariant product == Running(1.0 + g, Through(cosine, x), j)
      {
        product := product * cosine(x[j]);
      }
      if i > 0 {
        product := product * sine(x[m - 1 - i]);
      }
      assert product == Objective(1.0 + g, Through(cosine, x), Through(sine, x), m, i);
      values[i] := product;
    }
  }

  // ----- the identities -----

  ghost function Entries(v: seq<real>): nat -> real { Coordinate(v) }

  function Square(x: real): real { x * x }

  ghost function Squares(v: seq<real>): nat -> real { Through(Square, v) }

  /** An entry and what is left after it make up what was left before it. */
  ghost predicate Telescopes(entry: nat -> real, left: nat -> real, m: nat, i: nat)
    requires i < m
  {
    entry(i) + (if i > 0 then left(m - i) else 0.0) == left(m - 1 - i)
  }

  lemma {:induction false} SumTelescopes(entry: nat -> real, left: nat -> real, m: nat, i: nat)
    requires 1 <= i <= m && forall k: nat | k < i :: Telescopes(entry, left, m, k)
    ensures Sum(entry, i) == left(m - i)
  {
    assert Telescopes(entry, left, m, i - 1);
    if i > 1 {
      SumTelescopes(entry, left, m, i - 1);
    } else {
      assert Sum(entry, 0) == 0.0;
    }
  }

  /** Under the measure `f`, the parts `p * c` and `p * s` make up `p`. */
  ghost predicate Splits(f: real -> real, p: real, c: real, s: real) { f(p * c) + f(p * s) == f(p) }

  ghost function Measured(f: real -> real, top: real, head: nat -> real): nat -> real {
    (k: nat) => f(Running(top, head, k))
  }

  lemma ObjectiveTelescopes(f: real -> real, top: real, head: nat -> real, complement: nat -> real, m: nat, i: nat)
    requires i < m
    requires i > 0 ==> Splits(f, Running(top, head, m - 1 - i), head(m - 1 - i), complement(m - 1 - i))
    ensures Telescopes(Through(f, Objectives(top, head, complement, m)), Measured(f, top, head), m, i)
  {
    var v := Objectives(top, head, complement, m);
    assert Through(f, v)(i) == f(v[i]);
    assert v[i] == Objective(top, head, complement, m, i);
    if i > 0 {
      assert Running(top, head, m - i) == Running(top, head, m - 1 - i) * head(m - 1 - i);
      assert Measured(f, top, head)(m - i) == f(Running(top, head, m - 1 - i) * head(m - 1 - i));
    }
  }

  /** If each factor and its complement split what the factors before them leave, the objectives'
      measures sum to the measure of the whole: everything in between cancels. */
  lemma ObjectivesTelescope(f: real -> real, top: real, head: nat -> real, complement: nat -> real, m: nat)
    requires m >= 1
    requires forall k: nat {:trigger head(k)} | k < m - 1 :: Splits(f, Running(top, head, k), head(k), complement(k))
    ensures Sum(Through(f, Objectives(top, head, complement, m)), m) == f(top)
  {
    var entry, left := Through(f, Objectives(top, head, complement, m)), Measured(f, top, head);
    forall i: nat | i < m ensures Telescopes(entry, left, m, i) {
      if i > 0 { assert Splits(f, Running(top, head, m - 1 - i), head(m - 1 - i), complement(m - 1 - i)); }
      ObjectiveTelescopes(f, top, head, complement, m, i);
    }
    SumTelescopes(entry, left, m, m);
  }

  lemma SplitProduct(p: real, a: real)
    ensures p * a + p * (1.0 - a) == p
  {
  }

  /** DTLZ1's objectives sum to exactly `(1 + g) / 2`, wherever the point lies. */
  lemma Dtlz1Sum(x: seq<real>, m: nat, g: real)
    requires m >= 1
    ensures Sum(Entries(Objectives(0.5 * (1.0 + g), Coordinate(x), Rest(x), m)), m) == 0.5 * (1.0 + g)
  {
    var top, itself := 0.5 * (1.0 + g), (r: real) => r;
    var v := Objectives(top, Coordinate(x), Rest(x), m);
    forall k: nat | k < m - 1 ensures Splits(itself, Running(top, Coordinate(x), k), Coordinate(x)(k), Rest(x)(k)) {
      SplitProduct(Running(top, Coordinate(x), k), Coordinate(x)(k));
    }
    ObjectivesTelescope(itself, top, Coordinate(x), Rest(x), m);
    SumCongruence(Entries(v), Through(itself, v), m);
  }

  /** The only trigonometry the identity needs. */
  ghost predicate OnCircle(cosine: real -> real, sine: real -> real) {
    forall t {:trigger cosine(t)} :: Square(cosine(t)) + Square(sine(t)) == 1.0
  }

  lemma SplitSquare(p: real, c: real, s: real)
    requires Square(c) + Square(s) == 1.0
    ensures Splits(Square, p, c, s)
  {
    calc {
      (p * c) * (p * c) + (p * s) * (p * s);
      (p * p) * (c * c) + (p * p) * (s * s);
      (p * p) * (c * c + s * s);
    }
  }

  /** The DTLZ2-style objectives' squares sum to exactly `(1 + g)` squared. */
  lemma Dtlz2Sum(x: seq<real>, m: nat, g: real, cosine: real -> real, sine: real -> real)
    requires OnCircle(cosine, sine) && m >= 1
    ensures Sum(Squares(Dtlz2Style(x, m, g, cosine, sine)), m) == Square(1.0 + g)
  {
    var head, complement := Through(cosine, x), Through(sine, x);
    forall k: nat | k < m - 1 ensures Splits(Square, Running(1.0 + g, head, k), head(k), complement(k)) {
      var t := if k < |x| then x[k] else 0.0;
      assert head(k) == cosine(t) && complement(k) == sine(t);
      SplitSquare(Running(1.0 + g, head, k), head(k), complement(k));
    }
    ObjectivesTelescope(Square, 1.0 + g, head, complement, m);
  }

  // ----- the sampled fronts cannot be beaten -----

  lemma {:induction false} SumIsMonotone(f: nat -> real, g: nat -> real, n: nat)
    requires forall i: nat | i < n :: f(i) <= g(i)
    ensures Sum(f, n) <= Sum(g, n)
    ensures (exists i: nat | i < n :: f(i) < g(i)) ==> Sum(f, n) < Sum(g, n)
  {
    if n > 0 { SumIsMonotone(f, g, n - 1); }
  }

  lemma DominatingIsLess(v: seq<real>, p: seq<real>)
    requires Dominance.DominatesMin(v, p)
    ensures Sum(Entries(v), |v|) < Sum(Entries(p), |v|)
  {
    var i: nat :| i < |v| && v[i] < p[i];
    assert Entries(v)(i) < Entries(p)(i);
    SumIsMonotone(Entries(v), Entries(p), |v|);
  }

  /** No decision vector's DTLZ1 objectives dominate a point of the hyperplane its front is sampled on. */
  lemma Dtlz1FrontIsUnbeaten(x: seq<real>, m: nat, cosine: real -> real, p: seq<real>)
    requires CosineBounded(cosine) && 1 <= m <= |x| + 1 && |p| == m && Sum(Entries(p), m) == 0.5
    ensures !Dominance.DominatesMin(Dtlz1(x, m, cosine), p)
  {
    var g := Rastrigin(x[m - 1..], cosine);
    var v := Objectives(0.5 * (1.0 + g), Coordinate(x), Rest(x), m);
    Dtlz1Sum(x, m, g);
    DistancesAreNonNegative(x[m - 1..], cosine);
    if Dominance.DominatesMin(v, p) { DominatingIsLess(v, p); }
  }

  ghost predicate NonNegative(v: seq<real>) { forall i | 0 <= i < |v| :: v[i] >= 0.0 }

  lemma SquareBelowProduct(a: real, b: real, aa: real, ab: real)
    requires 0.0 <= a < b && aa == a * a && ab == a * b
    ensures aa <= ab
  {
  }

  lemma ProductBelowSquare(a: real, b: real, ab: real, bb: real)
    requires 0.0 <= a < b && ab == a * b && bb == b * b
    ensures ab < bb
  {
  }

  lemma SquareIsMonotone(a: real, b: real)
    requires 0.0 <= a <= b
    ensures Square(a) <= Square(b) && (a < b ==> Square(a) < Square(b))
  {
    if a < b {
      SquareBelowProduct(a, b, Square(a), a * b);
      ProductBelowSquare(a, b, a * b, Square(b));
    }
  }

  lemma {:induction false} RunningIsNonNegative(top: real, head: nat -> real, k: nat)
    requires top >= 0.0 && forall j: nat :: head(j) >= 0.0
    ensures Running(top, head, k) >= 0.0
  {
    if k > 0 {
      RunningIsNonNegative(top, head, k - 1);
      ProductIsNonNegative(Running(top, head, k - 1), head(k - 1), Running(top, head, k - 1) * head(k - 1));
    }
  }

  lemma ObjectivesAreNonNegative(top: real, head: nat -> real, complement: nat -> real, m: nat)
    requires top >= 0.0 && (forall j: nat :: head(j) >= 0.0) && forall j: nat :: complement(j) >= 0.0
    ensures NonNegative(Objectives(top, head, complement, m))
  {
    forall i | 0 <= i < m ensures Objective(top, head, complement, m, i) >= 0.0 {
      RunningIsNonNegative(top, head, m - 1 - i);
      ProductIsNonNegative(Running(top, head, m - 1 - i), complement(m - 1 - i),
        Running(top, head, m - 1 - i) * complement(m - 1 - i));
    }
  }

  /** Non-negative vectors: the dominating one has the smaller sum of squares. */
  lemma DominatingIsNearer(v: seq<real>, p: seq<real>)
    requires NonNegative(v) && Dominance.DominatesMin(v, p)
    ensures Sum(Squares(v), |v|) < Sum(Squares(p), |v|)
  {
    forall i: nat | i < |v| ensures Squares(v)(i) <= Squares(p)(i) && (v[i] < p[i] ==> Squares(v)(i) < Squares(p)(i)) {
      SquareIsMonotone(v[i], p[i]);
    }
    var i: nat :| i < |v| && v[i] < p[i];
    assert Squares(v)(i) < Squares(p)(i);
    SumIsMonotone(Squares(v), Squares(p), |v|);
  }

  /** No decision vector's DTLZ2-style objectives dominate a point of the unit sphere, as long as
      the distance is non-negative and the angles stay in the first quadrant. */
  lemma SphereFrontIsUnbeaten(x: seq<real>, m: nat, g: real, cosine: real -> real, sine: real -> real, p: seq<real>)
    requires OnCircle(cosine, sine) && m >= 1 && g >= 0.0
    requires (forall j: nat :: Through(cosine, x)(j) >= 0.0) && forall j: nat :: Through(sine, x)(j) >= 0.0
    requires |p| == m && Sum(Squares(p), m) == 1.0
    ensures !Dominance.DominatesMin(Dtlz2Style(x, m, g, cosine, sine), p)
  {
    var v := Dtlz2Style(x, m, g, cosine, sine);
    Dtlz2Sum(x, m, g, cosine, sine);
    SquareIsMonotone(1.0, 1.0 + g);
    ObjectivesAreNonNegative(1.0 + g, Through(cosine, x), Through(sine, x), m);
    if Dominance.DominatesMin(v, p) { DominatingIsNearer(v, p); }
  }

  // ----- and is attained -----

  /** What the first `m - k` coordinates of `p` sum to: the product after `k` factors, if `p` is attained. */
  ghost function Left(p: seq<real>, k: nat): real
    requires k <= |p|
  {
    Sum(Entries(p), |p| - k)
  }

  /** The share of what is left that the next factor must keep. */
  ghost function Ratio(p: seq<real>, k: nat): real
    requires k < |p|
  {
    if Left(p, k) == 0.0 then 0.0 else Left(p, k + 1) / Left(p, k)
  }

  lemma RatioInBox(a: real, b: real)
    requires 0.0 <= b <= a
    ensures a > 0.0 ==> 0.0 <= b / a <= 1.0 && a * (b / a) == b
  {
  }

  lemma RatioKeeps(p: seq<real>, k: nat)
    requires NonNegative(p) && k < |p|
    ensures 0.0 <= Ratio(p, k) <= 1.0 && Left(p, k) * Ratio(p, k) == Left(p, k + 1)
    ensures Left(p, k + 1) + p[|p| - 1 - k] == Left(p, k)
  {
    SumIsNonNegative(Entries(p), |p| - k - 1);
    RatioInBox(Left(p, k), Left(p, k + 1));
  }

  /** A decision vector of `n` variables that attains `p`: ratios, then the middle of the tail's box. */
  ghost function Preimage(p: seq<real>, n: nat): (x: seq<real>)
    requires 1 <= |p| <= n + 1
    ensures |x| == n
    ensures forall k | 0 <= k < n :: x[k] == if k < |p| - 1 then Ratio(p, k) else 0.5
  {
    seq(n, k requires 0 <= k < n => if k < |p| - 1 then Ratio(p, k) else 0.5)
  }

  ghost predicate Follows(left: nat -> real, head: nat -> real, j: nat) { left(j) * head(j) == left(j + 1) }

  lemma {:induction false} RunningFollows(left: nat -> real, head: nat -> real, k: nat)
    requires forall j: nat | j < k :: Follows(left, head, j)
    ensures Running(left(0), head, k) == left(k)
  {
    if k > 0 {
      RunningFollows(left, head, k - 1);
      assert Follows(left, head, k - 1);
    }
  }

  ghost function Remainders(p: seq<real>): nat -> real { (j: nat) => if j <= |p| then Left(p, j) else 0.0 }

  lemma RatiosFollow(p: seq<real>, n: nat, j: nat)
    requires NonNegative(p) && 1 <= |p| <= n + 1 && j < |p| - 1
    ensures Follows(Remainders(p), Coordinate(Preimage(p, n)), j)
  {
    RatioKeeps(p, j);
    assert Coordinate(Preimage(p, n))(j) == Ratio(p, j);
  }

  lemma RunningIsLeft(p: seq<real>, n: nat, k: nat)
    requires NonNegative(p) && 1 <= |p| <= n + 1 && k < |p|
    ensures Running(Left(p, 0), Coordinate(Preimage(p, n)), k) == Left(p, k)
  {
    forall j: nat | j < k ensures Follows(Remainders(p), Coordinate(Preimage(p, n)), j) {
      RatiosFollow(p, n, j);
    }
    RunningFollows(Remainders(p), Coordinate(Preimage(p, n)), k);
  }

  lemma LeftOver(a: real, r: real, b: real, c: real, q: real)
    requires a * r == b && b + c == a && q == 1.0 - r
    ensures a * q == c
  {
  }

  lemma ObjectiveIs(top: real, head: nat -> real, complement: nat -> real, m: nat, i: nat, left: real, q: real,
      value: real)
    requires i < m && Running(top, head, m - 1 - i) == left && complement(m - 1 - i) == q
    requires value == if i > 0 then left * q else left
    ensures Objective(top, head, complement, m, i) == value
  {
  }

  lemma RestTakes(p: seq<real>, n: nat, k: nat)
    requires NonNegative(p) && 1 <= |p| <= n + 1 && k < |p| - 1
    ensures Left(p, k) * Rest(Preimage(p, n))(k) == p[|p| - 1 - k]
  {
    RatioKeeps(p, k);
    assert Coordinate(Preimage(p, n))(k) == Ratio(p, k);
    LeftOver(Left(p, k), Ratio(p, k), Left(p, k + 1), p[|p| - 1 - k], Rest(Preimage(p, n))(k));
  }

  lemma PreimageAttains(p: seq<real>, n: nat, top: real, i: nat)
    requires NonNegative(p) && 1 <= |p| <= n + 1 && i < |p| && top == Left(p, 0)
    ensures Objective(top, Coordinate(Preimage(p, n)), Rest(Preimage(p, n)), |p|, i) == p[i]
  {
    var k := |p| - 1 - i;
    RunningIsLeft(p, n, k);
    if i > 0 {
      RestTakes(p, n, k);
    } else {
      assert Sum(Entries(p), 1) == Sum(Entries(p), 0) + p[0];
    }
    ObjectiveIs(top, Coordinate(Preimage(p, n)), Rest(Preimage(p, n)), |p|, i, Left(p, k),
      Rest(Preimage(p, n))(k), p[i]);
  }

  lemma PreimageIsAttained(p: seq<real>, n: nat, top: real)
    requires NonNegative(p) && 1 <= |p| <= n + 1 && top == Left(p, 0)
    ensures Objectives(top, Coordinate(Preimage(p, n)), Rest(Preimage(p, n)), |p|) == p
  {
    forall i | 0 <= i < |p| ensures Objective(top, Coordinate(Preimage(p, n)), Rest(Preimage(p, n)), |p|, i) == p[i] {
      PreimageAttains(p, n, top, i);
    }
  }

  lemma PreimageInBox(p: seq<real>, n: nat, k: nat)
    requires NonNegative(p) && 1 <= |p| <= n + 1 && k < n
    ensures 0.0 <= Preimage(p, n)[k] <= 1.0
  {
    if k < |p| - 1 { RatioKeeps(p, k); }
  }

  lemma MiddleOfTheTail(tail: seq<real>, cosine: real -> real)
    requires CosineBounded(cosine) && forall j | 0 <= j < |tail| :: tail[j] == 0.5
    ensures 0.5 * (1.0 + Rastrigin(tail, cosine)) == 0.5
  {
    DistancesAreNonNegative(tail, cosine);
  }

  /** Every point of the sampled DTLZ1 front is the image of a decision vector in the unit box. */
  lemma Dtlz1FrontIsAttained(p: seq<real>, n: nat, cosine: real -> real)
    requires CosineBounded(cosine) && 1 <= |p| <= n + 1 && NonNegative(p) && Sum(Entries(p), |p|) == 0.5
    ensures var x := Preimage(p, n);
      && (forall k | 0 <= k < n :: 0.0 <= x[k] <= 1.0)
      && Dtlz1(x, |p|, cosine) == p
  {
    var x := Preimage(p, n);
    forall k: nat | k < n ensures 0.0 <= x[k] <= 1.0 { PreimageInBox(p, n, k); }
    assert Left(p, 0) == 0.5;
    MiddleOfTheTail(x[|p| - 1..], cosine);
    PreimageIsAttained(p, n, 0.5);
  }

  // ----- the sample itself -----

  function Scaled(k: real, p: seq<real>): (r: seq<real>)
    ensures |r| == |p| && forall i | 0 <= i < |p| :: r[i] == k * p[i]
  {
    seq(|p|, i requires 0 <= i < |p| => k * p[i])
  }

  lemma {:induction false} SumFromTheFront(p: seq<real>, k: nat)
    requires k < |p|
    ensures Sum(Entries(p), k + 1) == p[0] + Sum(Entries(p[1..]), k)
  {
    if k > 0 {
      SumFromTheFront(p, k - 1);
    } else {
      assert Sum(Entries(p), 1) == Sum(Entries(p), 0) + p[0];
    }
  }

  lemma {:induction false} SumsAgree(p: seq<real>)
    ensures Simplex.SumOf(p) == Sum(Entries(p), |p|)
  {
    if p != [] {
      SumsAgree(p[1..]);
      SumFromTheFront(p, |p| - 1);
    }
  }

  lemma {:induction false} SumOfScaled(k: real, p: seq<real>, n: nat)
    requires n <= |p|
    ensures Sum(Entries(Scaled(k, p)), n) == k * Sum(Entries(p), n)
  {
    if n > 0 {
      SumOfScaled(k, p, n - 1);
      Distribute(k, Sum(Entries(p), n - 1), p[n - 1]);
    }
  }

  /** Every sampled point of the DTLZ1 front is attained in the unit box, and no decision vector's
      objectives dominate it: the reference the quality figures use is part of the true front. */
  lemma Dtlz1SampleIsOptimal(divisions: nat, m: nat, s: nat, n: nat, cosine: real -> real, y: seq<real>)
    requires CosineBounded(cosine) && divisions >= 1 && 1 <= m <= n + 1 && m <= |y| + 1
    requires s < |Simplex.Points(divisions, m)|
    ensures var p := Scaled(0.5, Simplex.Points(divisions, m)[s]);
      && |p| == m
      && Dtlz1(Preimage(p, n), m, cosine) == p
      && !Dominance.DominatesMin(Dtlz1(y, m, cosine), p)
  {
    var q := Simplex.Points(divisions, m)[s];
    var p := Scaled(0.5, q);
    Simplex.PointsAreOnTheSimplex(divisions, m, s);
    SumsAgree(q);
    SumOfScaled(0.5, q, m);
    Dtlz1FrontIsAttained(p, n, cosine);
    Dtlz1FrontIsUnbeaten(y, m, cosine, p);
  }
}
