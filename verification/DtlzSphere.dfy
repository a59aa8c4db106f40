/** `services/optimizer/benchmarks/problems.py`: the spherical front of DTLZ2 to DTLZ4 - its sampled
    points lie on the unit sphere, are attained, and cannot be beaten. */
module DtlzSphere {
  import opened Arithmetic
  import opened Sums
  import opened Dtlz
  import Dominance
  import Simplex

  /** The square root of a number that has one. */
  ghost predicate IsRoot(root: real -> real) { forall x | x >= 0.0 :: root(x) >= 0.0 && Square(root(x)) == x }

  lemma RootsAreEqual(a: real, b: real)
    requires a >= 0.0 && b >= 0.0 && Square(a) == Square(b)
    ensures a == b
  {
    if a < b { SquareIsMonotone(a, b); } else { SquareIsMonotone(b, a); }
  }

  /** The squares of the first `k` coordinates, added up. */
  ghost function SquareSum(p: seq<real>, k: nat): (r: real)
    ensures r >= 0.0
  {
    forall i: nat | i < k ensures Squares(p)(i) >= 0.0 {
      SquareIsNonNegative(Coordinate(p)(i));
      assert Squares(p)(i) == Square(Coordinate(p)(i));
    }
    SumIsNonNegative(Squares(p), k);
    Sum(Squares(p), k)
  }

  /** A point divided by its norm; the origin is left alone. */
  function Normalised(p: seq<real>, norm: real): (r: seq<real>)
    ensures |r| == |p| && forall i | 0 <= i < |p| :: r[i] == p[i] / if norm == 0.0 then 1.0 else norm
  {
    seq(|p|, i requires 0 <= i < |p| => p[i] / if norm == 0.0 then 1.0 else norm)
  }

  lemma SquareOfQuotient(x: real, n: real, k: real)
    requires n > 0.0 && k * Square(n) == 1.0
    ensures Square(x / n) == k * Square(x)
  {
    var q := x / n;
    assert q * n == x;
    Rearrange(q, n);
    Reassociate(k, Square(n), Square(q));
  }

  lemma Rearrange(q: real, n: real)
    ensures Square(q * n) == Square(n) * Square(q)
  {
    assert (q * n) * (q * n) == (n * n) * (q * q);
  }

  lemma Reassociate(a: real, b: real, c: real)
    ensures a * (b * c) == (a * b) * c
  {
  }

  lemma Reciprocal(x: real)
    requires x > 0.0
    ensures (1.0 / x) * x == 1.0
  {
  }

  lemma NormalisedIsOnSphere(p: seq<real>, norm: real)
    requires norm > 0.0 && Square(norm) == SquareSum(p, |p|) > 0.0
    ensures Sum(Squares(Normalised(p, norm)), |p|) == 1.0
  {
    var r, k := Normalised(p, norm), 1.0 / SquareSum(p, |p|);
    Reciprocal(SquareSum(p, |p|));
    forall i: nat | i < |p|
      ensures IsMix(Squares(r), k, Squares(p), 0.0, Squares(p), i)
    {
      SquareOfQuotient(p[i], norm, k);
    }
    SumOfMix(Squares(r), k, Squares(p), 0.0, Squares(p), |p|);
  }

  lemma {:induction false} NothingSquaredIsNothing(p: seq<real>, k: nat)
    requires k <= |p| && SquareSum(p, k) == 0.0
    ensures Sum(Entries(p), k) == 0.0
  {
    if k > 0 {
      SquareIsNonNegative(p[k - 1]);
      assert SquareSum(p, k) == SquareSum(p, k - 1) + Square(p[k - 1]);
      NothingSquaredIsNothing(p, k - 1);
      RootsAreEqual(if p[k - 1] < 0.0 then -p[k - 1] else p[k - 1], 0.0);
    }
  }

  // ----- attained -----

  ghost predicate IsAngle(cosine: real -> real, sine: real -> real, t: real, c: real, s: real) {
    0.0 <= t <= 1.0 && cosine(t) == c && sine(t) == s
  }

  ghost predicate Reached(cosine: real -> real, sine: real -> real, c: real, s: real) {
    exists t :: IsAngle(cosine, sine, t, c, s)
  }

  /** Between them, the two functions reach every point of the first quadrant's arc. */
  ghost predicate ReachArc(cosine: real -> real, sine: real -> real) {
    forall c, s | c >= 0.0 && s >= 0.0 && Square(c) + Square(s) == 1.0 :: Reached(cosine, sine, c, s)
  }

  /** The norm of the first `|p| - k` coordinates: what is left after `k` factors, if `p` is attained. */
  ghost function Radius(p: seq<real>, root: real -> real, k: nat): real
    requires k <= |p|
  {
    root(SquareSum(p, |p| - k))
  }

  /** The cosine of the next angle: the share of the radius that it keeps. */
  ghost function KeptShare(p: seq<real>, root: real -> real, k: nat): real
    requires k < |p|
  {
    if Radius(p, root, k) == 0.0 then 1.0 else Radius(p, root, k + 1) / Radius(p, root, k)
  }

  /** And its sine: the share that goes into the next coordinate. */
  ghost function TakenShare(p: seq<real>, root: real -> real, k: nat): real
    requires k < |p|
  {
    if Radius(p, root, k) == 0.0 then 0.0 else p[|p| - 1 - k] / Radius(p, root, k)
  }

  lemma RadiusSplits(p: seq<real>, root: real -> real, k: nat)
    requires IsRoot(root) && k < |p|
    ensures Radius(p, root, k) >= 0.0 && Radius(p, root, k + 1) >= 0.0
    ensures Square(Radius(p, root, k)) == Square(Radius(p, root, k + 1)) + Square(p[|p| - 1 - k])
  {
    assert SquareSum(p, |p| - k) == SquareSum(p, |p| - k - 1) + Square(p[|p| - 1 - k]);
  }

  lemma SharesOf(a: real, b: real, c: real)
    requires a >= 0.0 && b >= 0.0 && c >= 0.0 && Square(a) == Square(b) + Square(c)
    ensures var (x, y) := if a == 0.0 then (1.0, 0.0) else (b / a, c / a);
      x >= 0.0 && y >= 0.0 && Square(x) + Square(y) == 1.0 && a * x == b && a * y == c
  {
    if a == 0.0 {
      SquareIsNonNegative(b);
      SquareIsNonNegative(c);
      RootsAreEqual(b, 0.0);
      RootsAreEqual(c, 0.0);
    } else {
      SquareIsMonotone(0.0, a);
      var k := 1.0 / Square(a);
      Reciprocal(Square(a));
      SquareOfQuotient(b, a, k);
      SquareOfQuotient(c, a, k);
      Distribute(k, Square(b), Square(c));
      QuotientIsNonNegative(b, a);
      QuotientIsNonNegative(c, a);
    }
  }

  lemma SharesFit(p: seq<real>, root: real -> real, k: nat)
    requires IsRoot(root) && NonNegative(p) && k < |p|
    ensures KeptShare(p, root, k) >= 0.0 && TakenShare(p, root, k) >= 0.0
    ensures Square(KeptShare(p, root, k)) + Square(TakenShare(p, root, k)) == 1.0
    ensures Radius(p, root, k) * KeptShare(p, root, k) == Radius(p, root, k + 1)
    ensures Radius(p, root, k) * TakenShare(p, root, k) == p[|p| - 1 - k]
  {
    RadiusSplits(p, root, k);
    SharesOf(Radius(p, root, k), Radius(p, root, k + 1), p[|p| - 1 - k]);
  }

  /** The angle, as a share of a quarter turn, for each of the leading variables. */
  ghost predicate Turns(x: seq<real>, p: seq<real>, root: real -> real, cosine: real -> real, sine: real -> real) {
    && |p| >= 1 && |x| >= |p| - 1
    && forall k: nat | k < |p| - 1 :: IsAngle(cosine, sine, x[k], KeptShare(p, root, k), TakenShare(p, root, k))
  }

  lemma AngleOf(p: seq<real>, root: real -> real, cosine: real -> real, sine: real -> real, k: nat) returns (t: real)
    requires IsRoot(root) && NonNegative(p) && k < |p| && ReachArc(cosine, sine)
    ensures IsAngle(cosine, sine, t, KeptShare(p, root, k), TakenShare(p, root, k))
  {
    SharesFit(p, root, k);
    assert Reached(cosine, sine, KeptShare(p, root, k), TakenShare(p, root, k));
    t :| IsAngle(cosine, sine, t, KeptShare(p, root, k), TakenShare(p, root, k));
  }

  lemma {:induction false} AnglesOf(p: seq<real>, root: real -> real, cosine: real -> real, sine: real -> real,
      n: nat) returns (x: seq<real>)
    requires IsRoot(root) && NonNegative(p) && n < |p| && ReachArc(cosine, sine)
    ensures |x| == n && forall k: nat | k < n ::
      IsAngle(cosine, sine, x[k], KeptShare(p, root, k), TakenShare(p, root, k))
  {
    if n == 0 {
      x := [];
    } else {
      var before := AnglesOf(p, root, cosine, sine, n - 1);
      var t := AngleOf(p, root, cosine, sine, n - 1);
      x := before + [t];
    }
  }

  ghost function Radii(p: seq<real>, root: real -> real): nat -> real {
    (j: nat) => if j <= |p| then Radius(p, root, j) else 0.0
  }

  lemma RadiiFollow(x: seq<real>, p: seq<real>, root: real -> real, cosine: real -> real, sine: real -> real, j: nat)
    requires IsRoot(root) && NonNegative(p) && Turns(x, p, root, cosine, sine) && j < |p| - 1
    ensures Follows(Radii(p, root), Through(cosine, x), j)
  {
    assert IsAngle(cosine, sine, x[j], KeptShare(p, root, j), TakenShare(p, root, j));
    SharesFit(p, root, j);
    FollowsIf(Radii(p, root), Through(cosine, x), j, Radius(p, root, j), KeptShare(p, root, j), Radius(p, root, j + 1));
  }

  lemma FollowsIf(left: nat -> real, head: nat -> real, j: nat, a: real, b: real, c: real)
    requires left(j) == a && head(j) == b && left(j + 1) == c && a * b == c
    ensures Follows(left, head, j)
  {
  }

  lemma RunningIsRadius(x: seq<real>, p: seq<real>, root: real -> real, cosine: real -> real,
      sine: real -> real, k: nat)
    requires IsRoot(root) && NonNegative(p) && Turns(x, p, root, cosine, sine) && k < |p|
    ensures Running(Radius(p, root, 0), Through(cosine, x), k) == Radius(p, root, k)
  {
    forall j: nat | j < k ensures Follows(Radii(p, root), Through(cosine, x), j) {
      RadiiFollow(x, p, root, cosine, sine, j);
    }
    RunningFollows(Radii(p, root), Through(cosine, x), k);
  }

  lemma LastRadius(p: seq<real>, root: real -> real)
    requires IsRoot(root) && NonNegative(p) && |p| >= 1
    ensures Radius(p, root, |p| - 1) == p[0]
  {
    assert SquareSum(p, 0) == 0.0 && SquareSum(p, 1) == SquareSum(p, 0) + Square(p[0]);
    RootsAreEqual(Radius(p, root, |p| - 1), p[0]);
  }

  lemma TurnTakes(x: seq<real>, p: seq<real>, root: real -> real, cosine: real -> real, sine: real -> real, k: nat)
    returns (left: real, q: real, value: real)
    requires IsRoot(root) && NonNegative(p) && Turns(x, p, root, cosine, sine) && k < |p| - 1
    ensures left == Radius(p, root, k) && q == Through(sine, x)(k) && value == p[|p| - 1 - k] && left * q == value
  {
    assert IsAngle(cosine, sine, x[k], KeptShare(p, root, k), TakenShare(p, root, k));
    SharesFit(p, root, k);
    left, q, value := Radius(p, root, k), TakenShare(p, root, k), p[|p| - 1 - k];
  }

  lemma LaterObjective(top: real, head: nat -> real, complement: nat -> real, m: nat, i: nat, left: real, q: real,
      value: real)
    requires 0 < i < m && Running(top, head, m - 1 - i) == left && complement(m - 1 - i) == q && left * q == value
    ensures Objective(top, head, complement, m, i) == value
  {
  }

  lemma TurnsAttain(x: seq<real>, p: seq<real>, root: real -> real, cosine: real -> real, sine: real -> real,
      top: real, i: nat)
    requires IsRoot(root) && NonNegative(p) && Turns(x, p, root, cosine, sine) && i < |p| && top == Radius(p, root, 0)
    ensures Objective(top, Through(cosine, x), Through(sine, x), |p|, i) == p[i]
  {
    var k := |p| - 1 - i;
    RunningIsRadius(x, p, root, cosine, sine, k);
    if i > 0 {
      var left, q, value := TurnTakes(x, p, root, cosine, sine, k);
      LaterObjective(top, Through(cosine, x), Through(sine, x), |p|, i, left, q, value);
    } else {
      LastRadius(p, root);
    }
  }

  /** Every non-negative point of the unit sphere is the image of a decision vector in the unit box
      whose distance is zero, for DTLZ2 and DTLZ3 alike. */
  lemma SphereFrontIsAttained(p: seq<real>, n: nat, root: real -> real, cosine: real -> real, sine: real -> real,
      ripple: real -> real)
    returns (x: seq<real>)
    requires IsRoot(root) && ReachArc(cosine, sine) && CosineBounded(ripple)
    requires 1 <= |p| <= n + 1 && NonNegative(p) && Sum(Squares(p), |p|) == 1.0
    ensures |x| == n && forall k | 0 <= k < n :: 0.0 <= x[k] <= 1.0
    ensures Sphere(x[|p| - 1..]) == Rastrigin(x[|p| - 1..], ripple) == 0.0
    ensures Dtlz2Style(x, |p|, 0.0, cosine, sine) == p
  {
    var angles := AnglesOf(p, root, cosine, sine, |p| - 1);
    x := angles + seq(n + 1 - |p|, _ => 0.5);
    assert Turns(x, p, root, cosine, sine);
    forall k: nat | k < n ensures 0.0 <= x[k] <= 1.0 {
      if k < |p| - 1 { assert IsAngle(cosine, sine, x[k], KeptShare(p, root, k), TakenShare(p, root, k)); }
    }
    DistancesAreNonNegative(x[|p| - 1..], ripple);
    RootsAreEqual(Radius(p, root, 0), 1.0);
    forall i | 0 <= i < |p| ensures Objective(1.0, Through(cosine, x), Through(sine, x), |p|, i) == p[i] {
      TurnsAttain(x, p, root, cosine, sine, 1.0, i);
    }
  }

  // ----- the sample -----

  lemma SimplexPointHasNorm(q: seq<real>, m: nat)
    requires Simplex.OnSimplex(q, m)
    ensures SquareSum(q, m) > 0.0
  {
    SumsAgree(q);
    if SquareSum(q, m) == 0.0 { NothingSquaredIsNothing(q, m); }
  }

  /** A sampled point of the spherical front - a point of the simplex divided by its norm - lies on
      the unit sphere, is attained in the unit box, and no decision vector's objectives dominate it. */
  lemma SphereSampleIsOptimal(q: seq<real>, m: nat, n: nat, root: real -> real, cosine: real -> real,
      sine: real -> real, ripple: real -> real, y: seq<real>, g: real)
    returns (x: seq<real>)
    requires IsRoot(root) && ReachArc(cosine, sine) && OnCircle(cosine, sine) && CosineBounded(ripple)
    requires Simplex.OnSimplex(q, m) && 1 <= m <= n + 1 && g >= 0.0
    requires (forall j: nat :: Through(cosine, y)(j) >= 0.0) && forall j: nat :: Through(sine, y)(j) >= 0.0
    ensures var p := Normalised(q, root(SquareSum(q, m)));
      && NonNegative(p) && Sum(Squares(p), m) == 1.0
      && |x| == n && (forall k | 0 <= k < n :: 0.0 <= x[k] <= 1.0)
      && Sphere(x[m - 1..]) == Rastrigin(x[m - 1..], ripple) == 0.0
      && Dtlz2Style(x, m, 0.0, cosine, sine) == p
      && !Dominance.DominatesMin(Dtlz2Style(y, m, g, cosine, sine), p)
  {
    var norm := root(SquareSum(q, m));
    var p := Normalised(q, norm);
    SimplexPointHasNorm(q, m);
    assert Square(0.0) == 0.0 && norm != 0.0;
    NormalisedIsOnSphere(q, norm);
    forall i | 0 <= i < m ensures p[i] >= 0.0 { QuotientIsNonNegative(q[i], norm); }
    x := SphereFrontIsAttained(p, n, root, cosine, sine, ripple);
    SphereFrontIsUnbeaten(y, m, g, cosine, sine, p);
  }
}
