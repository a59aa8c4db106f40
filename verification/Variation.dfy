/** `services/optimizer/evolutionary.py`: simulated binary crossover and polynomial mutation of
    one parameter, as functions of their draws.

    Powers are a parameter of which only the laws in `PowerLaw` are used. */
module Variation {
  import opened Common
  import opened Arithmetic

  type Power = (real, real) -> real

  /** All that is used of a real power with a non-negative base: monotone in the base, one at one,
      undone by the reciprocal exponent, and inverted by the negative one. */
  ghost predicate PowerLaw(pow: Power) {
    && (forall a, b, e :: Grows(pow, a, b, e)) && (forall e :: KeepsOne(pow, e))
    && (forall a, e :: IsUndone(pow, a, e)) && (forall b, e :: IsReciprocal(pow, b, e))
  }

  predicate Grows(pow: Power, a: real, b: real, e: real) {
    0.0 <= a <= b && e >= 0.0 ==> 0.0 <= pow(a, e) <= pow(b, e)
  }

  predicate KeepsOne(pow: Power, e: real) { pow(1.0, e) == 1.0 }

  predicate IsUndone(pow: Power, a: real, e: real) { a >= 0.0 && e >= 1.0 ==> pow(pow(a, e), 1.0 / e) == a }

  predicate IsReciprocal(pow: Power, b: real, e: real) { b >= 1.0 && e >= 0.0 ==> pow(b, -e) * pow(b, e) == 1.0 }

  /** A base of at least one: its power is at least one, that with the negative exponent at most one. */
  lemma PowersOfLarge(b: real, e: real, pow: Power)
    requires PowerLaw(pow) && b >= 1.0 && e >= 0.0
    ensures pow(b, e) >= 1.0 && 0.0 < pow(b, -e) <= 1.0 && 1.0 / pow(b, -e) == pow(b, e)
  {
    assert Grows(pow, 1.0, b, e) && KeepsOne(pow, e) && IsReciprocal(pow, b, e);
    ReciprocalOf(pow(b, -e), pow(b, e));
  }

  lemma ReciprocalOf(x: real, y: real)
    requires x * y == 1.0 && y >= 1.0
    ensures 0.0 < x <= 1.0 && 1.0 / x == y
  {
    if x <= 0.0 { ProductIsNonNegative(-x, y, -(x * y)); }
    if x > 1.0 { ProductIsNonNegative(x - 1.0, y, x * y - y); }
  }

  // ----- mutation -----

  /** The base of the outer power: between `power` and 1. */
  function Mix(share: real, power: real): real { share + (1.0 - share) * power }

  /** The relative move for draw `u`: down for the lower half, up for the upper half. */
  function Move(low: real, high: real, value: real, eta: real, u: real, pow: Power): real
    requires low < high && eta >= 0.0
  {
    if u < 0.5 then pow(Mix(2.0 * u, pow(1.0 - (value - low) / (high - low), eta + 1.0)), 1.0 / (eta + 1.0)) - 1.0
    else 1.0 - pow(Mix(2.0 * (1.0 - u), pow(1.0 - (high - value) / (high - low), eta + 1.0)), 1.0 / (eta + 1.0))
  }

  /** A relative move, clamped to the interval. */
  function Moved(low: real, high: real, value: real, move: real): (r: real)
    ensures low <= high ==> low <= r <= high
  {
    Clamp(low, high, value + move * (high - low))
  }

  function Mutated(low: real, high: real, value: real, eta: real, u: real, pow: Power): (r: real)
    requires low < high && eta >= 0.0
    ensures low <= r <= high
  {
    Moved(low, high, value, Move(low, high, value, eta, u, pow))
  }

  lemma MixIsMonotone(s: real, t: real, power: real)
    requires 0.0 <= s <= t <= 1.0 && 0.0 <= power <= 1.0
    ensures power <= Mix(s, power) <= Mix(t, power) <= 1.0
  {
    MixDifference(0.0, s, power);
    MixDifference(s, t, power);
    MixDifference(t, 1.0, power);
  }

  lemma MixDifference(s: real, t: real, power: real)
    requires s <= t && power <= 1.0
    ensures Mix(s, power) <= Mix(t, power)
  {
    var d, r := t - s, 1.0 - power;
    ProductIsNonNegative(d, r, d * r);
    assert Mix(t, power) - Mix(s, power) == d * r;
  }

  /** What the inner power of a share leaves. */
  lemma PowerIsUnit(x: real, eta: real, pow: Power)
    requires PowerLaw(pow) && 0.0 <= x <= 1.0 && eta >= 0.0
    ensures 0.0 <= pow(x, eta + 1.0) <= 1.0 && pow(pow(x, eta + 1.0), 1.0 / (eta + 1.0)) == x
  {
    assert Grows(pow, x, 1.0, eta + 1.0) && KeepsOne(pow, eta + 1.0) && IsUndone(pow, x, eta + 1.0);
  }

  /** For one half: rooted mixes grow from the share itself to one. */
  lemma RootOfMix(s: real, t: real, x: real, eta: real, pow: Power)
    requires PowerLaw(pow) && 0.0 <= s <= t <= 1.0 && 0.0 <= x <= 1.0 && eta >= 0.0
    ensures var power, root := pow(x, eta + 1.0), 1.0 / (eta + 1.0);
      x <= pow(Mix(s, power), root) <= pow(Mix(t, power), root) <= 1.0
    ensures pow(Mix(0.0, pow(x, eta + 1.0)), 1.0 / (eta + 1.0)) == x
    ensures pow(Mix(1.0, pow(x, eta + 1.0)), 1.0 / (eta + 1.0)) == 1.0
  {
    var power, root := pow(x, eta + 1.0), 1.0 / (eta + 1.0);
    PowerIsUnit(x, eta, pow);
    MixIsMonotone(s, t, power);
    ShareIsUnit(1.0, eta + 1.0);
    assert Grows(pow, power, Mix(s, power), root) && Grows(pow, Mix(s, power), Mix(t, power), root);
    assert Grows(pow, Mix(t, power), 1.0, root) && KeepsOne(pow, root);
    assert Mix(0.0, power) == power && Mix(1.0, power) == 1.0;
  }

  /** The move grows with the draw, from all the way down to all the way up. */
  lemma MoveIsMonotone(low: real, high: real, value: real, eta: real, u: real, v: real, pow: Power)
    requires PowerLaw(pow) && low < high && low <= value <= high && eta >= 0.0 && 0.0 <= u <= v <= 1.0
    ensures Move(low, high, value, eta, u, pow) <= Move(low, high, value, eta, v, pow)
    ensures if u < 0.5 then Move(low, high, value, eta, u, pow) <= 0.0 else Move(low, high, value, eta, u, pow) >= 0.0
  {
    var down, up := (value - low) / (high - low), (high - value) / (high - low);
    ShareIsUnit(value - low, high - low);
    ShareIsUnit(high - value, high - low);
    if u < 0.5 { RootOfMix(2.0 * u, if v < 0.5 then 2.0 * v else 1.0, 1.0 - down, eta, pow); }
    if v >= 0.5 { RootOfMix(2.0 * (1.0 - v), if u >= 0.5 then 2.0 * (1.0 - u) else 1.0, 1.0 - up, eta, pow); }
  }

  /** The lowest draw moves to the lower bound, the middle one stays put, the highest moves to the upper. */
  lemma MoveAtTheEnds(low: real, high: real, value: real, eta: real, pow: Power)
    requires PowerLaw(pow) && low < high && low <= value <= high && eta >= 0.0
    ensures Move(low, high, value, eta, 0.0, pow) == -((value - low) / (high - low))
    ensures Move(low, high, value, eta, 0.5, pow) == 0.0
    ensures Move(low, high, value, eta, 1.0, pow) == (high - value) / (high - low)
  {
    ShareIsUnit(value - low, high - low);
    ShareIsUnit(high - value, high - low);
    RootOfMix(0.0, 1.0, 1.0 - (value - low) / (high - low), eta, pow);
    RootOfMix(0.0, 1.0, 1.0 - (high - value) / (high - low), eta, pow);
  }

  lemma ClampIsMonotone(low: real, high: real, x: real, y: real)
    requires x <= y
    ensures Clamp(low, high, x) <= Clamp(low, high, y)
  {
  }

  /** Mutation sweeps the interval: a larger draw never gives a smaller value, draw 0 gives the
      lower bound, draw one half the old value, and towards draw 1 it nears the upper bound. */
  lemma MutationSweeps(low: real, high: real, value: real, eta: real, u: real, v: real, pow: Power)
    requires PowerLaw(pow) && low < high && low <= value <= high && eta >= 0.0 && 0.0 <= u <= v <= 1.0
    ensures Mutated(low, high, value, eta, u, pow) <= Mutated(low, high, value, eta, v, pow)
    ensures Mutated(low, high, value, eta, 0.0, pow) == low && Mutated(low, high, value, eta, 0.5, pow) == value
    ensures Mutated(low, high, value, eta, 1.0, pow) == high
    ensures if u < 0.5 then Mutated(low, high, value, eta, u, pow) <= value
      else Mutated(low, high, value, eta, u, pow) >= value
  {
    MutationGrows(low, high, value, eta, u, v, pow);
    MutationEnds(low, high, value, eta, pow);
    if u < 0.5 {
      MutationGrows(low, high, value, eta, u, 0.5, pow);
    } else {
      MutationGrows(low, high, value, eta, 0.5, u, pow);
    }
  }

  lemma MutationGrows(low: real, high: real, value: real, eta: real, u: real, v: real, pow: Power)
    requires PowerLaw(pow) && low < high && low <= value <= high && eta >= 0.0 && 0.0 <= u <= v <= 1.0
    ensures Mutated(low, high, value, eta, u, pow) <= Mutated(low, high, value, eta, v, pow)
  {
    MoveIsMonotone(low, high, value, eta, u, v, pow);
    MovedFurther(low, high, value, Move(low, high, value, eta, u, pow), Move(low, high, value, eta, v, pow));
  }

  lemma MovedFurther(low: real, high: real, value: real, m: real, n: real)
    requires m <= n && low <= high
    ensures Moved(low, high, value, m) <= Moved(low, high, value, n)
  {
    ScaleUp(high - low, m, n);
    ClampIsMonotone(low, high, value + m * (high - low), value + n * (high - low));
  }

  lemma MutationEnds(low: real, high: real, value: real, eta: real, pow: Power)
    requires PowerLaw(pow) && low < high && low <= value <= high && eta >= 0.0
    ensures Mutated(low, high, value, eta, 0.0, pow) == low && Mutated(low, high, value, eta, 0.5, pow) == value
    ensures Mutated(low, high, value, eta, 1.0, pow) == high
  {
    MoveAtTheEnds(low, high, value, eta, pow);
  }

  // ----- crossover -----

  /** The spread factor for draw `rand`. */
  function Factor(alpha: real, rand: real, eta: real, pow: Power): real
    requires 1.0 <= alpha < 2.0 && 0.0 <= rand <= 1.0 && eta >= 0.0
  {
    RestIsPositive(alpha, rand);
    if rand <= 1.0 / alpha then pow(rand * alpha, 1.0 / (eta + 1.0))
      else pow(1.0 / (2.0 - rand * alpha), 1.0 / (eta + 1.0))
  }

  lemma RestIsPositive(alpha: real, rand: real)
    requires 1.0 <= alpha < 2.0 && 0.0 <= rand <= 1.0
    ensures 0.0 <= rand * alpha < 2.0
  {
    ProductIsNonNegative(rand, alpha, rand * alpha);
    ProductIsNonNegative(1.0 - rand, alpha, alpha - rand * alpha);
  }

  /** How far the lower parent is from its bound decides how the spread is distributed. */
  function Alpha(low: real, y1: real, y2: real, eta: real, pow: Power): real
    requires y1 < y2
  {
    2.0 - pow(1.0 + 2.0 * (y1 - low) / (y2 - y1), -(eta + 1.0))
  }

  lemma AlphaInRange(low: real, y1: real, y2: real, eta: real, pow: Power)
    requires PowerLaw(pow) && low <= y1 < y2 && eta >= 0.0
    ensures 1.0 <= Alpha(low, y1, y2, eta, pow) < 2.0
  {
    QuotientIsNonNegative(2.0 * (y1 - low), y2 - y1);
    PowersOfLarge(1.0 + 2.0 * (y1 - low) / (y2 - y1), eta + 1.0, pow);
  }

  /** The children before clamping: evenly about the midpoint, their distance that of the parents
      scaled by the factor. */
  function Apart(y1: real, y2: real, factor: real): (real, real) {
    (0.5 * ((y1 + y2) - factor * (y2 - y1)), 0.5 * ((y1 + y2) + factor * (y2 - y1)))
  }

  /** The factor is at most one for the draws up to `1 / alpha`, and at least one for the others. */
  lemma FactorSplits(alpha: real, rand: real, eta: real, pow: Power)
    requires PowerLaw(pow) && 1.0 <= alpha < 2.0 && 0.0 <= rand <= 1.0 && eta >= 0.0
    ensures if rand <= 1.0 / alpha then 0.0 <= Factor(alpha, rand, eta, pow) <= 1.0
      else Factor(alpha, rand, eta, pow) >= 1.0
  {
    var x, root := rand * alpha, 1.0 / (eta + 1.0);
    RestIsPositive(alpha, rand);
    ShareIsUnit(1.0, eta + 1.0);
    BelowReciprocal(rand, alpha, x);
    if rand <= 1.0 / alpha {
      assert Grows(pow, x, 1.0, root) && KeepsOne(pow, root);
    } else {
      AboveOne(2.0 - x);
      assert Grows(pow, 1.0, 1.0 / (2.0 - x), root) && KeepsOne(pow, root);
    }
  }

  lemma BelowReciprocal(rand: real, alpha: real, x: real)
    requires alpha > 0.0 && x == rand * alpha
    ensures rand <= 1.0 / alpha <==> x <= 1.0
  {
    var q := 1.0 / alpha;
    assert q * alpha == 1.0;
  }

  lemma AboveOne(r: real)
    requires 0.0 < r <= 1.0
    ensures 1.0 / r >= 1.0
  {
  }

  /** The children lie between the parents for the draws up to `1 / alpha`, outside them for the
      others, and always evenly about the parents' midpoint. */
  lemma ChildrenSpread(low: real, y1: real, y2: real, eta: real, rand: real, pow: Power)
    requires PowerLaw(pow) && low <= y1 < y2 && eta >= 0.0 && 0.0 <= rand <= 1.0
    ensures var alpha := Alpha(low, y1, y2, eta, pow);
      && 1.0 <= alpha < 2.0
      && var (c1, c2) := Apart(y1, y2, Factor(alpha, rand, eta, pow));
      && c1 <= c2 && c1 + c2 == y1 + y2
      && (rand <= 1.0 / alpha ==> y1 <= c1 && c2 <= y2) && (rand > 1.0 / alpha ==> c1 <= y1 && y2 <= c2)
  {
    AlphaInRange(low, y1, y2, eta, pow);
    var alpha := Alpha(low, y1, y2, eta, pow);
    FactorSplits(alpha, rand, eta, pow);
    ApartBounds(y1, y2, Factor(alpha, rand, eta, pow));
  }

  lemma ApartBounds(y1: real, y2: real, factor: real)
    requires y1 < y2 && factor >= 0.0
    ensures var (c1, c2) := Apart(y1, y2, factor);
      c1 <= c2 && c1 + c2 == y1 + y2 && (factor <= 1.0 ==> y1 <= c1 && c2 <= y2) &&
        (factor >= 1.0 ==> c1 <= y1 && y2 <= c2)
  {
    ScaledGap(factor, y2 - y1, factor * (y2 - y1));
  }

  lemma ScaledGap(factor: real, w: real, scaled: real)
    requires factor >= 0.0 && w > 0.0 && scaled == factor * w
    ensures scaled >= 0.0 && (factor <= 1.0 ==> scaled <= w) && (factor >= 1.0 ==> scaled >= w)
  {
    ProductIsNonNegative(factor, w, scaled);
    if factor <= 1.0 { ProductIsNonNegative(1.0 - factor, w, w - scaled); }
    if factor >= 1.0 { ProductIsNonNegative(factor - 1.0, w, scaled - w); }
  }

  /** Both children of one parameter: the parents' values, or with a first draw below one half and
      parents that differ, spread about the midpoint and clamped, the smaller one first. */
  function Children(low: real, high: real, p1: real, p2: real, eta: real, u: real, rand: real,
      pow: Power): (c: (real, real))
    requires PowerLaw(pow) && low <= p1 <= high && low <= p2 <= high && eta >= 0.0 && 0.0 <= rand <= 1.0
    ensures low <= c.0 <= high && low <= c.1 <= high
  {
    if u < 0.5 && Abs(p1 - p2) > 0.0000000001 then
      var y1, y2 := Min(p1, p2), Max(p1, p2);
      AlphaInRange(low, y1, y2, eta, pow);
      Clamped(low, high, Apart(y1, y2, Factor(Alpha(low, y1, y2, eta, pow), rand, eta, pow)))
    else (p1, p2)
  }

  /** Parents that hardly differ, and those of a first draw of at least one half, are copied;
      otherwise the children of the smaller and the larger one lie between them or outside them. */
  lemma ChildrenLieAround(low: real, high: real, p1: real, p2: real, eta: real, u: real, rand: real, pow: Power)
    requires PowerLaw(pow) && low <= p1 <= high && low <= p2 <= high && eta >= 0.0 && 0.0 <= rand <= 1.0
    ensures var (c1, c2) := Children(low, high, p1, p2, eta, u, rand, pow);
      if u >= 0.5 || -0.0000000001 <= p1 - p2 <= 0.0000000001 then c1 == p1 && c2 == p2
      else
        var y1, y2 := Min(p1, p2), Max(p1, p2);
        var alpha := Alpha(low, y1, y2, eta, pow);
        && c1 <= c2 && alpha >= 1.0
        && (rand <= 1.0 / alpha ==> y1 <= c1 && c2 <= y2 && c1 + c2 == p1 + p2)
        && (rand > 1.0 / alpha ==> c1 <= y1 && y2 <= c2)
  {
    if u < 0.5 && Abs(p1 - p2) > 0.0000000001 {
      ChildrenSpread(low, Min(p1, p2), Max(p1, p2), eta, rand, pow);
    }
  }

  function Clamped(low: real, high: real, c: (real, real)): (real, real) {
    (Clamp(low, high, c.0), Clamp(low, high, c.1))
  }

  /** The arithmetic of a crossover, once its draw is made. */
  method SpreadParents(low: real, high: real, p1: real, p2: real, eta: real, rand: real, pow: Power)
    returns (c1: real, c2: real)
    requires PowerLaw(pow) && low <= p1 <= high && low <= p2 <= high && eta >= 0.0 && 0.0 <= rand <= 1.0
    requires Abs(p1 - p2) > 0.0000000001
    ensures (c1, c2) == Children(low, high, p1, p2, eta, 0.0, rand, pow)
  {
    var y1, y2 := Min(p1, p2), Max(p1, p2);
    AlphaInRange(low, y1, y2, eta, pow);
    var beta := 1.0 + 2.0 * (y1 - low) / (y2 - y1);
    var alpha := 2.0 - pow(beta, -(eta + 1.0));
    assert alpha == Alpha(low, y1, y2, eta, pow);
    var betaq := SpreadFactor(alpha, rand, eta, pow);
    c1, c2 := SpreadBy(y1, y2, betaq);
    c1, c2 := Clamp(low, high, c1), Clamp(low, high, c2);
  }

  // ----- what the draw of a crossover does -----

  lemma NothingToAPower(e: real, pow: Power)
    requires PowerLaw(pow) && e >= 1.0
    ensures pow(0.0, 1.0 / e) == 0.0
  {
    assert IsUndone(pow, 0.0, e) && Grows(pow, 0.0, 0.0, e);
    ShareIsUnit(1.0, e);
    assert Grows(pow, 0.0, pow(0.0, e), 1.0 / e);
  }

  lemma FactorGrows(alpha: real, x: real, y: real, eta: real, pow: Power)
    requires PowerLaw(pow) && 1.0 <= alpha < 2.0 && 0.0 <= x <= y <= 1.0 && eta >= 0.0
    ensures Factor(alpha, x, eta, pow) <= Factor(alpha, y, eta, pow)
  {
    FactorSplits(alpha, x, eta, pow);
    FactorSplits(alpha, y, eta, pow);
    RestIsPositive(alpha, x);
    RestIsPositive(alpha, y);
    if y <= 1.0 / alpha {
      ScaleUp(alpha, x, y);
      RootsGrow(x * alpha, y * alpha, eta, pow);
    } else if x > 1.0 / alpha {
      ScaleUp(alpha, x, y);
      ReciprocalsFall(2.0 - y * alpha, 2.0 - x * alpha);
      RootsGrow(1.0 / (2.0 - x * alpha), 1.0 / (2.0 - y * alpha), eta, pow);
    }
  }

  lemma RootsGrow(a: real, b: real, eta: real, pow: Power)
    requires PowerLaw(pow) && 0.0 <= a <= b && eta >= 0.0
    ensures pow(a, 1.0 / (eta + 1.0)) <= pow(b, 1.0 / (eta + 1.0))
  {
    ShareIsUnit(1.0, eta + 1.0);
    assert Grows(pow, a, b, 1.0 / (eta + 1.0));
  }

  lemma ReciprocalsFall(x: real, y: real)
    requires 0.0 < x <= y
    ensures 0.0 < 1.0 / y <= 1.0 / x
  {
    var p, q := 1.0 / x, 1.0 / y;
    assert p * x == 1.0 && q * y == 1.0;
    if q <= 0.0 { ProductIsNonNegative(-q, y, -(q * y)); }
    if q > p { ProductIsNonNegative(q - p, x, (q - p) * x); ScaleUp(q, x, y); }
  }

  lemma FactorAtZero(alpha: real, eta: real, pow: Power)
    requires PowerLaw(pow) && 1.0 <= alpha < 2.0 && eta >= 0.0
    ensures Factor(alpha, 0.0, eta, pow) == 0.0
  {
    NothingToAPower(eta + 1.0, pow);
    BelowReciprocal(0.0, alpha, 0.0);
  }

  lemma FactorUpToSplit(alpha: real, rand: real, x: real, eta: real, pow: Power)
    requires 1.0 <= alpha < 2.0 && 0.0 <= rand <= 1.0 && eta >= 0.0 && rand <= 1.0 / alpha && x == rand * alpha
    ensures Factor(alpha, rand, eta, pow) == pow(x, 1.0 / (eta + 1.0))
  {
  }

  lemma FactorAtSplit(alpha: real, split: real, eta: real, pow: Power)
    requires PowerLaw(pow) && 1.0 <= alpha < 2.0 && eta >= 0.0 && split == 1.0 / alpha
    ensures 0.0 <= split <= 1.0 && Factor(alpha, split, eta, pow) == 1.0
  {
    ShareIsUnit(1.0, alpha);
    var x := split * alpha;
    assert x == 1.0 by { assert (1.0 / alpha) * alpha == 1.0; }
    assert KeepsOne(pow, 1.0 / (eta + 1.0));
    FactorUpToSplit(alpha, split, x, eta, pow);
  }

  /** What takes the lower child to the bound. */
  lemma FactorAtOne(low: real, y1: real, y2: real, eta: real, beta: real, pow: Power)
    requires PowerLaw(pow) && low <= y1 < y2 && eta >= 0.0 && beta == 1.0 + 2.0 * (y1 - low) / (y2 - y1)
    ensures var alpha := Alpha(low, y1, y2, eta, pow);
      1.0 <= alpha < 2.0 && Factor(alpha, 1.0, eta, pow) == beta
  {
    var alpha := Alpha(low, y1, y2, eta, pow);
    AlphaInRange(low, y1, y2, eta, pow);
    QuotientIsNonNegative(2.0 * (y1 - low), y2 - y1);
    PowersOfLarge(beta, eta + 1.0, pow);
    assert IsUndone(pow, beta, eta + 1.0);
    BelowReciprocal(1.0, alpha, alpha);
    assert 1.0 * alpha == alpha && 1.0 / 1.0 == 1.0;
  }

  /** What the draw of a crossover does: a larger one takes the children further apart, from the
      midpoint for draw 0 over the parents themselves to the lower bound for draw 1. */
  lemma CrossoverSweeps(low: real, y1: real, y2: real, eta: real, x: real, y: real, pow: Power)
    requires PowerLaw(pow) && low <= y1 < y2 && eta >= 0.0 && 0.0 <= x <= y <= 1.0
    ensures var alpha := Alpha(low, y1, y2, eta, pow);
      && 1.0 <= alpha < 2.0 && 0.0 <= 1.0 / alpha <= 1.0
      && var (a1, a2), (b1, b2) := Apart(y1, y2, Factor(alpha, x, eta, pow)), Apart(y1, y2, Factor(alpha, y, eta, pow));
      && b1 <= a1 && a2 <= b2
      && Apart(y1, y2, Factor(alpha, 0.0, eta, pow)) == ((y1 + y2) / 2.0, (y1 + y2) / 2.0)
      && Apart(y1, y2, Factor(alpha, 1.0 / alpha, eta, pow)) == (y1, y2)
      && Apart(y1, y2, Factor(alpha, 1.0, eta, pow)).0 == low
  {
    var alpha, beta := Alpha(low, y1, y2, eta, pow), 1.0 + 2.0 * (y1 - low) / (y2 - y1);
    FactorAtOne(low, y1, y2, eta, beta, pow);
    FactorGrows(alpha, x, y, eta, pow);
    FactorAtZero(alpha, eta, pow);
    FactorAtSplit(alpha, 1.0 / alpha, eta, pow);
    ApartGrows(y1, y2, Factor(alpha, x, eta, pow), Factor(alpha, y, eta, pow));
    ApartToTheBound(low, y1, y2, beta);
  }

  lemma ApartGrows(y1: real, y2: real, f: real, g: real)
    requires y1 < y2 && f <= g
    ensures Apart(y1, y2, g).0 <= Apart(y1, y2, f).0 && Apart(y1, y2, f).1 <= Apart(y1, y2, g).1
  {
    ScaleUp(y2 - y1, f, g);
  }

  lemma ApartToTheBound(low: real, y1: real, y2: real, beta: real)
    requires y1 < y2 && beta == 1.0 + 2.0 * (y1 - low) / (y2 - y1)
    ensures Apart(y1, y2, beta).0 == low
  {
    var q, w := 2.0 * (y1 - low) / (y2 - y1), y2 - y1;
    assert q * w == 2.0 * (y1 - low);
    assert beta * w == w + q * w;
  }

  method SpreadBy(y1: real, y2: real, betaq: real) returns (c1: real, c2: real)
    ensures (c1, c2) == Apart(y1, y2, betaq)
  {
    c1 := 0.5 * ((y1 + y2) - betaq * (y2 - y1));
    c2 := 0.5 * ((y1 + y2) + betaq * (y2 - y1));
  }

  method SpreadFactor(alpha: real, rand: real, eta: real, pow: Power) returns (betaq: real)
    requires 1.0 <= alpha < 2.0 && 0.0 <= rand <= 1.0 && eta >= 0.0
    ensures betaq == Factor(alpha, rand, eta, pow)
  {
    RestIsPositive(alpha, rand);
    if rand <= 1.0 / alpha {
      betaq := pow(rand * alpha, 1.0 / (eta + 1.0));
    } else {
      betaq := pow(1.0 / (2.0 - rand * alpha), 1.0 / (eta + 1.0));
    }
  }

  /** The arithmetic of a mutation, once its draw is made. */
  method MoveFor(low: real, high: real, value: real, eta: real, rand: real, pow: Power) returns (deltaq: real)
    requires low < high && eta >= 0.0
    ensures deltaq == Move(low, high, value, eta, rand, pow)
  {
    var delta1, delta2 := (value - low) / (high - low), (high - value) / (high - low);
    if rand < 0.5 {
      var xy := 1.0 - delta1;
      var val := Blend(2.0 * rand, 1.0 - 2.0 * rand, pow(xy, eta + 1.0));
      deltaq := pow(val, 1.0 / (eta + 1.0)) - 1.0;
    } else {
      var xy := 1.0 - delta2;
      var val := Blend(2.0 * (1.0 - rand), 2.0 * (rand - 0.5), pow(xy, eta + 1.0));
      deltaq := 1.0 - pow(val, 1.0 / (eta + 1.0));
    }
  }

  method MutateBy(low: real, high: real, value: real, eta: real, rand: real, pow: Power) returns (r: real)
    requires low < high && eta >= 0.0
    ensures r == Mutated(low, high, value, eta, rand, pow)
  {
    var deltaq := MoveFor(low, high, value, eta, rand, pow);
    r := Clamp(low, high, value + deltaq * (high - low));
  }

  method Blend(share: real, rest: real, power: real) returns (val: real)
    requires rest == 1.0 - share
    ensures val == Mix(share, power)
  {
    val := share + rest * power;
  }
}
