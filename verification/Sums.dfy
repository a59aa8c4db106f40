/** Finite sums of real-valued functions.

    A grid's total is a sum of its rows' sums and a clamped neighbour is a shifted copy of a row,
    so that conservation on the grid comes down to the lemmas on shifted sums proved here. */
module Sums {
  /** `f(0) + ... + f(n - 1)` */
  function Sum(f: nat -> real, n: nat): real {
    if n == 0 then 0.0 else Sum(f, n - 1) + f(n - 1)
  }

  lemma {:induction false} SumCongruence(f: nat -> real, g: nat -> real, n: nat)
    requires forall i: nat | i < n :: f(i) == g(i)
    ensures Sum(f, n) == Sum(g, n)
  {
    if n > 0 { SumCongruence(f, g, n - 1); }
  }

  lemma {:induction false} SumOfThree(f: nat -> real, a: nat -> real, b: nat -> real, c: nat -> real, n: nat)
    requires forall i: nat | i < n :: f(i) == a(i) + b(i) + c(i)
    ensures Sum(f, n) == Sum(a, n) + Sum(b, n) + Sum(c, n)
  {
    if n > 0 { SumOfThree(f, a, b, c, n - 1); }
  }

  /** At `i`, `f` is `a` times `g` plus `b` times `h`. */
  ghost predicate IsMix(f: nat -> real, a: real, g: nat -> real, b: real, h: nat -> real, i: nat) {
    f(i) == a * g(i) + b * h(i)
  }

  lemma {:induction false} SumOfMix(f: nat -> real, a: real, g: nat -> real, b: real, h: nat -> real, n: nat)
    requires forall i: nat | i < n :: IsMix(f, a, g, b, h, i)
    ensures Sum(f, n) == a * Sum(g, n) + b * Sum(h, n)
  {
    if n > 0 {
      SumOfMix(f, a, g, b, h, n - 1);
      assert IsMix(f, a, g, b, h, n - 1);
      Distribute(a, Sum(g, n - 1), g(n - 1));
      Distribute(b, Sum(h, n - 1), h(n - 1));
    }
  }

  lemma Distribute(a: real, x: real, y: real)
    ensures a * (x + y) == a * x + a * y
  {
  }

  lemma {:induction false} SumIsNonNegative(f: nat -> real, n: nat)
    requires forall i: nat | i < n :: f(i) >= 0.0
    ensures Sum(f, n) >= 0.0
  {
    if n > 0 { SumIsNonNegative(f, n - 1); }
  }

  lemma {:induction false} SumIsZero(f: nat -> real, n: nat)
    requires forall i: nat | i < n :: f(i) == 0.0
    ensures Sum(f, n) == 0.0
  {
    if n > 0 { SumIsZero(f, n - 1); }
  }

  /** The neighbour before, the first element being its own. */
  function Before(f: nat -> real): nat -> real {
    (i: nat) => f(if i == 0 then 0 else i - 1)
  }

  /** The neighbour behind, the last of `n` elements being its own. */
  function Behind(f: nat -> real, n: nat): nat -> real {
    (i: nat) => f(if i + 1 < n then i + 1 else if n == 0 then 0 else n - 1)
  }

  lemma {:induction false} SumBefore(f: nat -> real, k: nat)
    ensures Sum(Before(f), k + 1) == Sum(f, k) + f(0)
  {
    if k > 0 { SumBefore(f, k - 1); }
  }

  lemma {:induction false} SumBehind(f: nat -> real, n: nat, k: nat)
    requires k < n
    ensures Sum(Behind(f, n), k) == Sum(f, k + 1) - f(0)
  {
    if k > 0 { SumBehind(f, n, k - 1); }
  }

  /** With clamped ends, the neighbours on both sides together sum to twice the total: what
      an end lends itself on one side makes up for what its neighbour lacks on the other. */
  lemma NeighboursSumToTwice(f: nat -> real, n: nat)
    requires n > 0
    ensures Sum(Before(f), n) + Sum(Behind(f, n), n) == 2.0 * Sum(f, n)
  {
    SumBefore(f, n - 1);
    SumBehind(f, n, n - 1);
  }

  lemma SumOfDifference(f: nat -> real, g: nat -> real, h: nat -> real, n: nat)
    requires forall i: nat | i < n :: f(i) == g(i) - h(i)
    ensures Sum(f, n) == Sum(g, n) - Sum(h, n)
  {
    SumOfThree(g, f, h, (i: nat) => 0.0, n);
    SumIsZero((i: nat) => 0.0, n);
  }

  /** Upwind differences along a line of `n` elements, with clamped ends. */
  function Slope(f: nat -> real, n: nat, wind: real): nat -> real {
    (i: nat) => if wind > 0.0 then f(i) - Before(f)(i) else Behind(f, n)(i) - f(i)
  }

  /** Whichever way they are taken, the differences telescope. */
  lemma SlopeTelescopes(f: nat -> real, n: nat, wind: real)
    requires n > 0
    ensures Sum(Slope(f, n, wind), n) == f(n - 1) - f(0)
  {
    if wind > 0.0 {
      SumBefore(f, n - 1);
      SumOfDifference(Slope(f, n, wind), f, Before(f), n);
    } else {
      SumBehind(f, n, n - 1);
      SumOfDifference(Slope(f, n, wind), Behind(f, n), f, n);
    }
  }
}
