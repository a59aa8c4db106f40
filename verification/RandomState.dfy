/** A pseudo-random generator seen as a tape of draws: what is proved of a run holds for
    every tape, hence for every seed.

    A draw reads the next cell of the tape, so two runs over the same tape draw the same numbers. */
module RandomState {
  type Unit = r: real | 0.0 <= r < 1.0 witness 0.0

  class Generator {
    const tape: nat -> Unit
    var next: nat

    constructor (tape: nat -> Unit)
      ensures this.tape == tape && next == 0
    {
      this.tape, next := tape, 0;
    }

    /** One draw from `[0, 1)`. */
    method Random() returns (r: real)
      modifies this
      ensures next == old(next) + 1 && r == tape(old(next))
      ensures 0.0 <= r < 1.0
    {
      r := tape(next);
      next := next + 1;
    }

    /** One draw from `[low, high]`. */
    method Uniform(low: real, high: real) returns (r: real)
      requires low <= high
      modifies this
      ensures next == old(next) + 1 && r == Stretched(low, high, tape(old(next))) && low <= r <= high
    {
      var u := Random();
      var width := high - low;
      Scaled(width, u);
      r := low + width * u;
      StretchedMeans(low, high, u);
    }

    /** One draw from `0 .. n`. */
    method RandInt(n: nat) returns (k: nat)
      requires n > 0
      modifies this
      ensures next == old(next) + 1 && k == Pick(tape(old(next)), n)
    {
      var u := Random();
      var part := n as real * u;
      OnlyOnePart(u, n, part);
      k := part.Floor;
    }
  }

  /** The unit interval stretched over a range. Like the next one it is named by its value, so that
      its arithmetic stays out of the loops that draw. */
  ghost function Stretched(low: real, high: real, u: Unit): real {
    var x :| x == low + (high - low) * u;
    x
  }

  lemma StretchedMeans(low: real, high: real, u: Unit)
    ensures Stretched(low, high, u) == low + (high - low) * u
  {
  }

  /** Which of `n` equal parts of the unit interval the draw falls into. */
  ghost function Pick(u: Unit, n: nat): (k: nat)
    requires n > 0
    ensures k < n
  {
    PartExists(u, n);
    var k: nat :| IsPart(u, n, k);
    k
  }

  ghost predicate IsPart(u: Unit, n: nat, k: nat) { k < n && k as real <= n as real * u < k as real + 1.0 }

  lemma PartExists(u: Unit, n: nat)
    requires n > 0
    ensures exists k: nat :: IsPart(u, n, k)
  {
    Scaled(n as real, u);
    assert IsPart(u, n, (n as real * u).Floor);
  }

  lemma OnlyOnePart(u: Unit, n: nat, part: real)
    requires n > 0 && part == n as real * u
    ensures part.Floor == Pick(u, n)
  {
    PartExists(u, n);
    IsFloor(part, Pick(u, n));
  }

  lemma IsFloor(x: real, k: int)
    requires k as real <= x < k as real + 1.0
    ensures x.Floor == k
  {
  }

  lemma Scaled(a: real, u: real)
    requires a >= 0.0 && 0.0 <= u < 1.0
    ensures 0.0 <= a * u <= a && (a > 0.0 ==> a * u < a)
  {
    assert a * (1.0 - u) >= 0.0;
    assert a > 0.0 ==> a * (1.0 - u) > 0.0;
    assert a * u + a * (1.0 - u) == a;
  }
}
