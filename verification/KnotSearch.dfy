/** The search over knots that interpolates a score, whatever the order of the knots.

    Knots are values with scores; the search takes the first pair of neighbours that surrounds a
    value. On knots whose scores rise along the list it is monotone exactly if their values are in
    order, which is what is proved here for the thresholds of `services/judge/scorer.py`. */
module KnotSearch {
  import opened Common
  import opened Arithmetic

  /** A point of the interpolated curve; no value stands for the infinite end. */
  datatype Knot = Knot(at: Option<real>, score: real)

  /** `a` may stand before `b` in a descending order, the infinite end first. */
  predicate Descends(a: Knot, b: Knot) { a.at.None? || (b.at.Some? && a.at.value >= b.at.value) }

  function Insert(k: Knot, sorted: seq<Knot>): seq<Knot> {
    if sorted != [] && Descends(sorted[0], k) then [sorted[0]] + Insert(k, sorted[1..]) else [k] + sorted
  }

  /** The stable sort by descending position. */
  function SortDescending(ks: seq<Knot>): seq<Knot> {
    if ks == [] then [] else Insert(ks[|ks| - 1], SortDescending(ks[..|ks| - 1]))
  }

  /** The share of the way from `a` to `b`. */
  function Between(a: Knot, b: Knot, value: real): real
    requires a.at.Some? && b.at.Some?
  {
    var ratio := if a.at.value != b.at.value then (value - a.at.value) / (b.at.value - a.at.value) else 0.0;
    a.score + ratio * (b.score - a.score)
  }

  lemma BetweenEnds(a: Knot, b: Knot)
    requires a.at.Some? && b.at.Some? && a.at.value != b.at.value
    ensures Between(a, b, a.at.value) == a.score && Between(a, b, b.at.value) == b.score
  {
  }

  predicate Surrounds(a: Knot, b: Knot, value: real, lowerIsBetter: bool) {
    && b.at.Some?
    && if lowerIsBetter then (a.at.None? || a.at.value >= value) && value >= b.at.value
       else (a.at.None? || a.at.value <= value) && value <= b.at.value
  }

  /** The score between two knots; on the way from the infinite end nothing is interpolated. */
  function PairScore(a: Knot, b: Knot, value: real): real
    requires b.at.Some?
  {
    if a.at.None? then if value == b.at.value then b.score else a.score else Between(a, b, value)
  }

  /** The score from the first pair of neighbouring knots around the value, looking from the
      `i`-th on; beyond the last, full marks. */
  function Interpolated(ks: seq<Knot>, i: nat, value: real, lowerIsBetter: bool): real
    decreases |ks| - i
  {
    if i + 1 >= |ks| then 1.0
    else if Surrounds(ks[i], ks[i + 1], value, lowerIsBetter) then PairScore(ks[i], ks[i + 1], value)
    else Interpolated(ks, i + 1, value, lowerIsBetter)
  }

  lemma {:induction false} SortedStays(ks: seq<Knot>)
    requires forall i, j | 0 <= i < j < |ks| :: Descends(ks[i], ks[j])
    ensures SortDescending(ks) == ks
  {
    if ks != [] {
      SortedStays(ks[..|ks| - 1]);
      InsertLast(ks[|ks| - 1], ks[..|ks| - 1]);
    }
  }

  lemma {:induction false} InsertLast(k: Knot, sorted: seq<Knot>)
    requires forall i | 0 <= i < |sorted| :: Descends(sorted[i], k)
    ensures Insert(k, sorted) == sorted + [k]
  {
    if sorted != [] { InsertLast(k, sorted[1..]); }
  }

  /** On one segment: between its scores, and never falling towards its far end. */
  lemma SegmentIsMonotone(a: Knot, b: Knot, value: real, better: real)
    requires a.at.Some? && b.at.Some? && a.at.value != b.at.value && a.score <= b.score
    requires if a.at.value < b.at.value then a.at.value <= value <= better <= b.at.value
      else a.at.value >= value >= better >= b.at.value
    ensures a.score <= Between(a, b, value) <= Between(a, b, better) <= b.score
  {
    var y, rise := b.at.value - a.at.value, b.score - a.score;
    var p, q := (value - a.at.value) / y, (better - a.at.value) / y;
    Rises(p, q, rise);
  }

  lemma Rises(p: real, q: real, rise: real)
    requires 0.0 <= p <= q <= 1.0 && rise >= 0.0
    ensures 0.0 <= p * rise <= q * rise <= rise
  {
    assert p * rise >= 0.0;
    assert (q - p) * rise >= 0.0;
    assert (1.0 - q) * rise >= 0.0;
  }

  // ----- interpolation over any bounds -----

  /** The infinite end, then finite knots whose scores do not fall, wherever they stand. */
  ghost predicate Rising(ks: seq<Knot>) {
    && ks != [] && ks[0].at.None?
    && (forall i | 1 <= i < |ks| :: ks[i].at.Some?)
    && (forall i, j | 0 <= i < j < |ks| :: ks[i].score <= ks[j].score)
    && forall i | 0 <= i < |ks| :: ks[i].score <= 1.0
  }

  /** How far along a value is: improving it moves it forward. */
  function Along(value: real, lower: bool): real { if lower then -value else value }

  /** The first pair around the value from the `i`-th on, or the number of knots. */
  ghost function FirstPair(ks: seq<Knot>, i: nat, value: real, lower: bool): (p: nat)
    ensures p < |ks| ==> i <= p < |ks| - 1 && Surrounds(ks[p], ks[p + 1], value, lower)
    ensures forall h: nat | i <= h < |ks| - 1 && Surrounds(ks[h], ks[h + 1], value, lower) :: p <= h
    ensures p <= |ks|
    decreases |ks| - i
  {
    if i + 1 >= |ks| then |ks| else if Surrounds(ks[i], ks[i + 1], value, lower) then i
      else FirstPair(ks, i + 1, value, lower)
  }

  lemma {:induction false} ScoreOfFirstPair(ks: seq<Knot>, i: nat, value: real, lower: bool)
    ensures var p := FirstPair(ks, i, value, lower);
      Interpolated(ks, i, value, lower) == if p < |ks| then PairScore(ks[p], ks[p + 1], value) else 1.0
    decreases |ks| - i
  {
    if i + 1 < |ks| && !Surrounds(ks[i], ks[i + 1], value, lower) { ScoreOfFirstPair(ks, i + 1, value, lower); }
  }

  /** Who has not passed knot `j` has found a pair in front of it. */
  lemma {:induction false} FoundBefore(ks: seq<Knot>, value: real, j: nat, lower: bool)
    requires Rising(ks) && 1 <= j < |ks| && Along(value, lower) <= Along(ks[j].at.value, lower)
    ensures FirstPair(ks, 0, value, lower) < j
  {
    if j > 1 && Along(value, lower) <= Along(ks[j - 1].at.value, lower) {
      FoundBefore(ks, value, j - 1, lower);
    } else {
      assert Surrounds(ks[j - 1], ks[j], value, lower);
    }
  }

  /** An improvement never finds an earlier pair. */
  lemma PairsAdvance(ks: seq<Knot>, value: real, better: real, lower: bool)
    requires Rising(ks) && Along(value, lower) <= Along(better, lower)
    ensures FirstPair(ks, 0, value, lower) <= FirstPair(ks, 0, better, lower)
  {
    var q := FirstPair(ks, 0, better, lower);
    if q < |ks| { FoundBefore(ks, value, q + 1, lower); }
  }

  /** Between two knots whose scores do not fall: bounded by them, and not falling either. */
  lemma PairIsMonotone(a: Knot, b: Knot, value: real, better: real, lower: bool)
    requires Surrounds(a, b, value, lower) && Surrounds(a, b, better, lower) && a.score <= b.score
    requires Along(value, lower) <= Along(better, lower)
    ensures a.score <= PairScore(a, b, value) <= PairScore(a, b, better) <= b.score
  {
    if a.at.Some? && a.at.value != b.at.value { SegmentIsMonotone(a, b, value, better); }
  }

  /** Wherever the finite knots stand: as long as their scores do not fall, neither does the score. */
  lemma RisingIsMonotone(ks: seq<Knot>, value: real, better: real, lower: bool)
    requires Rising(ks) && Along(value, lower) <= Along(better, lower)
    ensures Interpolated(ks, 0, value, lower) <= Interpolated(ks, 0, better, lower)
  {
    var p, q := FirstPair(ks, 0, value, lower), FirstPair(ks, 0, better, lower);
    ScoreOfFirstPair(ks, 0, value, lower);
    ScoreOfFirstPair(ks, 0, better, lower);
    PairsAdvance(ks, value, better, lower);
    if p < |ks| {
      if p == q {
        PairIsMonotone(ks[p], ks[p + 1], value, better, lower);
      } else {
        PairIsMonotone(ks[p], ks[p + 1], value, value, lower);
        if q < |ks| { PairIsMonotone(ks[q], ks[q + 1], better, better, lower); }
      }
    }
  }

  /** Sorting the knots has put one in front of another of lower score. */
  ghost predicate Falls(ks: seq<Knot>, i: nat) {
    && i + 1 < |ks| && ks[i].at.Some? && ks[i + 1].at.Some?
    && ks[i].score > ks[i + 1].score && ks[i].at.value > ks[i + 1].at.value
  }

  /** Where a knot is inserted: in front of the first one that stands lower. */
  ghost function Slot(k: Knot, sorted: seq<Knot>): (m: nat)
    ensures m <= |sorted| && (forall i | 0 <= i < m :: Descends(sorted[i], k))
    ensures m < |sorted| ==> !Descends(sorted[m], k)
  {
    if sorted != [] && Descends(sorted[0], k) then 1 + Slot(k, sorted[1..]) else 0
  }

  lemma {:induction false} InsertedAtSlot(k: Knot, sorted: seq<Knot>)
    ensures var m := Slot(k, sorted); Insert(k, sorted) == sorted[..m] + [k] + sorted[m..]
  {
    if sorted != [] && Descends(sorted[0], k) {
      InsertedAtSlot(k, sorted[1..]);
      var m := Slot(k, sorted[1..]);
      assert sorted[..m + 1] == [sorted[0]] + sorted[1..][..m] && sorted[m + 1..] == sorted[1..][m..];
    }
  }

  /** In descending order, and of knots at one place the one of lower score first. */
  ghost predicate Sorted(ks: seq<Knot>) {
    forall i, j | 0 <= i < j < |ks| :: Descends(ks[i], ks[j]) && (ks[i].at == ks[j].at ==> ks[i].score <= ks[j].score)
  }

  /** Every score is below the next, and only the first knot may be the infinite end. */
  ghost predicate Climbing(ks: seq<Knot>) {
    && (forall i, j | 0 <= i < j < |ks| :: ks[i].score < ks[j].score)
    && forall i | 1 <= i < |ks| :: ks[i].at.Some?
  }

  lemma {:induction false} SortKeepsKnots(ks: seq<Knot>)
    ensures |SortDescending(ks)| == |ks| && forall k :: k in SortDescending(ks) <==> k in ks
  {
    if ks != [] {
      var before, last := ks[..|ks| - 1], ks[|ks| - 1];
      SortKeepsKnots(before);
      InsertedAtSlot(last, SortDescending(before));
      var s, m := SortDescending(before), Slot(last, SortDescending(before));
      assert ks == before + [last] && s == s[..m] + s[m..];
    }
  }

  lemma InsertKeepsSorted(k: Knot, sorted: seq<Knot>)
    requires Sorted(sorted) && forall x | x in sorted :: x.score < k.score
    ensures Sorted(Insert(k, sorted))
  {
    InsertedAtSlot(k, sorted);
    var m, r := Slot(k, sorted), Insert(k, sorted);
    forall i, j | 0 <= i < j < |r|
      ensures Descends(r[i], r[j]) && (r[i].at == r[j].at ==> r[i].score <= r[j].score)
    {
      if i == m {
        assert Descends(sorted[m], sorted[j - 1]) || j - 1 == m;
      } else if j == m {
        assert sorted[i] in sorted;
      }
    }
  }

  lemma {:induction false} SortIsSorted(ks: seq<Knot>)
    requires Climbing(ks)
    ensures Sorted(SortDescending(ks))
  {
    if ks != [] {
      var before := ks[..|ks| - 1];
      SortIsSorted(before);
      SortKeepsKnots(before);
      InsertKeepsSorted(ks[|ks| - 1], SortDescending(before));
    }
  }

  /** Either the knots were in descending order, or sorting has put one in front of a lower score. */
  lemma {:induction false} SortStaysOrFalls(ks: seq<Knot>)
    requires Climbing(ks)
    ensures SortDescending(ks) == ks || exists i: nat :: Falls(SortDescending(ks), i)
  {
    if ks != [] {
      var before, last := ks[..|ks| - 1], ks[|ks| - 1];
      var s := SortDescending(before);
      SortStaysOrFalls(before);
      SortKeepsKnots(before);
      if s == before { assert ks == s + [last]; }
      InsertedStaysOrFalls(last, s);
    }
  }

  /** A knot that scores more than those before goes behind them, or in front of one that stands lower. */
  lemma InsertedStaysOrFalls(last: Knot, s: seq<Knot>)
    requires forall k | k in s :: k.score < last.score
    requires s != [] ==> last.at.Some?
    ensures Insert(last, s) == s + [last] || exists i: nat :: Falls(Insert(last, s), i)
    ensures (exists i: nat :: Falls(s, i)) ==> exists i: nat :: Falls(Insert(last, s), i)
  {
    InsertedAtSlot(last, s);
    var m, r := Slot(last, s), Insert(last, s);
    if m < |s| {
      assert s[m] in s && r[m] == last && r[m + 1] == s[m];
      assert Falls(r, m);
    } else if i: nat :| Falls(s, i) {
      assert r[i] == s[i] && r[i + 1] == s[i + 1];
      assert Falls(r, i);
    }
  }

  /** Moving to the lower end of such a pair, an improvement, loses score. */
  lemma FallLosesScore(ks: seq<Knot>, i: nat) returns (value: real, better: real)
    requires Sorted(ks) && Falls(ks, i)
    ensures better < value && Interpolated(ks, 0, value, true) > Interpolated(ks, 0, better, true)
  {
    var a, b := ks[i], ks[i + 1];
    better, value := b.at.value, (a.at.value + b.at.value) / 2.0;
    OnlyPairAround(ks, i, value);
    OnlyPairAround(ks, i, better);
    HalfWay(a, b, value);
  }

  lemma HalfWay(a: Knot, b: Knot, value: real)
    requires a.at.Some? && b.at.Some? && a.at.value != b.at.value && value == (a.at.value + b.at.value) / 2.0
    ensures Between(a, b, value) == (a.score + b.score) / 2.0 && Between(a, b, b.at.value) == b.score
  {
    var y := b.at.value - a.at.value;
    var ratio := (value - a.at.value) / y;
    assert ratio * y == y / 2.0;
    assert (ratio - 0.5) * y == 0.0;
    BetweenEnds(a, b);
  }

  lemma OnlyPairAround(ks: seq<Knot>, i: nat, value: real)
    requires Sorted(ks) && i + 1 < |ks| && ks[i].at.Some? && ks[i + 1].at.Some?
    requires ks[i].at.value > value >= ks[i + 1].at.value
    ensures Interpolated(ks, 0, value, true) == PairScore(ks[i], ks[i + 1], value)
  {
    ScoreOfFirstPair(ks, 0, value, true);
    assert Surrounds(ks[i], ks[i + 1], value, true);
    forall h | 0 <= h < i ensures !Surrounds(ks[h], ks[h + 1], value, true) {
      if h + 1 < i { assert Descends(ks[h + 1], ks[i]); }
    }
  }

  lemma SortOfFive(ks: seq<Knot>)
    requires |ks| == 5
    ensures SortDescending(ks) == Insert(ks[4], Insert(ks[3], Insert(ks[2], Insert(ks[1], Insert(ks[0], [])))))
  {
    assert ks[..4][..3] == ks[..3] && ks[..3][..2] == ks[..2] && ks[..2][..1] == ks[..1] && ks[..1][..0] == [];
    assert SortDescending(ks[..1]) == Insert(ks[0], []);
    assert SortDescending(ks[..2]) == Insert(ks[1], SortDescending(ks[..1]));
    assert SortDescending(ks[..3]) == Insert(ks[2], SortDescending(ks[..2]));
  }

  /** At a knot the score is at most the knot's: of the knots at one place the first counts. */
  lemma AtMostTheKnot(ks: seq<Knot>, q: nat)
    requires Sorted(ks) && 1 <= q < |ks| && ks[q].at.Some?
    ensures Interpolated(ks, 0, ks[q].at.value, true) <= ks[q].score
  {
    var value := ks[q].at.value;
    ScoreOfFirstPair(ks, 0, value, true);
    assert Descends(ks[q - 1], ks[q]);
    assert Surrounds(ks[q - 1], ks[q], value, true);
    var p := FirstPair(ks, 0, value, true);
    var a, b := ks[p], ks[p + 1];
    assert b.at == Some(value) && b.score <= ks[q].score by {
      if p + 1 < q { assert Descends(b, ks[q]); }
    }
    if a.at.Some? && a.at != b.at { BetweenEnds(a, b); }
  }

  lemma SortedKnotBounds(ks: seq<Knot>, i: nat)
    requires Climbing(ks) && 1 <= i < |ks| && ks[0].at.None?
    ensures Interpolated(SortDescending(ks), 0, ks[i].at.value, true) <= ks[i].score
  {
    var s := SortDescending(ks);
    SortIsSorted(ks);
    SortKeepsKnots(ks);
    assert ks[0] in ks && ks[i] in ks;
    var n :| 0 <= n < |s| && s[n] == ks[0];
    var q :| 0 <= q < |s| && s[q] == ks[i];
    assert q > 0 by { if n > 0 { assert Descends(s[0], s[n]); } }
    AtMostTheKnot(s, q);
  }

  lemma RisingKnotBounds(ks: seq<Knot>, i: nat, lower: bool)
    requires Rising(ks) && 1 <= i < |ks|
    ensures Interpolated(ks, 0, ks[i].at.value, lower) <= ks[i].score
  {
    var value := ks[i].at.value;
    FoundBefore(ks, value, i, lower);
    ScoreOfFirstPair(ks, 0, value, lower);
    var p := FirstPair(ks, 0, value, lower);
    PairIsMonotone(ks[p], ks[p + 1], value, value, lower);
  }
}
