/** `services/evidence/claims.py`: what makes two claims conflict, and which conflicts a list of
    claims contains. */
module Claims {
  import opened Common
  import opened Arithmetic

  /** A claim's fixed part. `subject` is the lower-cased grouping key; dates are in microseconds. */
  datatype Fact = Fact(id: string, subject: string, predicate_: string, object_: string, numeric: bool,
                       document: string, unit: Option<string>, value: Option<real>, normalized: Option<real>,
                       date: Option<int>)

  datatype Kind = NumericDiscrepancy | UnitMismatch | Freshness

  /** One reason two claims conflict. */
  datatype Finding = Finding(kind: Kind, severity: real)

  /** The verifier's thresholds; `base` maps a unit to its base unit, ignoring case. */
  datatype Settings = Settings(tolerance: real, threshold: int, base: string -> string)

  const DAY: int := 86_400_000_000

  /** A unit that is given and not empty. */
  predicate HasUnit(f: Fact) { f.unit.Some? && f.unit.value != "" }

  /** The normalised value, unless it is missing or zero, and else the value as read. */
  function ComparedValue(f: Fact): Option<real> {
    if f.normalized.Some? && f.normalized.value != 0.0 then f.normalized else f.value
  }

  function CheckNumeric(a: Fact, b: Fact, s: Settings): Option<Finding> {
    if HasUnit(a) && HasUnit(b) && s.base(a.unit.value) != s.base(b.unit.value) then Some(Finding(UnitMismatch, 0.3))
    else
      var x, y := ComparedValue(a), ComparedValue(b);
      if x.None? || y.None? then None
      else
        var average := (Abs(x.value) + Abs(y.value)) / 2.0;
        if average < 0.0000000001 then None
        else
          var difference := Abs(x.value - y.value) / average;
          if difference > s.tolerance then Some(Finding(NumericDiscrepancy, Min(1.0, difference))) else None
  }

  function CheckFreshness(a: Fact, b: Fact, s: Settings): Option<Finding>
    requires s.threshold >= 1 && a.date.Some? && b.date.Some?
  {
    var (newer, older) := if a.date.value > b.date.value then (a, b) else (b, a);
    var age := (newer.date.value - older.date.value) / DAY;
    if age > s.threshold && newer.object_ != older.object_ then
      Some(Finding(Freshness, Min(1.0, age as real / (s.threshold * 2) as real)))
    else None
  }

  function Listed<T>(o: Option<T>): seq<T> { if o.Some? then [o.value] else [] }

  /** A pair can conflict in value and in freshness at once. */
  function CheckPair(a: Fact, b: Fact, s: Settings): seq<Finding>
    requires s.threshold >= 1
  {
    if a.predicate_ != b.predicate_ then []
    else
      var numeric := if a.numeric && b.numeric then CheckNumeric(a, b, s) else None;
      var freshness := if a.date.Some? && b.date.Some? then CheckFreshness(a, b, s) else None;
      Listed(numeric) + Listed(freshness)
  }

  /** Severities are fractions. */
  lemma SeverityIsAFraction(a: Fact, b: Fact, s: Settings)
    requires s.threshold >= 1
    ensures forall f | f in CheckPair(a, b, s) :: 0.0 <= f.severity <= 1.0
  {
    if a.numeric && b.numeric {
      var x, y := ComparedValue(a), ComparedValue(b);
      if x.Some? && y.Some? {
        var average := (Abs(x.value) + Abs(y.value)) / 2.0;
        if average >= 0.0000000001 { QuotientIsNonNegative(Abs(x.value - y.value), average); }
      }
    }
    if a.date.Some? && b.date.Some? {
      var age := (if a.date.value > b.date.value then a.date.value - b.date.value
        else b.date.value - a.date.value) / DAY;
      QuotientIsNonNegative(age as real, (s.threshold * 2) as real);
    }
  }

  /** What two claims are found to disagree on does not depend on which comes first. */
  lemma CheckPairIsSymmetric(a: Fact, b: Fact, s: Settings)
    requires s.threshold >= 1
    ensures CheckPair(a, b, s) == CheckPair(b, a, s)
  {
    assert CheckNumeric(a, b, s) == CheckNumeric(b, a, s);
    if a.date.Some? && b.date.Some? { assert CheckFreshness(a, b, s) == CheckFreshness(b, a, s); }
  }

  // ----- what the findings mean -----

  ghost predicate Reports(a: Fact, b: Fact, s: Settings, kind: Kind)
    requires s.threshold >= 1
  {
    exists f :: f in CheckPair(a, b, s) && f.kind == kind
  }

  function Larger(x: int, y: int): int { if x > y then x else y }

  /** How long, in microseconds, the claims lie apart. */
  function Gap(a: Fact, b: Fact): (gap: int)
    requires a.date.Some? && b.date.Some?
    ensures gap >= 0 && (gap == a.date.value - b.date.value || gap == b.date.value - a.date.value)
  {
    Larger(a.date.value - b.date.value, b.date.value - a.date.value)
  }

  lemma WholeDays(gap: int, days: int)
    requires days * 86_400_000_000 <= gap < (days + 1) * 86_400_000_000
    ensures gap / DAY == days
  {
  }

  /** A freshness conflict is reported exactly if the predicates are equal, both claims are dated, they
      lie more than the threshold of whole days apart, and the objects differ. */
  lemma FreshnessMeans(a: Fact, b: Fact, s: Settings)
    requires s.threshold >= 1
    ensures Reports(a, b, s, Freshness) <==>
      && a.predicate_ == b.predicate_ && a.date.Some? && b.date.Some?
      && Gap(a, b) >= (s.threshold + 1) * 86_400_000_000 && a.object_ != b.object_
  {
    if a.predicate_ == b.predicate_ && a.date.Some? && b.date.Some? {
      WholeDays(Gap(a, b), Gap(a, b) / DAY);
      var f := CheckFreshness(a, b, s);
      if f.Some? { assert f.value in CheckPair(a, b, s); }
    }
  }

  /** It weighs the age in whole days over twice the threshold, at most one. */
  lemma FreshnessWeighs(a: Fact, b: Fact, s: Settings, f: Finding, days: int)
    requires s.threshold >= 1 && f in CheckPair(a, b, s) && f.kind == Freshness && a.date.Some? && b.date.Some?
    requires days * 86_400_000_000 <= Gap(a, b) < (days + 1) * 86_400_000_000
    ensures f.severity == if days >= 2 * s.threshold then 1.0 else days as real / (2.0 * s.threshold as real)
  {
    WholeDays(Gap(a, b), days);
    AgeOverTwice(days, s.threshold);
  }

  lemma AgeOverTwice(age: int, threshold: int)
    requires threshold >= 1 && age >= 0
    ensures Min(1.0, age as real / (threshold * 2) as real)
      == if age >= 2 * threshold then 1.0 else age as real / (2.0 * threshold as real)
  {
    var d := (threshold * 2) as real;
    var q := age as real / d;
    assert q * d == age as real;
    InOrder(1.0, q, d, d, age as real);
  }

  /** The units are given, not empty, and have different bases. */
  ghost predicate UnitsClash(a: Fact, b: Fact, s: Settings) {
    && a.unit.Some? && b.unit.Some? && a.unit.value != "" && b.unit.value != ""
    && s.base(a.unit.value) != s.base(b.unit.value)
  }

  /** A unit conflict is reported exactly if the predicates are equal, both claims are numeric and their
      units have different bases; it always weighs the same. */
  lemma UnitMismatchMeans(a: Fact, b: Fact, s: Settings)
    requires s.threshold >= 1
    ensures Reports(a, b, s, UnitMismatch) <==>
      && a.predicate_ == b.predicate_ && a.numeric && b.numeric
      && a.unit.Some? && b.unit.Some? && a.unit.value != "" && b.unit.value != ""
      && s.base(a.unit.value) != s.base(b.unit.value)
    ensures forall f | f in CheckPair(a, b, s) && f.kind == UnitMismatch :: f.severity == 0.3
  {
    if a.predicate_ == b.predicate_ && a.numeric && b.numeric {
      var f := CheckNumeric(a, b, s);
      if f.Some? { assert f.value in CheckPair(a, b, s); }
    }
  }

  /** The value compared is the normalised one, unless that is missing or zero. */
  lemma ComparedMeans(f: Fact)
    ensures ComparedValue(f) ==
      if f.normalized.None? || f.normalized == Some(0.0) then f.value else f.normalized
  {
  }

  /** A discrepancy is reported exactly if the units do not clash, both values are known and not
      all but zero, and their distance exceeds the tolerance times their mean magnitude. */
  lemma DiscrepancyMeans(a: Fact, b: Fact, s: Settings, x: real, y: real, mean: real)
    requires s.threshold >= 1 && ComparedValue(a) == Some(x) && ComparedValue(b) == Some(y)
    requires 2.0 * mean == Abs(x) + Abs(y)
    ensures Reports(a, b, s, NumericDiscrepancy) <==>
      && a.predicate_ == b.predicate_ && a.numeric && b.numeric && !Reports(a, b, s, UnitMismatch)
      && mean >= 0.0000000001 && Abs(x - y) > s.tolerance * mean
    ensures forall f | f in CheckPair(a, b, s) && f.kind == NumericDiscrepancy ::
      f.severity * mean == if Abs(x - y) < mean then Abs(x - y) else mean
  {
    UnitMismatchMeans(a, b, s);
    if a.predicate_ == b.predicate_ && a.numeric && b.numeric {
      var f := CheckNumeric(a, b, s);
      if !UnitsClash(a, b, s) { ValuesCompared(a, b, s, x, y, mean); }
      if f.Some? { assert f.value in CheckPair(a, b, s); }
    }
  }

  lemma ValuesCompared(a: Fact, b: Fact, s: Settings, x: real, y: real, mean: real)
    requires !UnitsClash(a, b, s) && ComparedValue(a) == Some(x) && ComparedValue(b) == Some(y)
    requires 2.0 * mean == Abs(x) + Abs(y)
    ensures var f := CheckNumeric(a, b, s);
      if mean >= 0.0000000001 && Abs(x - y) > s.tolerance * mean then
        f.Some? && f.value.kind == NumericDiscrepancy
        && f.value.severity * mean == if Abs(x - y) < mean then Abs(x - y) else mean
      else f.None?
  {
    if mean >= 0.0000000001 { RelativeDistance(Abs(x - y), mean, s.tolerance); }
  }

  lemma RelativeDistance(distance: real, mean: real, tolerance: real)
    requires distance >= 0.0 && mean > 0.0
    ensures distance / mean > tolerance <==> distance > tolerance * mean
    ensures Min(1.0, distance / mean) * mean == if distance < mean then distance else mean
  {
    var q := distance / mean;
    assert q * mean == distance;
    InOrder(q, tolerance, mean, distance, tolerance * mean);
    InOrder(q, 1.0, mean, distance, mean);
  }

  lemma InOrder(q: real, r: real, mean: real, x: real, y: real)
    requires mean > 0.0 && x == q * mean && y == r * mean
    ensures q > r <==> x > y
  {
    if q > r {
      var w := q - r;
      assert w * mean == x - y && w * mean > 0.0;
    } else {
      ScaleUp(mean, q, r);
    }
  }

  /** Without both values there is nothing to compare. */
  lemma NoDiscrepancyWithoutValues(a: Fact, b: Fact, s: Settings)
    requires s.threshold >= 1 && (ComparedValue(a).None? || ComparedValue(b).None?)
    ensures !Reports(a, b, s, NumericDiscrepancy)
  {
  }

  /** A pair is reported at most once for its values and once for its dates, in this order. */
  lemma FindingsInOrder(a: Fact, b: Fact, s: Settings)
    requires s.threshold >= 1
    ensures var found := CheckPair(a, b, s);
      |found| <= 2 && (|found| == 2 ==> found[0].kind != Freshness && found[1].kind == Freshness)
  {
  }
}
