/** What a verification pass finds in a list of claims, whatever their order. */
module Consistency {
  import opened Common
  import opened Claims
  import opened Gathering
  import opened Arithmetic

  /** What two claims are found to disagree on. */
  type Check = (Fact, Fact) -> seq<Finding>

  /** The verifier's check, with its thresholds. */
  function Checker(s: Settings): Check
    requires s.threshold >= 1
  {
    (x: Fact, y: Fact) => CheckPair(x, y, s)
  }

  /** Severities are fractions, and it makes no difference which claim comes first. */
  ghost predicate Sound(check: Check) {
    && (forall x, y {:trigger check(x, y)} :: check(x, y) == check(y, x))
    && (forall x, y, f | f in check(x, y) :: 0.0 <= f.severity <= 1.0)
  }

  lemma CheckerIsSound(s: Settings)
    requires s.threshold >= 1
    ensures Sound(Checker(s))
  {
    forall x, y ensures Checker(s)(x, y) == Checker(s)(y, x) { CheckPairIsSymmetric(x, y, s); }
    forall x, y, f | f in Checker(s)(x, y) ensures 0.0 <= f.severity <= 1.0 { SeverityIsAFraction(x, y, s); }
  }

  /** A finding and the ids of the claims it is about. */
  datatype Disagreement = Disagreement(a: string, b: string, finding: Finding) {
    predicate Involves(id: string) { a == id || b == id }

    /** What it leaves of the confidence of claim `id`. */
    function Factor(id: string): real { if Involves(id) then 1.0 - finding.severity * 0.3 else 1.0 }
  }

  function About(x: Fact, y: Fact, findings: seq<Finding>): seq<Disagreement> {
    if findings == [] then []
    else About(x, y, findings[..|findings| - 1]) + [Disagreement(x.id, y.id, findings[|findings| - 1])]
  }

  lemma {:induction false} AboutEach(x: Fact, y: Fact, findings: seq<Finding>)
    ensures var r := About(x, y, findings);
      |r| == |findings| && forall k | 0 <= k < |r| :: r[k] == Disagreement(x.id, y.id, findings[k])
  {
    if findings != [] { AboutEach(x, y, findings[..|findings| - 1]); }
  }

  function Listing(check: Check): (Fact, Fact) -> seq<Disagreement> {
    (x: Fact, y: Fact) => About(x, y, check(x, y))
  }

  function SubjectOf(): Fact -> string { (x: Fact) => x.subject }

  /** Everything a pass over `facts` finds, in the order in which it finds it: subject by
      subject, and in each group every claim with those behind it. */
  ghost function Found(facts: seq<Fact>, check: Check): seq<Disagreement> {
    Groups(facts, Keys(facts, SubjectOf()), SubjectOf(), Listing(check))
  }

  /** A disagreement that does not say which claim came first. */
  datatype Entry = Entry(ids: set<string>, finding: Finding)

  function Neutral(): Disagreement -> Entry { (d: Disagreement) => Entry({d.a, d.b}, d.finding) }

  /** What two claims disagree on, if they are about the same subject. */
  ghost function Between(check: Check): (Fact, Fact) -> multiset<Entry> {
    (x: Fact, y: Fact) => if x.subject == y.subject then multiset(Mapped(Listing(check)(x, y), Neutral()))
      else multiset{}
  }

  lemma {:induction false} AboutIsNeutral(x: Fact, y: Fact, findings: seq<Finding>)
    ensures Mapped(About(x, y, findings), Neutral()) == Mapped(About(y, x, findings), Neutral())
  {
    if findings != [] {
      var before, last := findings[..|findings| - 1], findings[|findings| - 1];
      AboutIsNeutral(x, y, before);
      assert {x.id, y.id} == {y.id, x.id};
      MappedJoins(About(x, y, before), [Disagreement(x.id, y.id, last)], Neutral());
      MappedJoins(About(y, x, before), [Disagreement(y.id, x.id, last)], Neutral());
      MappedOne(Disagreement(x.id, y.id, last), Neutral());
      MappedOne(Disagreement(y.id, x.id, last), Neutral());
    }
  }

  lemma BetweenIsSymmetric(check: Check)
    requires Sound(check)
    ensures Symmetric(Between(check))
  {
    forall x: Fact, y: Fact ensures Between(check)(x, y) == Between(check)(y, x) {
      assert check(x, y) == check(y, x);
      AboutIsNeutral(x, y, check(x, y));
      assert Listing(check)(x, y) == About(x, y, check(x, y)) && Listing(check)(y, x) == About(y, x, check(x, y));
    }
  }

  /** A pass compares every two claims about one subject exactly once, and no others. */
  lemma PassFindsEachPairOnce(facts: seq<Fact>, check: Check)
    ensures multiset(Mapped(Found(facts, check), Neutral())) == PairTotal(facts, Between(check))
  {
    GroupwiseIsPairwise(facts, Between(check), Listing(check), Neutral(), SubjectOf());
  }

  /** Reordering the claims changes neither the pairs found to disagree, nor the kinds, nor the severities. */
  lemma FoundPermutes(facts: seq<Fact>, other: seq<Fact>, check: Check)
    requires Sound(check) && multiset(facts) == multiset(other)
    ensures multiset(Mapped(Found(facts, check), Neutral())) == multiset(Mapped(Found(other, check), Neutral()))
  {
    PassFindsEachPairOnce(facts, check);
    PassFindsEachPairOnce(other, check);
    BetweenIsSymmetric(check);
    PairTotalPermutes(facts, other, Between(check));
  }

  // ----- how many findings there are -----

  /** How many findings a pass makes about two claims: none if they are about different subjects. */
  function Sizes(check: Check): (Fact, Fact) -> nat {
    (x: Fact, y: Fact) => if x.subject == y.subject then |check(x, y)| else 0
  }

  function RowSum(x: Fact, rest: seq<Fact>, size: (Fact, Fact) -> nat): nat {
    if rest == [] then 0 else size(x, rest[0]) + RowSum(x, rest[1..], size)
  }

  /** The sizes of every two claims, the first before the second, added up. */
  function PairSum(facts: seq<Fact>, size: (Fact, Fact) -> nat): nat {
    if facts == [] then 0 else RowSum(facts[0], facts[1..], size) + PairSum(facts[1..], size)
  }

  lemma {:induction false} MappedSize(ds: seq<Disagreement>)
    ensures |Mapped(ds, Neutral())| == |ds|
  {
    if ds != [] { MappedSize(ds[..|ds| - 1]); }
  }

  lemma {:induction false} AboutNames(x: Fact, y: Fact, findings: seq<Finding>)
    ensures forall d | d in About(x, y, findings) :: d.a == x.id && d.b == y.id
    ensures |About(x, y, findings)| == |findings|
  {
    if findings != [] { AboutNames(x, y, findings[..|findings| - 1]); }
  }

  lemma BetweenSize(x: Fact, y: Fact, check: Check)
    ensures |Between(check)(x, y)| == Sizes(check)(x, y)
  {
    MappedSize(Listing(check)(x, y));
    AboutNames(x, y, check(x, y));
  }

  lemma {:induction false} RowSize(x: Fact, rest: seq<Fact>, check: Check)
    ensures |Gather(rest, With(x, Between(check)))| == RowSum(x, rest, Sizes(check))
  {
    if rest != [] {
      BetweenSize(x, rest[0], check);
      RowSize(x, rest[1..], check);
      assert With(x, Between(check))(rest[0]) == Between(check)(x, rest[0]);
    }
  }

  lemma {:induction false} TotalSize(facts: seq<Fact>, check: Check)
    ensures |PairTotal(facts, Between(check))| == PairSum(facts, Sizes(check))
  {
    if facts != [] {
      RowSize(facts[0], facts[1..], check);
      TotalSize(facts[1..], check);
    }
  }

  /** A pass makes as many findings as its pairs have between them. */
  lemma FoundSize(facts: seq<Fact>, check: Check)
    ensures |Found(facts, check)| == PairSum(facts, Sizes(check))
  {
    PassFindsEachPairOnce(facts, check);
    TotalSize(facts, check);
    MappedSize(Found(facts, check));
    assert |multiset(Mapped(Found(facts, check), Neutral()))| == |Mapped(Found(facts, check), Neutral())|;
  }

  lemma {:induction false} RowSumBounds(x: Fact, rest: seq<Fact>, f: (Fact, Fact) -> nat, g: (Fact, Fact) -> nat)
    requires forall x, y :: f(x, y) <= g(x, y)
    ensures RowSum(x, rest, f) <= RowSum(x, rest, g)
    ensures RowSum(x, rest, f) == 0 <==> forall j | 0 <= j < |rest| :: f(x, rest[j]) == 0
  {
    if rest != [] { RowSumBounds(x, rest[1..], f, g); }
  }

  lemma {:induction false} PairSumBounds(facts: seq<Fact>, f: (Fact, Fact) -> nat, g: (Fact, Fact) -> nat)
    requires forall x, y :: f(x, y) <= g(x, y)
    ensures PairSum(facts, f) <= PairSum(facts, g)
    ensures PairSum(facts, f) == 0 <==> forall i, j | 0 <= i < j < |facts| :: f(facts[i], facts[j]) == 0
  {
    if facts != [] {
      var first, rest := facts[0], facts[1..];
      RowSumBounds(first, rest, f, g);
      PairSumBounds(rest, f, g);
      forall i, j | 0 <= i < j < |facts| ensures facts[j] == rest[j - 1] && (i > 0 ==> facts[i] == rest[i - 1]) { }
      if PairSum(facts, f) > 0 {
        if RowSum(first, rest, f) > 0 {
          var j :| 0 <= j < |rest| && f(first, rest[j]) != 0;
          assert f(facts[0], facts[j + 1]) != 0;
        } else {
          var i, j :| 0 <= i < j < |rest| && f(rest[i], rest[j]) != 0;
          assert f(facts[i + 1], facts[j + 1]) != 0;
        }
      }
    }
  }

  // ----- what a consistency query draws -----

  /** The check between claims from different documents. */
  function Across(check: Check): Check {
    (x: Fact, y: Fact) => if x.document != y.document then check(x, y) else []
  }

  /** How many ids a consistency query draws: one for each finding about two claims that are about
      the same subject and come from different documents. */
  function Drawn(facts: seq<Fact>, check: Check): nat { PairSum(facts, Sizes(Across(check))) }

  /** The two claims have something against each other that a consistency query sees. */
  predicate Clash(x: Fact, y: Fact, check: Check) {
    x.subject == y.subject && x.document != y.document && check(x, y) != []
  }

  /** A query draws no id exactly if no two claims clash, and never more than a pass finds. */
  lemma QueryDraws(facts: seq<Fact>, check: Check)
    ensures Drawn(facts, check) == 0 <==> forall i, j | 0 <= i < j < |facts| :: !Clash(facts[i], facts[j], check)
    ensures Drawn(facts, check) <= |Found(facts, check)|
  {
    PairSumBounds(facts, Sizes(Across(check)), Sizes(check));
    forall x, y ensures Sizes(Across(check))(x, y) == 0 <==> !Clash(x, y, check) { }
    FoundSize(facts, check);
  }

  /** Two documents, one number apart by more than the tolerance: one id is drawn. */
  lemma OneClash(s: Settings)
    requires s.threshold >= 1 && s.tolerance < 0.5
    ensures var x := Fact("claim-1", "price", "is", "one", true, "report", None, Some(1.0), None, None);
      var y := Fact("claim-2", "price", "is", "two", true, "memo", None, Some(2.0), None, None);
      Clash(x, y, Checker(s)) && Drawn([x, y], Checker(s)) == 1
  {
    var x := Fact("claim-1", "price", "is", "one", true, "report", None, Some(1.0), None, None);
    var y := Fact("claim-2", "price", "is", "two", true, "memo", None, Some(2.0), None, None);
    assert (Abs(1.0) + Abs(2.0)) / 2.0 == 1.5 && 1.0 / 1.5 > s.tolerance;
    assert |CheckPair(x, y, s)| == 1;
    assert [x, y][1..] == [y] && [y][1..] == [];
    assert Sizes(Across(Checker(s)))(x, y) == 1;
  }

  // ----- confidence -----

  function FactorOf(id: string): Disagreement -> real { (d: Disagreement) => d.Factor(id) }

  /** What a list of disagreements leaves of the confidence of claim `id`. */
  function Left(ds: seq<Disagreement>, id: string): real { Product(ds, FactorOf(id)) }

  function NeutralFactor(id: string): Entry -> real {
    (e: Entry) => if id in e.ids then 1.0 - e.finding.severity * 0.3 else 1.0
  }

  lemma {:induction false} LeftIsNeutral(ds: seq<Disagreement>, id: string)
    ensures Left(ds, id) == Product(Mapped(ds, Neutral()), NeutralFactor(id))
  {
    if ds != [] {
      var before, last := ds[..|ds| - 1], ds[|ds| - 1];
      LeftIsNeutral(before, id);
      ProductOfSnoc(Mapped(before, Neutral()), Neutral()(last), NeutralFactor(id));
      assert last.Factor(id) == NeutralFactor(id)(Neutral()(last));
    }
  }

  /** Reordering the claims changes no claim's final confidence. */
  lemma ConfidencePermutes(facts: seq<Fact>, other: seq<Fact>, check: Check, id: string)
    requires Sound(check) && multiset(facts) == multiset(other)
    ensures Left(Found(facts, check), id) == Left(Found(other, check), id)
  {
    FoundPermutes(facts, other, check);
    LeftIsNeutral(Found(facts, check), id);
    LeftIsNeutral(Found(other, check), id);
    ProductPermutes(Mapped(Found(facts, check), Neutral()), Mapped(Found(other, check), Neutral()), NeutralFactor(id));
  }

  /** How many of the disagreements involve claim `id`. */
  function Count(ds: seq<Disagreement>, id: string): nat {
    if ds == [] then 0 else Count(ds[..|ds| - 1], id) + if ds[|ds| - 1].Involves(id) then 1 else 0
  }

  ghost predicate Fractions(ds: seq<Disagreement>) { forall d | d in ds :: 0.0 <= d.finding.severity <= 1.0 }

  lemma ShrinkAtMost(p: real, q: real, f: real, qf: real)
    requires 0.0 <= p <= q <= 1.0 && 0.7 <= f <= 1.0 && qf == q * f
    ensures 0.0 <= p * 0.7 <= qf <= 1.0
  {
    ScaleUp(q, 0.7, f);
    assert q * 0.7 <= qf;
    ScaleUp(q, f, 1.0);
    assert qf <= q;
  }

  /** Each conflict takes at most three tenths of what is left. */
  lemma {:induction false} LeftIsBounded(ds: seq<Disagreement>, id: string)
    requires Fractions(ds)
    ensures 0.0 <= Power(0.7, Count(ds, id)) <= Left(ds, id) <= 1.0
  {
    if ds != [] {
      var before, last := ds[..|ds| - 1], ds[|ds| - 1];
      assert last in ds;
      LeftIsBounded(before, id);
      if last.Involves(id) {
        ShrinkAtMost(Power(0.7, Count(before, id)), Left(before, id), last.Factor(id), Left(ds, id));
      }
    }
  }

  // ----- agreement between sources -----

  /** Claims from different documents with nothing found against the pair. */
  function Agreeing(check: Check): (Fact, Fact) -> bool {
    (x: Fact, y: Fact) => x.document != y.document && check(x, y) == []
  }

  function AgreeingInRow(x: Fact, rest: seq<Fact>, agree: (Fact, Fact) -> bool): nat {
    if rest == [] then 0
    else AgreeingInRow(x, rest[..|rest| - 1], agree) + if agree(x, rest[|rest| - 1]) then 1 else 0
  }

  function RowCounts(group: seq<Fact>, agree: (Fact, Fact) -> bool): nat -> nat {
    (i: nat) => if i < |group| then AgreeingInRow(group[i], group[i + 1..], agree) else 0
  }

  function Tally(counts: nat -> nat, n: nat): nat { if n == 0 then 0 else Tally(counts, n - 1) + counts(n - 1) }

  /** How many pairs agree whose first claim is among the first `n`. */
  function AgreeingPairs(group: seq<Fact>, n: nat, agree: (Fact, Fact) -> bool): nat {
    Tally(RowCounts(group, agree), n)
  }

  /** How many pairs there are whose first claim is among the first `n` of `size`. */
  function PairCount(size: nat, n: nat): nat
    requires n <= size
  {
    if n == 0 then 0 else PairCount(size, n - 1) + (size - n)
  }

  lemma {:induction false} RowBound(x: Fact, rest: seq<Fact>, agree: (Fact, Fact) -> bool)
    ensures AgreeingInRow(x, rest, agree) <= |rest|
    ensures AgreeingInRow(x, rest, agree) == |rest| <==> forall j | 0 <= j < |rest| :: agree(x, rest[j])
  {
    if rest != [] {
      RowBound(x, rest[..|rest| - 1], agree);
      assert forall j | 0 <= j < |rest| - 1 :: rest[..|rest| - 1][j] == rest[j];
    }
  }

  ghost predicate RowAgrees(group: seq<Fact>, i: nat, agree: (Fact, Fact) -> bool)
    requires i < |group|
  {
    forall j | i < j < |group| :: agree(group[i], group[j])
  }

  /** Every pair counts at most once, and all count exactly if every two claims agree. */
  lemma {:induction false} AgreementBound(group: seq<Fact>, n: nat, agree: (Fact, Fact) -> bool)
    requires n <= |group|
    ensures AgreeingPairs(group, n, agree) <= PairCount(|group|, n)
    ensures AgreeingPairs(group, n, agree) == PairCount(|group|, n) <==>
      forall i | 0 <= i < n :: RowAgrees(group, i, agree)
  {
    if n > 0 {
      AgreementBound(group, n - 1, agree);
      RowBound(group[n - 1], group[n..], agree);
      assert RowAgrees(group, n - 1, agree) <==>
        forall j | 0 <= j < |group[n..]| :: agree(group[n - 1], group[n..][j]) by {
        if forall j | 0 <= j < |group[n..]| :: agree(group[n - 1], group[n..][j]) {
          forall j | n - 1 < j < |group| ensures agree(group[n - 1], group[j]) { assert group[n..][j - n] == group[j]; }
        }
      }
    }
  }

  /** The share of pairs that agree; a subject with one claim is consistent. */
  function Score(group: seq<Fact>, check: Check): real {
    if PairCount(|group|, |group|) == 0 then 1.0
    else AgreeingPairs(group, |group|, Agreeing(check)) as real / PairCount(|group|, |group|) as real
  }

  lemma QuotientBound(x: nat, y: nat)
    requires x <= y && y > 0
    ensures 0.0 <= x as real / y as real <= 1.0
    ensures x as real / y as real == 1.0 <==> x == y
  {
    var q := x as real / y as real;
    assert q * y as real == x as real;
  }

  /** A subject's score is a fraction, and is one exactly if every two of its claims come from
      different documents and have nothing found against them. */
  lemma ScoreIsOneIfAllAgree(group: seq<Fact>, check: Check)
    ensures 0.0 <= Score(group, check) <= 1.0
    ensures Score(group, check) == 1.0 <==> forall i | 0 <= i < |group| :: RowAgrees(group, i, Agreeing(check))
  {
    AgreementBound(group, |group|, Agreeing(check));
    if PairCount(|group|, |group|) > 0 {
      QuotientBound(AgreeingPairs(group, |group|, Agreeing(check)), PairCount(|group|, |group|));
    }
  }

  /** The pairs of claim `i` with a later one below `m` that agree. */
  ghost function RowSet(group: seq<Fact>, i: nat, m: nat, agree: (Fact, Fact) -> bool): set<(nat, nat)>
    requires i < m <= |group|
  {
    set j: nat | i < j < m && agree(group[i], group[j]) :: (i, j)
  }

  lemma {:induction false} RowIsCounted(group: seq<Fact>, i: nat, m: nat, agree: (Fact, Fact) -> bool)
    requires i < m <= |group|
    ensures |RowSet(group, i, m, agree)| == AgreeingInRow(group[i], group[i + 1..m], agree)
  {
    var row := RowSet(group, i, m, agree);
    if m == i + 1 {
      assert row == {};
    } else {
      var k, rest := m - 1, group[i + 1..m];
      RowIsCounted(group, i, k, agree);
      assert rest[..|rest| - 1] == group[i + 1..k] && rest[|rest| - 1] == group[k];
      assert row == RowSet(group, i, k, agree) + if agree(group[i], group[k]) then {(i, k)} else {};
    }
  }

  /** The pairs that agree whose first claim is among the first `n`. */
  ghost function AgreeingSet(group: seq<Fact>, n: nat, agree: (Fact, Fact) -> bool): set<(nat, nat)>
    requires n <= |group|
  {
    set i: nat, j: nat | i < n && i < j < |group| && agree(group[i], group[j]) :: (i, j)
  }

  lemma {:induction false} PairsAreCounted(group: seq<Fact>, n: nat, agree: (Fact, Fact) -> bool)
    requires n <= |group|
    ensures |AgreeingSet(group, n, agree)| == AgreeingPairs(group, n, agree)
  {
    if n == 0 {
      assert AgreeingSet(group, 0, agree) == {};
    } else {
      PairsAreCounted(group, n - 1, agree);
      RowIsCounted(group, n - 1, |group|, agree);
      assert group[n..|group|] == group[n..];
      OneMoreRow(group, n - 1, agree);
    }
  }

  lemma OneMoreRow(group: seq<Fact>, n: nat, agree: (Fact, Fact) -> bool)
    requires n < |group|
    ensures |AgreeingSet(group, n + 1, agree)| == |AgreeingSet(group, n, agree)| + |RowSet(group, n, |group|, agree)|
  {
    assert AgreeingSet(group, n + 1, agree) == AgreeingSet(group, n, agree) + RowSet(group, n, |group|, agree);
    assert AgreeingSet(group, n, agree) !! RowSet(group, n, |group|, agree);
  }

  lemma {:induction false} PairCountIs(size: nat, n: nat)
    requires n <= size
    ensures 2 * PairCount(size, n) == n * (2 * size - n - 1)
  {
    if n > 0 { PairCountIs(size, n - 1); }
  }

  /** The score of a subject with several claims is the number of its pairs that agree, out of all
      `n * (n - 1) / 2` pairs. */
  lemma ScoreIsTheShare(group: seq<Fact>, check: Check, pairs: nat)
    requires |group| >= 2 && 2 * pairs == |group| * (|group| - 1)
    ensures Score(group, check) ==
      |set i: nat, j: nat | i < j < |group| && group[i].document != group[j].document
        && check(group[i], group[j]) == [] :: (i, j)| as real / pairs as real
  {
    PairsAreCounted(group, |group|, Agreeing(check));
    PairCountIs(|group|, |group|);
    assert AgreeingSet(group, |group|, Agreeing(check)) ==
      set i: nat, j: nat | i < j < |group| && group[i].document != group[j].document
        && check(group[i], group[j]) == [] :: (i, j);
  }
}
