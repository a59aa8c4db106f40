/** `services/evidence/claims.py`: the verifier and its claims, which carry the ids of their conflicts.

    A pass changes claims in place, so what it does to each of them is stated as a value, its
    standing, next to the list of what it finds. */
module ClaimStore {
  import opened Common
  import opened Claims
  import opened Consistency
  import Gathering

  /** A recorded conflict. The id's text form, `conflict-` and the padded number, is injective. */
  datatype Conflict = Conflict(id: nat, of: Disagreement)

  /** The ids of the conflicts that involve claim `id`, in order: what a scan finds. */
  function Involving(conflicts: seq<Conflict>, id: string): seq<nat> {
    if conflicts == [] then []
    else
      var last := conflicts[|conflicts| - 1];
      Involving(conflicts[..|conflicts| - 1], id) + if last.of.Involves(id) then [last.id] else []
  }

  function Disagreements(conflicts: seq<Conflict>): (r: seq<Disagreement>)
    ensures |r| == |conflicts| && forall k | 0 <= k < |r| :: r[k] == conflicts[k].of
  {
    seq(|conflicts|, k requires 0 <= k < |conflicts| => conflicts[k].of)
  }

  /** The conflicts are numbered from `first` on. */
  ghost predicate Numbered(conflicts: seq<Conflict>, first: nat) {
    forall k | 0 <= k < |conflicts| :: conflicts[k].id == first + 1 + k
  }

  /** What of a claim changes. */
  datatype Standing = Standing(conflicts: seq<nat>, confidence: real)

  function FactorOf(id: string): Conflict -> real { (c: Conflict) => c.of.Factor(id) }

  /** A claim's standing once the conflicts have been noted. */
  ghost function Marked(s: Standing, conflicts: seq<Conflict>, id: string): Standing {
    Standing(s.conflicts + Involving(conflicts, id), s.confidence * Gathering.Product(conflicts, FactorOf(id)))
  }

  lemma MarkedByOne(s: Standing, conflicts: seq<Conflict>, c: Conflict, id: string)
    ensures var m := Marked(s, conflicts, id);
      Marked(s, conflicts + [c], id) ==
        Standing(m.conflicts + (if c.of.Involves(id) then [c.id] else []), m.confidence * c.of.Factor(id))
  {
    Gathering.ProductOfSnoc(conflicts, c, FactorOf(id));
    assert (conflicts + [c])[..|conflicts|] == conflicts;
  }

  lemma {:induction false} MarkedJoins(s: Standing, before: seq<Conflict>, after: seq<Conflict>, id: string)
    ensures Marked(Marked(s, before, id), after, id) == Marked(s, before + after, id)
  {
    if after == [] {
      assert before + after == before;
    } else {
      var rest, last := after[..|after| - 1], after[|after| - 1];
      MarkedJoins(s, before, rest, id);
      MarkedByOne(Marked(s, before, id), rest, last, id);
      MarkedByOne(s, before + rest, last, id);
      assert rest + [last] == after && (before + rest) + [last] == before + after;
    }
  }

  lemma {:induction false} UninvolvedIsUnmarked(s: Standing, conflicts: seq<Conflict>, id: string)
    requires forall c | c in conflicts :: !c.of.Involves(id)
    ensures Marked(s, conflicts, id) == s
  {
    if conflicts != [] {
      var rest, last := conflicts[..|conflicts| - 1], conflicts[|conflicts| - 1];
      assert rest + [last] == conflicts && last in conflicts;
      UninvolvedIsUnmarked(s, rest, id);
      MarkedByOne(s, rest, last, id);
    }
  }

  class Claim {
    const fact: Fact
    var conflicts: seq<nat>
    var confidence: real
    /** The confidence it was created with. */
    ghost const initial: real

    constructor (fact: Fact, confidence: real)
      ensures this.fact == fact && conflicts == [] && this.confidence == initial == confidence
    {
      this.fact, conflicts, this.confidence, initial := fact, [], confidence, confidence;
    }

    ghost function Now(): Standing
      reads this
    {
      Standing(conflicts, confidence)
    }

    /** Notes one conflict. */
    method Note(conflict: Conflict)
      modifies this
      ensures Now() == Standing(old(conflicts) + [conflict.id],
        old(confidence) * (1.0 - conflict.of.finding.severity * 0.3))
    {
      conflicts := conflicts + [conflict.id];
      confidence := confidence * (1.0 - conflict.of.finding.severity * 0.3);
    }
  }

  ghost function Facts(claims: seq<Claim>): (r: seq<Fact>)
    ensures |r| == |claims| && forall k | 0 <= k < |r| :: r[k] == claims[k].fact
  {
    seq(|claims|, k requires 0 <= k < |claims| => claims[k].fact)
  }

  ghost predicate DistinctIds(facts: seq<Fact>) { forall i, j | 0 <= i < j < |facts| :: facts[i].id != facts[j].id }

  ghost predicate UniqueIds(claims: seq<Claim>) {
    forall i, j | 0 <= i < j < |claims| :: claims[i].fact.id != claims[j].fact.id
  }

  class ClaimVerifier {
    const settings: Settings
    var counter: nat

    constructor (settings: Settings)
      ensures this.settings == settings && counter == 0
    {
      this.settings, counter := settings, 0;
    }

    method GenerateConflictId() returns (id: nat)
      modifies this
      ensures id == counter == old(counter) + 1
    {
      counter := counter + 1;
      id := counter;
    }

    /** Turns a finding into a conflict; an id is drawn only if there is one. */
    method Report(a: Claim, b: Claim, finding: Option<Finding>) returns (reported: seq<Conflict>)
      modifies this
      ensures Numbered(reported, old(counter)) && counter == old(counter) + |reported|
      ensures Disagreements(reported) == About(a.fact, b.fact, Listed(finding))
    {
      reported := [];
      if finding.Some? {
        var id := GenerateConflictId();
        reported := [Conflict(id, Disagreement(a.fact.id, b.fact.id, finding.value))];
      }
    }

    /** The conflicts of a pair: numeric first, then freshness. */
    method CheckPair(a: Claim, b: Claim) returns (found: seq<Conflict>)
      requires settings.threshold >= 1
      modifies this
      ensures Numbered(found, old(counter)) && counter == old(counter) + |found|
      ensures Disagreements(found) == Listing(Checker(settings))(a.fact, b.fact)
      ensures var findings := Claims.CheckPair(a.fact, b.fact, settings);
        && |found| == |findings|
        && forall k | 0 <= k < |found| :: found[k].of == Disagreement(a.fact.id, b.fact.id, findings[k])
    {
      found := [];
      ListingOfPair(a.fact, b.fact, settings);
      AboutEach(a.fact, b.fact, Claims.CheckPair(a.fact, b.fact, settings));
      if a.fact.predicate_ != b.fact.predicate_ { return; }
      var numeric, freshness := None, None;
      if a.fact.numeric && b.fact.numeric {
        numeric := CheckNumeric(a.fact, b.fact, settings);
      }
      if a.fact.date.Some? && b.fact.date.Some? {
        freshness := CheckFreshness(a.fact, b.fact, settings);
      }
      found := ReportBoth(a, b, numeric, freshness);
      assert forall k | 0 <= k < |found| :: Disagreements(found)[k] == found[k].of;
    }

    method ReportBoth(a: Claim, b: Claim, numeric: Option<Finding>, freshness: Option<Finding>)
      returns (found: seq<Conflict>)
      modifies this
      ensures Numbered(found, old(counter)) && counter == old(counter) + |found|
      ensures Disagreements(found) == About(a.fact, b.fact, Listed(numeric) + Listed(freshness))
    {
      var first := Report(a, b, numeric);
      var second := Report(a, b, freshness);
      found := first + second;
      AboutJoins(a.fact, b.fact, Listed(numeric), Listed(freshness));
    }

    /** Notes every conflict of a pair with both its claims. */
    method NoteAll(a: Claim, b: Claim, found: seq<Conflict>)
      requires forall c | c in found :: c.of.a == a.fact.id && c.of.b == b.fact.id
      modifies a, b
      ensures a != b ==>
        a.Now() == Marked(old(a.Now()), found, a.fact.id) && b.Now() == Marked(old(b.Now()), found, b.fact.id)
    {
      for k := 0 to |found|
        invariant a != b ==> a.Now() == Marked(old(a.Now()), found[..k], a.fact.id)
        invariant a != b ==> b.Now() == Marked(old(b.Now()), found[..k], b.fact.id)
      {
        var conflict := found[k];
        a.Note(conflict);
        b.Note(conflict);
        assert conflict in found && found[..k + 1] == found[..k] + [conflict];
        MarkedByOne(old(a.Now()), found[..k], conflict, a.fact.id);
        MarkedByOne(old(b.Now()), found[..k], conflict, b.fact.id);
      }
      assert found[..|found|] == found;
    }

    /** What a pair is found to conflict in names the pair. */
    method NamedPair(a: Claim, b: Claim) returns (found: seq<Conflict>)
      requires settings.threshold >= 1
      modifies this
      ensures Numbered(found, old(counter)) && counter == old(counter) + |found|
      ensures Disagreements(found) == Listing(Checker(settings))(a.fact, b.fact)
      ensures forall c | c in found :: c.of.a == a.fact.id && c.of.b == b.fact.id
    {
      found := CheckPair(a, b);
      forall c | c in found ensures c.of.a == a.fact.id && c.of.b == b.fact.id {
        var k :| 0 <= k < |found| && found[k] == c;
      }
    }

    /** Checks one pair among `all`; claims outside the pair keep their standing. */
    method VerifyPair(a: Claim, b: Claim, ghost all: seq<Claim>) returns (found: seq<Conflict>)
      requires settings.threshold >= 1 && a in all && b in all && (UniqueIds(all) ==> a.fact.id != b.fact.id)
      modifies this, all
      ensures Noted(found, Listing(Checker(settings))(a.fact, b.fact), old(counter), counter, old(Standings(all)),
        Standings(all), Facts(all))
    {
      found := NamedPair(a, b);
      NoteAll(a, b, found);
      forall k | 0 <= k < |all| && DistinctIds(Facts(all))
        ensures all[k].Now() == Marked(old(all[k].Now()), found, all[k].fact.id) {
        if all[k] != a && all[k] != b { UninvolvedIsUnmarked(old(all[k].Now()), found, all[k].fact.id); }
      }
    }

    /** One row of the pair loop: `a` with each of `rest`. */
    method VerifyRow(a: Claim, rest: seq<Claim>, ghost all: seq<Claim>) returns (found: seq<Conflict>)
      requires settings.threshold >= 1 && RowFits(a, rest, all)
      modifies this, all
      ensures Noted(found, Gathering.Row(a.fact, Facts(rest), Listing(Checker(settings))), old(counter), counter,
                    old(Standings(all)), Standings(all), Facts(all))
    {
      found := [];
      ghost var lists := Listing(Checker(settings));
      ghost var first, was := counter, Standings(all);
      for j := 0 to |rest|
        invariant Noted(found, Gathering.Row(a.fact, Facts(rest[..j]), lists), first, counter, was, Standings(all),
          Facts(all))
      {
        ghost var middle, then_ := counter, Standings(all);
        var more := VerifyPair(a, rest[j], all);
        RowGrows(a.fact, rest, j, lists);
        NotedJoins(found, more, Gathering.Row(a.fact, Facts(rest[..j]), lists), lists(a.fact, rest[j].fact),
                   first, middle, counter, was, then_, Standings(all), Facts(all));
        found := found + more;
      }
      assert rest[..|rest|] == rest;
    }

    /** The pair loop over one group. */
    method VerifyGroup(group: seq<Claim>, ghost all: seq<Claim>) returns (found: seq<Conflict>)
      requires settings.threshold >= 1
      requires forall i | 0 <= i < |group| :: RowFits(group[i], group[i + 1..], all)
      modifies this, all
      ensures Noted(found, RowsOf(group, |group|, Listing(Checker(settings))), old(counter), counter,
                    old(Standings(all)), Standings(all), Facts(all))
    {
      found := [];
      ghost var lists := Listing(Checker(settings));
      ghost var first, was := counter, Standings(all);
      for i := 0 to |group|
        invariant Noted(found, RowsOf(group, i, lists), first, counter, was, Standings(all), Facts(all))
      {
        ghost var middle, then_ := counter, Standings(all);
        var more := VerifyRow(group[i], group[i + 1..], all);
        ghost var row := Gathering.Row(group[i].fact, Facts(group[i + 1..]), lists);
        RowsGrow(group, i, lists);
        NotedJoins(found, more, RowsOf(group, i, lists), row, first, middle, counter, was, then_, Standings(all),
          Facts(all));
        found := found + more;
      }
    }

    /** Verifies a list of claims: what is found, and what it does to every claim. */
    method VerifyClaims(claims: seq<Claim>) returns (found: seq<Conflict>)
      requires settings.threshold >= 1
      modifies this, claims
      ensures Noted(found, Found(Facts(claims), Checker(settings)), old(counter), counter,
                    old(Standings(claims)), Standings(claims), Facts(claims))
    {
      found := [];
      ghost var lists := Listing(Checker(settings));
      ghost var facts, first, was := Facts(claims), counter, Standings(claims);
      var bySubject, order := GroupBySubject(claims);
      assert claims[..|claims|] == claims;
      for k := 0 to |order|
        invariant Noted(found, Gathering.Groups(facts, order[..k], SubjectOf(), lists), first, counter, was,
          Standings(claims), facts)
      {
        var group := bySubject[order[k]];
        assert Holds(bySubject, claims, |claims|, order[k]);
        GroupsGrowByOne(facts, order, k, lists);
        if |group| >= 2 {
          ghost var middle, then_ := counter, Standings(claims);
          RowsFit(group, claims);
          var more := VerifyGroup(group, claims);
          NotedJoins(found, more, Gathering.Groups(facts, order[..k], SubjectOf(), lists),
                     RowsOf(group, |group|, lists), first, middle, counter, was, then_, Standings(claims), facts);
          found := found + more;
        }
      }
      assert order[..|order|] == order;
    }
  }

  /** One row of the agreement count. */
  method CountRow(a: Claim, rest: seq<Claim>, verifier: ClaimVerifier) returns (inRow: nat)
    requires verifier.settings.threshold >= 1
    modifies verifier
    ensures inRow == AgreeingInRow(a.fact, Facts(rest), Agreeing(Checker(verifier.settings)))
    ensures verifier.counter == old(verifier.counter) + |Gathering.Row(a.fact, Facts(rest), Queried(verifier.settings))|
  {
    ghost var agree := Agreeing(Checker(verifier.settings));
    ghost var lists := Queried(verifier.settings);
    inRow := 0;
    for j := 0 to |rest|
      invariant inRow == AgreeingInRow(a.fact, Facts(rest[..j]), agree)
      invariant verifier.counter == old(verifier.counter) + |Gathering.Row(a.fact, Facts(rest[..j]), lists)|
    {
      assert Facts(rest[..j + 1])[..j] == Facts(rest[..j]);
      RowGrows(a.fact, rest, j, lists);
      QueriedOfPair(a.fact, rest[j].fact, verifier.settings);
      if a.fact.document != rest[j].fact.document {
        var found := verifier.CheckPair(a, rest[j]);
        NothingListed(a.fact, rest[j].fact, Checker(verifier.settings));
        if found == [] {
          inRow := inRow + 1;
        }
      }
    }
    assert rest[..|rest|] == rest;
  }

  lemma TallyGrows(group: seq<Claim>, i: nat, agree: (Fact, Fact) -> bool)
    requires i < |group|
    ensures AgreeingPairs(Facts(group), i + 1, agree)
      == AgreeingPairs(Facts(group), i, agree) + AgreeingInRow(group[i].fact, Facts(group[i + 1..]), agree)
  {
    assert Facts(group)[i + 1..] == Facts(group[i + 1..]);
  }

  /** What a consistency query sees of a pair. */
  ghost function Queried(s: Settings): (Fact, Fact) -> seq<Disagreement>
    requires s.threshold >= 1
  {
    Listing(Across(Checker(s)))
  }

  lemma QueriedOfPair(x: Fact, y: Fact, s: Settings)
    requires s.threshold >= 1
    ensures Queried(s)(x, y) == if x.document != y.document then Listing(Checker(s))(x, y) else []
  {
    assert Queried(s)(x, y) == About(x, y, Across(Checker(s))(x, y));
    assert Listing(Checker(s))(x, y) == About(x, y, Checker(s)(x, y));
  }

  method CountAgreements(group: seq<Claim>, verifier: ClaimVerifier) returns (agreements: nat, totalPairs: nat)
    requires verifier.settings.threshold >= 1
    modifies verifier
    ensures agreements == AgreeingPairs(Facts(group), |group|, Agreeing(Checker(verifier.settings)))
    ensures totalPairs == PairCount(|group|, |group|)
    ensures verifier.counter == old(verifier.counter) + |RowsOf(group, |group|, Queried(verifier.settings))|
  {
    agreements, totalPairs := 0, 0;
    for i := 0 to |group|
      invariant agreements == AgreeingPairs(Facts(group), i, Agreeing(Checker(verifier.settings)))
      invariant totalPairs == PairCount(|group|, i)
      invariant verifier.counter == old(verifier.counter) + |RowsOf(group, i, Queried(verifier.settings))|
    {
      var inRow := CountRow(group[i], group[i + 1..], verifier);
      TallyGrows(group, i, Agreeing(Checker(verifier.settings)));
      RowsGrow(group, i, Queried(verifier.settings));
      agreements, totalPairs := agreements + inRow, totalPairs + |group[i + 1..]|;
    }
  }

  lemma NothingListed(x: Fact, y: Fact, check: Check)
    ensures Listing(check)(x, y) == [] <==> check(x, y) == []
  {
    AboutNames(x, y, check(x, y));
  }

  lemma NothingToCompare(group: seq<Claim>, lists: (Fact, Fact) -> seq<Disagreement>)
    requires |group| < 2
    ensures RowsOf(group, |group|, lists) == [] && PairCount(|group|, |group|) == 0
  {
    if |group| == 1 {
      RowsGrow(group, 0, lists);
      assert Facts(group[1..]) == [] && PairCount(1, 0) == 0;
    }
    assert IsRowsOf(RowsOf(group, 0, lists), group, 0, lists);
  }

  /** A subject's score; a lone claim is not compared with any. */
  method ScoreGroup(group: seq<Claim>, verifier: ClaimVerifier) returns (score: real)
    requires verifier.settings.threshold >= 1
    modifies verifier
    ensures score == Score(Facts(group), Checker(verifier.settings))
    ensures verifier.counter == old(verifier.counter) + |RowsOf(group, |group|, Queried(verifier.settings))|
  {
    if |group| < 2 {
      NothingToCompare(group, Queried(verifier.settings));
      return 1.0;
    }
    var agreements, totalPairs := CountAgreements(group, verifier);
    score := if totalPairs > 0 then agreements as real / totalPairs as real else 1.0;
  }

  /** The keys are scored, each by the group of its claims, and nothing else is. */
  ghost predicate Scored(consistency: map<string, real>, keys: seq<string>, facts: seq<Fact>, check: Check) {
    && (forall s :: s in consistency <==> s in keys)
    && forall s | s in consistency :: consistency[s] == Score(Gathering.Group(facts, SubjectOf(), s), check)
  }

  /** Cross-source consistency: it records nothing, but draws an id for every finding about two
      claims on one subject from different documents. */
  method CrossSourceConsistency(claims: seq<Claim>, verifier: ClaimVerifier) returns (consistency: map<string, real>)
    requires verifier.settings.threshold >= 1
    modifies verifier
    ensures verifier.counter == old(verifier.counter) + Drawn(Facts(claims), Checker(verifier.settings))
    ensures Scored(consistency, Gathering.Keys(Facts(claims), SubjectOf()), Facts(claims), Checker(verifier.settings))
  {
    consistency := map[];
    ghost var facts, lists := Facts(claims), Queried(verifier.settings);
    var bySubject, order := GroupBySubject(claims);
    assert claims[..|claims|] == claims;
    for k := 0 to |order|
      invariant verifier.counter == old(verifier.counter) + |Gathering.Groups(facts, order[..k], SubjectOf(), lists)|
      invariant Scored(consistency, order[..k], facts, Checker(verifier.settings))
    {
      var group := bySubject[order[k]];
      assert Holds(bySubject, claims, |claims|, order[k]);
      GroupsGrowByOne(facts, order, k, lists);
      var score := ScoreGroup(group, verifier);
      consistency := consistency[order[k] := score];
    }
    assert order[..|order|] == order;
    FoundSize(facts, Across(Checker(verifier.settings)));
  }

  /** Every claim's standing. */
  ghost function Standings(claims: seq<Claim>): (r: seq<Standing>)
    reads claims
    ensures |r| == |claims| && forall k | 0 <= k < |r| :: r[k] == claims[k].Now()
  {
    seq(|claims|, k requires 0 <= k < |claims| reads claims => claims[k].Now())
  }

  /** `found` lists `ds`, numbered from `first` up to `next`, and takes the standings from `was`
      to `is_`: if ids are distinct, each conflict is noted with exactly the claims it involves. */
  ghost predicate Noted(found: seq<Conflict>, ds: seq<Disagreement>, first: nat, next: nat,
                        was: seq<Standing>, is_: seq<Standing>, facts: seq<Fact>) {
    && Numbered(found, first) && next == first + |found| && Disagreements(found) == ds
    && |was| == |is_| == |facts|
    && (DistinctIds(facts) ==> forall k | 0 <= k < |facts| :: is_[k] == Marked(was[k], found, facts[k].id))
  }

  lemma NotedJoins(found: seq<Conflict>, more: seq<Conflict>, ds: seq<Disagreement>, es: seq<Disagreement>,
                   first: nat, middle: nat, next: nat,
                   was: seq<Standing>, then_: seq<Standing>, is_: seq<Standing>, facts: seq<Fact>)
    requires Noted(found, ds, first, middle, was, then_, facts) && Noted(more, es, middle, next, then_, is_, facts)
    ensures Noted(found + more, ds + es, first, next, was, is_, facts)
  {
    forall k | 0 <= k < |facts| && DistinctIds(facts) ensures is_[k] == Marked(was[k], found + more, facts[k].id) {
      MarkedJoins(was[k], found, more, facts[k].id);
    }
    assert Disagreements(found + more) == ds + es;
  }

  /** Going on to the next group; a group of one yields nothing. */
  lemma GroupsGrowByOne(facts: seq<Fact>, order: seq<string>, k: nat, lists: (Fact, Fact) -> seq<Disagreement>)
    requires k < |order|
    ensures var group := Gathering.Group(facts, SubjectOf(), order[k]);
      && Gathering.Groups(facts, order[..k + 1], SubjectOf(), lists)
        == Gathering.Groups(facts, order[..k], SubjectOf(), lists) + Gathering.Rows(group, |group|, lists)
      && (|group| < 2 ==> Gathering.Rows(group, |group|, lists) == [])
  {
    assert order[..k + 1][..k] == order[..k];
  }

  lemma RowGrows(a: Fact, rest: seq<Claim>, j: nat, lists: (Fact, Fact) -> seq<Disagreement>)
    requires j < |rest|
    ensures Gathering.Row(a, Facts(rest[..j + 1]), lists) ==
      Gathering.Row(a, Facts(rest[..j]), lists) + lists(a, rest[j].fact)
  {
    assert Facts(rest[..j + 1])[..j] == Facts(rest[..j]);
  }

  /** `a` and `rest` are among the claims; if these have different ids, `a` is none of `rest`. */
  ghost predicate RowFits(a: Claim, rest: seq<Claim>, all: seq<Claim>) {
    a in all && forall j | 0 <= j < |rest| :: rest[j] in all && (UniqueIds(all) ==> rest[j].fact.id != a.fact.id)
  }

  lemma RowsFit(group: seq<Claim>, all: seq<Claim>)
    requires TakenFrom(group, all)
    ensures forall i | 0 <= i < |group| :: RowFits(group[i], group[i + 1..], all)
  {
  }

  ghost predicate IsRowsOf(r: seq<Disagreement>, group: seq<Claim>, n: nat, lists: (Fact, Fact) -> seq<Disagreement>) {
    n <= |group| && r == Gathering.Rows(Facts(group), n, lists)
  }

  ghost function RowsOf(group: seq<Claim>, n: nat, lists: (Fact, Fact) -> seq<Disagreement>): (r: seq<Disagreement>)
    requires n <= |group|
    ensures IsRowsOf(r, group, n, lists)
  {
    assert IsRowsOf(Gathering.Rows(Facts(group), n, lists), group, n, lists);
    var r :| IsRowsOf(r, group, n, lists);
    r
  }

  lemma RowsGrow(group: seq<Claim>, i: nat, lists: (Fact, Fact) -> seq<Disagreement>)
    requires i < |group|
    ensures RowsOf(group, i + 1, lists) == RowsOf(group, i, lists) +
      Gathering.Row(group[i].fact, Facts(group[i + 1..]), lists)
  {
    assert Facts(group)[i + 1..] == Facts(group[i + 1..]);
    assert IsRowsOf(RowsOf(group, i + 1, lists), group, i + 1, lists) &&
      IsRowsOf(RowsOf(group, i, lists), group, i, lists);
  }

  /** Some of the claims; if the claims have different ids, each at most once. */
  ghost predicate TakenFrom(group: seq<Claim>, claims: seq<Claim>) {
    (UniqueIds(claims) ==> UniqueIds(group)) && forall k | 0 <= k < |group| :: group[k] in claims
  }

  lemma StillTaken(group: seq<Claim>, claims: seq<Claim>, k: nat)
    requires k < |claims| && TakenFrom(group, claims[..k])
    ensures TakenFrom(group, claims[..k + 1])
  {
    assert claims[..k + 1] == claims[..k] + [claims[k]];
  }

  lemma TakeOneMore(group: seq<Claim>, claims: seq<Claim>, k: nat)
    requires k < |claims| && TakenFrom(group, claims[..k])
    ensures TakenFrom(group + [claims[k]], claims[..k + 1])
  {
    assert claims[..k + 1] == claims[..k] + [claims[k]];
    forall i | 0 <= i < |group| && UniqueIds(claims[..k + 1]) ensures group[i].fact.id != claims[k].fact.id {
      assert group[i] in claims[..k];
      var j :| 0 <= j < k && claims[j] == group[i];
    }
  }

  /** What `bySubject` has for `s` is the group of `s` among the first `k` claims. */
  ghost predicate Holds(bySubject: map<string, seq<Claim>>, claims: seq<Claim>, k: nat, s: string)
    requires k <= |claims|
  {
    var group := if s in bySubject then bySubject[s] else [];
    TakenFrom(group, claims[..k]) && Facts(group) == Gathering.Group(Facts(claims[..k]), SubjectOf(), s)
  }

  /** `bySubject` holds the groups of the first `k` claims, and `order` their subjects. */
  ghost predicate Indexed(bySubject: map<string, seq<Claim>>, order: seq<string>, claims: seq<Claim>, k: nat)
    requires k <= |claims|
  {
    && order == Gathering.Keys(Facts(claims[..k]), SubjectOf())
    && (forall s :: s in order <==> s in bySubject)
    && (forall s {:trigger Holds(bySubject, claims, k, s)} :: Holds(bySubject, claims, k, s))
  }

  lemma FactsGrow(claims: seq<Claim>, k: nat)
    requires k < |claims|
    ensures Facts(claims[..k + 1]) == Facts(claims[..k]) + [claims[k].fact]
  {
  }

  lemma HoldsOneMore(bySubject: map<string, seq<Claim>>, after: map<string, seq<Claim>>, claims: seq<Claim>, k: nat,
      s: string)
    requires k < |claims| && Holds(bySubject, claims, k, s)
    requires s == claims[k].fact.subject ==>
      s in after && after[s] == (if s in bySubject then bySubject[s] else []) + [claims[k]]
    requires s != claims[k].fact.subject ==>
      (s in after <==> s in bySubject) && (s in after ==> after[s] == bySubject[s])
    ensures Holds(after, claims, k + 1, s)
  {
    var group := if s in bySubject then bySubject[s] else [];
    FactsGrow(claims, k);
    Gathering.GroupOfSnoc(Facts(claims[..k]), claims[k].fact, SubjectOf(), s);
    if s == claims[k].fact.subject {
      TakeOneMore(group, claims, k);
      assert Facts(group + [claims[k]]) == Facts(group) + [claims[k].fact];
    } else {
      StillTaken(group, claims, k);
    }
  }

  lemma KeysGrow(claims: seq<Claim>, k: nat)
    requires k < |claims|
    ensures var before, key := Gathering.Keys(Facts(claims[..k]), SubjectOf()), claims[k].fact.subject;
      Gathering.Keys(Facts(claims[..k + 1]), SubjectOf()) == if key in before then before else before + [key]
  {
    FactsGrow(claims, k);
    assert Facts(claims[..k + 1])[..k] == Facts(claims[..k]);
  }

  /** `bySubject` with the claim appended to its group, as the loop body leaves it. */
  function Appended(bySubject: map<string, seq<Claim>>, claim: Claim): map<string, seq<Claim>> {
    bySubject[claim.fact.subject := (if claim.fact.subject in bySubject then bySubject[claim.fact.subject]
      else []) + [claim]]
  }

  lemma IndexGrows(bySubject: map<string, seq<Claim>>, order: seq<string>, claims: seq<Claim>, k: nat)
    requires k < |claims| && Indexed(bySubject, order, claims, k)
    ensures var key := claims[k].fact.subject;
      Indexed(Appended(bySubject, claims[k]), if key in bySubject then order else order + [key], claims, k + 1)
  {
    KeysGrow(claims, k);
    var after := Appended(bySubject, claims[k]);
    var next := k + 1;
    forall s: string {:trigger Holds(after, claims, next, s)} ensures Holds(after, claims, next, s) {
      assert Holds(bySubject, claims, k, s);
      HoldsOneMore(bySubject, after, claims, k, s);
    }
  }

  /** The grouping at the start of a pass. */
  method GroupBySubject(claims: seq<Claim>) returns (bySubject: map<string, seq<Claim>>, order: seq<string>)
    ensures Indexed(bySubject, order, claims, |claims|)
  {
    bySubject, order := map[], [];
    assert Indexed(bySubject, order, claims, 0);
    for k := 0 to |claims|
      invariant Indexed(bySubject, order, claims, k)
    {
      var claim := claims[k];
      var key := claim.fact.subject;
      ghost var before := bySubject;
      IndexGrows(bySubject, order, claims, k);
      if key !in bySubject {
        bySubject := bySubject[key := []];
        order := order + [key];
      }
      bySubject := bySubject[key := bySubject[key] + [claim]];
      assert bySubject == Appended(before, claim);
    }
  }

  lemma ListingOfPair(x: Fact, y: Fact, s: Settings)
    requires s.threshold >= 1
    ensures Listing(Checker(s))(x, y) ==
      if x.predicate_ != y.predicate_ then []
      else
        About(x, y, Listed(if x.numeric && y.numeric then CheckNumeric(x, y, s) else None)
                    + Listed(if x.date.Some? && y.date.Some? then CheckFreshness(x, y, s) else None))
    ensures Listing(Checker(s))(x, y) == About(x, y, CheckPair(x, y, s))
  {
    assert Checker(s)(x, y) == CheckPair(x, y, s);
    assert Listing(Checker(s))(x, y) == About(x, y, Checker(s)(x, y));
  }

  lemma {:induction false} AboutJoins(x: Fact, y: Fact, findings: seq<Finding>, more: seq<Finding>)
    ensures About(x, y, findings + more) == About(x, y, findings) + About(x, y, more)
  {
    if more == [] {
      assert findings + more == findings;
    } else {
      AboutJoins(x, y, findings, more[..|more| - 1]);
      assert (findings + more)[..|findings + more| - 1] == findings + more[..|more| - 1];
    }
  }

  lemma {:induction false} AboutReports(x: Fact, y: Fact, findings: seq<Finding>)
    ensures forall d | d in About(x, y, findings) :: d.finding in findings
  {
    if findings != [] { AboutReports(x, y, findings[..|findings| - 1]); }
  }
}
