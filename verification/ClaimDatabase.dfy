/** `services/evidence/claims.py`: the claim database. A dictionary is the list of its values in
    insertion order. */
module ClaimDatabase {
  import opened Claims
  import opened Consistency
  import opened ClaimStore
  import opened ClaimIndex
  import opened Gathering
  import opened Arithmetic

  // ----- what a database holds, as a value -----

  /** Claim by claim the fixed part, the confidence it was created with and its standing; and the
      recorded conflicts. */
  datatype Contents = Contents(facts: seq<Fact>, initial: seq<real>, standings: seq<Standing>, conflicts: seq<Conflict>)

  /** Conflict ids grow, up to `last`. */
  ghost predicate Ascending(conflicts: seq<Conflict>, last: nat) {
    && (forall i, j | 0 <= i < j < |conflicts| :: conflicts[i].id < conflicts[j].id)
    && (forall k | 0 <= k < |conflicts| :: conflicts[k].id <= last)
  }

  /** A disagreement between known claims, of fractional severity. */
  ghost predicate Regular(d: Disagreement, facts: seq<Fact>) {
    Knows(facts, d.a) && Knows(facts, d.b) && 0.0 <= d.finding.severity <= 1.0
  }

  ghost predicate AllRegular(conflicts: seq<Conflict>, facts: seq<Fact>) {
    forall k | 0 <= k < |conflicts| :: Regular(conflicts[k].of, facts)
  }

  /** The standing of a claim whose conflicts are exactly those a scan finds, each counted once. */
  ghost predicate Settled(standing: Standing, initial: real, conflicts: seq<Conflict>, id: string) {
    standing == Marked(Standing([], initial), conflicts, id)
  }

  ghost predicate AllSettled(c: Contents) {
    && |c.facts| == |c.initial| == |c.standings|
    && forall k | 0 <= k < |c.facts| :: Settled(c.standings[k], c.initial[k], c.conflicts, c.facts[k].id)
  }

  /** The claims' own lists and the recorded conflicts tell the same story. */
  ghost predicate Agrees(c: Contents, last: nat) {
    DistinctIds(c.facts) && Ascending(c.conflicts, last) && AllRegular(c.conflicts, c.facts) && AllSettled(c)
  }

  // ----- a verification pass -----

  lemma FoundIsRegular(facts: seq<Fact>, s: Settings, d: Disagreement)
    requires s.threshold >= 1 && d in Found(facts, Checker(s))
    ensures Regular(d, facts)
  {
    var lists := Listing(Checker(s));
    GroupsStem(facts, Keys(facts, SubjectOf()), SubjectOf(), lists);
    var x, y :| x in facts && y in facts && d in lists(x, y);
    AboutNames(x, y, Checker(s)(x, y));
    AboutReports(x, y, Checker(s)(x, y));
    SeverityIsAFraction(x, y, s);
    assert Checker(s)(x, y) == CheckPair(x, y, s);
  }

  lemma StoredAreRegular(conflicts: seq<Conflict>, found: seq<Conflict>, facts: seq<Fact>, s: Settings)
    requires s.threshold >= 1 && AllRegular(conflicts, facts) && Disagreements(found) == Found(facts, Checker(s))
    ensures AllRegular(conflicts + found, facts)
  {
    forall k | 0 <= k < |found| ensures Regular(found[k].of, facts) {
      assert Disagreements(found)[k] == found[k].of;
      FoundIsRegular(facts, s, found[k].of);
    }
  }

  lemma StoredAreAscending(conflicts: seq<Conflict>, found: seq<Conflict>, last: nat)
    requires Ascending(conflicts, last) && Numbered(found, last)
    ensures Ascending(conflicts + found, last + |found|)
  {
  }

  /** A pass whose conflicts are stored keeps lists and conflicts in agreement. */
  lemma PassKeepsAgreement(c: Contents, found: seq<Conflict>, standings: seq<Standing>, s: Settings, last: nat,
      next: nat)
    requires s.threshold >= 1 && Agrees(c, last)
    requires Noted(found, Found(c.facts, Checker(s)), last, next, c.standings, standings, c.facts)
    ensures Agrees(c.(standings := standings, conflicts := c.conflicts + found), next)
  {
    StoredAreRegular(c.conflicts, found, c.facts, s);
    StoredAreAscending(c.conflicts, found, last);
    forall k | 0 <= k < |c.facts| ensures Settled(standings[k], c.initial[k], c.conflicts + found, c.facts[k].id) {
      assert Settled(c.standings[k], c.initial[k], c.conflicts, c.facts[k].id);
      MarkedJoins(Standing([], c.initial[k]), c.conflicts, found, c.facts[k].id);
    }
  }

  lemma StoredAreListed(conflicts: seq<Conflict>, found: seq<Conflict>)
    ensures Disagreements(conflicts + found) == Disagreements(conflicts) + Disagreements(found)
  {
  }

  /** A pass that finds nothing changes nothing, and any other changes something. */
  lemma PassChangesIfItFinds(c: Contents, found: seq<Conflict>, standings: seq<Standing>, s: Settings, last: nat,
      next: nat)
    requires s.threshold >= 1 && |c.facts| == |c.standings| && DistinctIds(c.facts)
    requires Noted(found, Found(c.facts, Checker(s)), last, next, c.standings, standings, c.facts)
    ensures c.(standings := standings, conflicts := c.conflicts + found) == c <==> Found(c.facts, Checker(s)) == []
  {
    if found == [] {
      forall k | 0 <= k < |standings| ensures standings[k] == c.standings[k] {
        UninvolvedIsUnmarked(c.standings[k], [], c.facts[k].id);
      }
    } else {
      assert |c.conflicts + found| > |c.conflicts|;
    }
  }

  /** `after` is `before` verified once more. */
  ghost predicate PassedOnce(before: Contents, after: Contents, s: Settings)
    requires s.threshold >= 1
  {
    && after.facts == before.facts && after.initial == before.initial
    && Disagreements(after.conflicts) == Disagreements(before.conflicts) + Found(before.facts, Checker(s))
  }

  /** Nothing is known to be recorded already: `k` passes over unchanged claims record everything
      they find `k` times over. */
  lemma {:induction false} PassesRepeat(states: seq<Contents>, s: Settings)
    requires s.threshold >= 1 && states != []
    requires forall i | 0 < i < |states| :: PassedOnce(states[i - 1], states[i], s)
    ensures var first, last, k := states[0], states[|states| - 1], |states| - 1;
      && last.facts == first.facts && last.initial == first.initial
      && Disagreements(last.conflicts) == Disagreements(first.conflicts) + Copies(Found(first.facts, Checker(s)), k)
  {
    var k := |states| - 1;
    var ds := Found(states[0].facts, Checker(s));
    if k == 0 {
      assert Disagreements(states[0].conflicts) + [] == Disagreements(states[0].conflicts);
    } else {
      PassesRepeat(states[..k], s);
      assert PassedOnce(states[k - 1], states[k], s);
      var was := Disagreements(states[0].conflicts);
      assert (was + Copies(ds, k - 1)) + ds == was + Copies(ds, k);
    }
  }

  function Scaled(x: real, share: real): real { x * share }

  lemma Shares(was: real, is_: real, initial: real, before: real, share: real, both: real)
    requires was == Scaled(initial, before) && is_ == Scaled(initial, both) && both == Scaled(before, share)
    ensures is_ == Scaled(was, share)
  {
    JoinStep(initial, before, share, was, both);
  }

  lemma LeftJoins(ds: seq<Disagreement>, more: seq<Disagreement>, id: string)
    ensures Left(ds + more, id) == Scaled(Left(ds, id), Left(more, id))
  {
    ProductJoins(ds, more, Consistency.FactorOf(id));
  }

  // ----- adding a claim -----

  ghost function ContentsOf(claims: seq<Claim>, conflicts: seq<Conflict>): Contents
    reads claims
  {
    Contents(Facts(claims), Initials(claims), Standings(claims), conflicts)
  }

  ghost function Initials(claims: seq<Claim>): (r: seq<real>)
    ensures |r| == |claims| && forall k | 0 <= k < |r| :: r[k] == claims[k].initial
  {
    seq(|claims|, k requires 0 <= k < |claims| => claims[k].initial)
  }

  lemma PutKeepsIdsDistinct(claims: seq<Claim>, claim: Claim)
    requires DistinctIds(Facts(claims))
    ensures DistinctIds(Facts(Put(claims, claim)))
  {
    PutAtPlace(claims, claim);
    var after, n := Put(claims, claim), Place(claims, claim.fact.id);
    forall i, j | 0 <= i < j < |after| ensures after[i].fact.id != after[j].fact.id {
      if j < |claims| { assert Facts(claims)[i].id != Facts(claims)[j].id; }
    }
  }

  lemma PutKeepsKnown(claims: seq<Claim>, claim: Claim, id: string)
    requires Knows(Facts(claims), id)
    ensures Knows(Facts(Put(claims, claim)), id)
  {
    var k :| 0 <= k < |claims| && Facts(claims)[k].id == id;
    PutAtPlace(claims, claim);
    assert Facts(Put(claims, claim))[k].id == id;
  }

  lemma PutKeepsRegular(claims: seq<Claim>, claim: Claim, conflicts: seq<Conflict>)
    requires AllRegular(conflicts, Facts(claims))
    ensures AllRegular(conflicts, Facts(Put(claims, claim)))
  {
    forall k | 0 <= k < |conflicts| ensures Regular(conflicts[k].of, Facts(Put(claims, claim))) {
      assert Regular(conflicts[k].of, Facts(claims));
      PutKeepsKnown(claims, claim, conflicts[k].of.a);
      PutKeepsKnown(claims, claim, conflicts[k].of.b);
    }
  }

  ghost predicate Fits(claim: Claim, conflicts: seq<Conflict>)
    reads claim
  {
    Settled(claim.Now(), claim.initial, conflicts, claim.fact.id)
  }

  lemma PutSettles(claims: seq<Claim>, claim: Claim, conflicts: seq<Conflict>)
    requires AllSettled(ContentsOf(claims, conflicts))
    ensures AllSettled(ContentsOf(Put(claims, claim), conflicts)) <==> Fits(claim, conflicts)
  {
    var before, after := ContentsOf(claims, conflicts), ContentsOf(Put(claims, claim), conflicts);
    var n := Place(claims, claim.fact.id);
    PutAtPlace(claims, claim);
    forall k | 0 <= k < |after.facts| && k != n
      ensures Settled(after.standings[k], after.initial[k], conflicts, after.facts[k].id)
    {
      assert Settled(before.standings[k], before.initial[k], conflicts, before.facts[k].id);
    }
    if AllSettled(after) { assert Settled(after.standings[n], after.initial[n], conflicts, after.facts[n].id); }
  }

  /** Whatever claim is put, agreement is kept exactly if the claim's own list already is what a
      scan finds for its id. */
  lemma PutKeepsAgreement(claims: seq<Claim>, claim: Claim, conflicts: seq<Conflict>, last: nat)
    requires Agrees(ContentsOf(claims, conflicts), last)
    ensures Agrees(ContentsOf(Put(claims, claim), conflicts), last) <==> Fits(claim, conflicts)
  {
    PutKeepsIdsDistinct(claims, claim);
    PutKeepsRegular(claims, claim, conflicts);
    PutSettles(claims, claim, conflicts);
  }

  /** A new claim, under whatever id, fits exactly if no recorded conflict mentions that id. */
  lemma FreshFits(claim: Claim, conflicts: seq<Conflict>)
    requires claim.conflicts == [] && claim.confidence == claim.initial
    ensures Fits(claim, conflicts) <==> Unmentioned(conflicts, claim.fact.id)
  {
    if Unmentioned(conflicts, claim.fact.id) {
      UninvolvedIsUnmarked(claim.Now(), conflicts, claim.fact.id);
    } else {
      var k :| 0 <= k < |conflicts| && conflicts[k].of.Involves(claim.fact.id);
      InvolvedIsListed(conflicts, claim.fact.id, k);
    }
  }

  ghost predicate Unmentioned(conflicts: seq<Conflict>, id: string) { forall c | c in conflicts :: !c.of.Involves(id) }

  /** In an agreeing database no conflict mentions an id that is not known. */
  lemma UnknownIsUnmentioned(facts: seq<Fact>, conflicts: seq<Conflict>, id: string)
    requires AllRegular(conflicts, facts) && !Knows(facts, id)
    ensures Unmentioned(conflicts, id)
  {
    forall c | c in conflicts ensures !c.of.Involves(id) {
      var k :| 0 <= k < |conflicts| && conflicts[k] == c;
      assert Regular(conflicts[k].of, facts);
    }
  }

  lemma {:induction false} InvolvedIsListed(conflicts: seq<Conflict>, id: string, k: nat)
    requires k < |conflicts| && conflicts[k].of.Involves(id)
    ensures Involving(conflicts, id) != []
  {
    if k < |conflicts| - 1 { InvolvedIsListed(conflicts[..|conflicts| - 1], id, k); }
  }

  // ----- the database -----

  /** `d[conflict.id] = conflict` */
  function PutConflict(conflicts: seq<Conflict>, conflict: Conflict): seq<Conflict> {
    if conflicts == [] then [conflict]
    else if conflicts[0].id == conflict.id then [conflict] + conflicts[1..]
    else [conflicts[0]] + PutConflict(conflicts[1..], conflict)
  }

  lemma {:induction false} NewIdIsAppended(conflicts: seq<Conflict>, conflict: Conflict)
    requires forall k | 0 <= k < |conflicts| :: conflicts[k].id != conflict.id
    ensures PutConflict(conflicts, conflict) == conflicts + [conflict]
  {
    if conflicts != [] {
      NewIdIsAppended(conflicts[1..], conflict);
      assert conflicts == [conflicts[0]] + conflicts[1..];
    }
  }

  class ClaimDB {
    var claims: seq<Claim>
    var conflicts: seq<Conflict>
    var bySubject: Index
    var byDocument: Index
    const verifier: ClaimVerifier

    ghost predicate Consistent()
      reads `claims, `conflicts, verifier, claims
    {
      verifier.settings.threshold >= 1 && Agrees(ContentsOf(claims, conflicts), verifier.counter)
    }

    ghost predicate Indexed()
      reads `claims, `bySubject, `byDocument
    {
      BothList(bySubject, byDocument, claims)
    }

    /** The recorded conflicts have the numbers 1, 2 and so on, and no other number was drawn. */
    ghost predicate InStep()
      reads `conflicts, verifier
    {
      Numbered(conflicts, 0) && verifier.counter == |conflicts|
    }

    constructor (settings: Settings)
      requires settings.threshold >= 1
      ensures Consistent() && Indexed() && InStep() && claims == [] && conflicts == [] && fresh(verifier)
    {
      claims, conflicts, bySubject, byDocument := [], [], map[], map[];
      verifier := new ClaimVerifier(settings);
    }

    /** Adds a claim under its id. The database stays consistent exactly if the claim fits (see
        `FreshFits`), and the indexes stay right exactly if the id is new. */
    method AddClaim(claim: Claim)
      requires Consistent()
      modifies this
      ensures claims == Put(old(claims), claim) && conflicts == old(conflicts)
      ensures bySubject == Entered(old(bySubject), claim.fact.subject, claim.fact.id)
      ensures byDocument == Entered(old(byDocument), claim.fact.document, claim.fact.id)
      ensures Consistent() <==> Fits(claim, conflicts)
      ensures old(Indexed()) ==> (Indexed() <==> !Knows(Facts(old(claims)), claim.fact.id))
    {
      Store(claim);
      EnterBoth(claim, old(claims));
    }

    method Store(claim: Claim)
      requires Consistent()
      modifies `claims
      ensures claims == Put(old(claims), claim)
      ensures Consistent() <==> Fits(claim, conflicts)
    {
      PutKeepsAgreement(claims, claim, conflicts, verifier.counter);
      claims := Put(claims, claim);
    }

    method EnterBoth(claim: Claim, ghost was: seq<Claim>)
      requires claims == Put(was, claim)
      modifies `bySubject, `byDocument
      ensures bySubject == Entered(old(bySubject), claim.fact.subject, claim.fact.id)
      ensures byDocument == Entered(old(byDocument), claim.fact.document, claim.fact.id)
      ensures old(BothList(bySubject, byDocument, was)) ==> (Indexed() <==> !Knows(Facts(was), claim.fact.id))
    {
      if BothList(bySubject, byDocument, was) { BothFollowIfNew(bySubject, byDocument, was, claim); }
      bySubject := Enter(bySubject, claim.fact.subject, claim.fact.id);
      byDocument := Enter(byDocument, claim.fact.document, claim.fact.id);
    }

    method AddConflict(conflict: Conflict)
      modifies this`conflicts
      ensures conflicts == PutConflict(old(conflicts), conflict)
    {
      conflicts := PutConflict(conflicts, conflict);
    }

    /** The loop that stores a pass's conflicts: ids are new, so each is appended. */
    method StoreAll(reported: seq<Conflict>)
      requires forall i, j | 0 <= i < |conflicts| && 0 <= j < |reported| :: conflicts[i].id < reported[j].id
      requires forall i, j | 0 <= i < j < |reported| :: reported[i].id < reported[j].id
      modifies this`conflicts
      ensures conflicts == old(conflicts) + reported
    {
      for k := 0 to |reported|
        invariant conflicts == old(conflicts) + reported[..k]
      {
        NewIdIsAppended(conflicts, reported[k]);
        AddConflict(reported[k]);
      }
      assert reported[..|reported|] == reported;
    }

    /** Runs verification on all claims and stores what it finds. */
    method VerifyAll() returns (totalClaims: nat, totalConflicts: nat, ghost found: seq<Conflict>)
      requires Consistent()
      modifies this`conflicts, verifier, claims
      ensures Consistent() && (old(Indexed()) ==> Indexed())
      ensures conflicts == old(conflicts) + found
      ensures Numbered(found, old(verifier.counter)) && verifier.counter == old(verifier.counter) + |found|
      ensures Disagreements(found) == Found(Facts(claims), Checker(verifier.settings))
      ensures totalClaims == |claims| && totalConflicts == |found|
      ensures PassedOnce(old(ContentsOf(claims, conflicts)), ContentsOf(claims, conflicts), verifier.settings)
      ensures ContentsOf(claims, conflicts) == old(ContentsOf(claims, conflicts)) <==> found == []
    {
      ghost var before, last := ContentsOf(claims, conflicts), verifier.counter;
      var reported := verifier.VerifyClaims(claims);
      found := reported;
      PassKeepsAgreement(before, found, Standings(claims), verifier.settings, last, verifier.counter);
      PassChangesIfItFinds(before, found, Standings(claims), verifier.settings, last, verifier.counter);
      StoredAreListed(before.conflicts, found);
      StoreAll(reported);
      totalClaims, totalConflicts := |claims|, |reported|;
    }

    method GetClaimsForSubject(subject: string) returns (found: seq<Claim>)
      ensures found == StoredUnder(claims, Entries(bySubject, subject))
      ensures Indexed() && UniqueIds(claims) ==> Facts(found) == Group(Facts(claims), SubjectOf(), subject)
    {
      found := LookUp(claims, Entries(bySubject, subject));
      if Indexed() && UniqueIds(claims) { LookupIsGroup(claims, bySubject, SubjectOf(), subject); }
    }

    method GetClaimsForDocument(document: string) returns (found: seq<Claim>)
      ensures found == StoredUnder(claims, Entries(byDocument, document))
      ensures Indexed() && UniqueIds(claims) ==> Facts(found) == Group(Facts(claims), DocumentOf(), document)
    {
      found := LookUp(claims, Entries(byDocument, document));
      if Indexed() && UniqueIds(claims) { LookupIsGroup(claims, byDocument, DocumentOf(), document); }
    }

    /** The scan. */
    method GetConflictsForClaim(id: string) returns (found: seq<Conflict>)
      ensures found == Scan(conflicts, id)
    {
      found := [];
      for k := 0 to |conflicts|
        invariant found == Scan(conflicts[..k], id)
      {
        assert conflicts[..k + 1][..k] == conflicts[..k];
        if conflicts[k].of.Involves(id) {
          found := found + [conflicts[k]];
        }
      }
      assert conflicts[..|conflicts|] == conflicts;
    }
  }

  /** A consistency query draws an id for each finding it sees, and leaves everything else as it was. */
  method QueryConsistency(db: ClaimDB) returns (consistency: map<string, real>)
    requires db.Consistent()
    modifies db.verifier
    ensures db.Consistent()
    ensures db.verifier.counter == old(db.verifier.counter) + Drawn(Facts(db.claims), Checker(db.verifier.settings))
    ensures Scored(consistency, Keys(Facts(db.claims), SubjectOf()), Facts(db.claims), Checker(db.verifier.settings))
  {
    consistency := CrossSourceConsistency(db.claims, db.verifier);
  }

  /** Ids that were drawn in between and not recorded leave a gap exactly if something is recorded
      after them. */
  lemma GapIfSomethingFollows(conflicts: seq<Conflict>, drawn: nat, found: seq<Conflict>)
    requires Numbered(conflicts, 0) && Numbered(found, |conflicts| + drawn)
    ensures Numbered(conflicts + found, 0) <==> drawn == 0 || found == []
  {
    if found != [] { assert (conflicts + found)[|conflicts|] == found[0]; }
  }

  /** A consistency query and then a pass: the recorded ids stay without a gap exactly if no two
      claims on one subject from different documents have anything against each other. */
  method QueryAndVerify(db: ClaimDB) returns (consistency: map<string, real>)
    requires db.Consistent() && db.InStep()
    modifies db`conflicts, db.verifier, db.claims
    ensures db.Consistent() && db.claims == old(db.claims)
    ensures var facts, check := Facts(db.claims), Checker(db.verifier.settings);
      Numbered(db.conflicts, 0) <==> forall i, j | 0 <= i < j < |facts| :: !Clash(facts[i], facts[j], check)
    ensures Numbered(db.conflicts, 0) <==> db.InStep()
  {
    ghost var facts, check := Facts(db.claims), Checker(db.verifier.settings);
    ghost var conflicts := db.conflicts;
    consistency := QueryConsistency(db);
    var _, _, found := db.VerifyAll();
    GapIfSomethingFollows(conflicts, Drawn(facts, check), found);
    QueryDraws(facts, check);
  }

  // ----- what a reader of a consistent database sees -----

  /** The conflicts that involve claim `id`. */
  function Scan(conflicts: seq<Conflict>, id: string): seq<Conflict> {
    if conflicts == [] then []
    else
      var last := conflicts[|conflicts| - 1];
      Scan(conflicts[..|conflicts| - 1], id) + if last.of.Involves(id) then [last] else []
  }

  function Ids(conflicts: seq<Conflict>): (r: seq<nat>)
    ensures |r| == |conflicts| && forall k | 0 <= k < |r| :: r[k] == conflicts[k].id
  {
    seq(|conflicts|, k requires 0 <= k < |conflicts| => conflicts[k].id)
  }

  lemma {:induction false} ScanInvolves(conflicts: seq<Conflict>, id: string)
    ensures Ids(Scan(conflicts, id)) == Involving(conflicts, id)
  {
    if conflicts != [] { ScanInvolves(conflicts[..|conflicts| - 1], id); }
  }

  /** Each claim's own list holds exactly the ids that a scan finds, in the same order. */
  lemma ListIsScan(c: Contents, last: nat, k: nat)
    requires Agrees(c, last) && k < |c.facts|
    ensures c.standings[k].conflicts == Ids(Scan(c.conflicts, c.facts[k].id))
  {
    assert Settled(c.standings[k], c.initial[k], c.conflicts, c.facts[k].id);
    ScanInvolves(c.conflicts, c.facts[k].id);
  }

  lemma {:induction false} InvolvingIsCounted(conflicts: seq<Conflict>, id: string)
    ensures |Involving(conflicts, id)| == Count(Disagreements(conflicts), id)
    ensures Product(conflicts, ClaimStore.FactorOf(id)) == Left(Disagreements(conflicts), id)
  {
    if conflicts != [] {
      var rest := conflicts[..|conflicts| - 1];
      InvolvingIsCounted(rest, id);
      assert Disagreements(conflicts)[..|conflicts| - 1] == Disagreements(rest);
    }
  }

  lemma ScaleBounds(initial: real, low: real, left: real)
    requires initial >= 0.0 && 0.0 <= low <= left <= 1.0
    ensures initial * low <= initial * left <= initial
  {
    ScaleUp(initial, low, left);
    ScaleUp(initial, left, 1.0);
  }

  lemma RecordedAreFractions(conflicts: seq<Conflict>, facts: seq<Fact>)
    requires AllRegular(conflicts, facts)
    ensures Fractions(Disagreements(conflicts))
  {
    var ds := Disagreements(conflicts);
    forall d | d in ds ensures 0.0 <= d.finding.severity <= 1.0 {
      var i :| 0 <= i < |ds| && ds[i] == d;
      assert Regular(conflicts[i].of, facts);
    }
  }

  /** A settled claim's confidence is what all the recorded disagreements leave of its initial one. */
  lemma ConfidenceIsWhatIsLeft(standing: Standing, initial: real, conflicts: seq<Conflict>, id: string)
    requires Settled(standing, initial, conflicts, id)
    ensures standing.confidence == initial * Left(Disagreements(conflicts), id)
    ensures |standing.conflicts| == Count(Disagreements(conflicts), id)
  {
    InvolvingIsCounted(conflicts, id);
    assert [] + Involving(conflicts, id) == Involving(conflicts, id);
  }

  lemma ConfidenceIsScaled(standing: Standing, initial: real, conflicts: seq<Conflict>, id: string)
    requires Settled(standing, initial, conflicts, id)
    ensures standing.confidence == Scaled(initial, Left(Disagreements(conflicts), id))
  {
    ConfidenceIsWhatIsLeft(standing, initial, conflicts, id);
  }

  lemma LeftGrows(before: seq<Conflict>, after: seq<Conflict>, ds: seq<Disagreement>, id: string)
    requires Disagreements(after) == Disagreements(before) + ds
    ensures Left(Disagreements(after), id) == Scaled(Left(Disagreements(before), id), Left(ds, id))
  {
    LeftJoins(Disagreements(before), ds, id);
  }

  /** A pass takes from each confidence what its findings take. */
  lemma PassTakesItsShare(was: Standing, is_: Standing, initial: real, before: seq<Conflict>, after: seq<Conflict>,
                          ds: seq<Disagreement>, id: string, share: real)
    requires Settled(was, initial, before, id) && Settled(is_, initial, after, id)
    requires Disagreements(after) == Disagreements(before) + ds && share == Left(ds, id)
    ensures is_.confidence == Scaled(was.confidence, share)
  {
    ConfidenceIsScaled(was, initial, before, id);
    ConfidenceIsScaled(is_, initial, after, id);
    LeftGrows(before, after, ds, id);
    Shares(was.confidence, is_.confidence, initial,
           Left(Disagreements(before), id), share, Left(Disagreements(after), id));
  }

  /** What `n` takings of one share leave. */
  function Worn(confidence: real, share: real, n: nat): (r: real) {
    if n == 0 then confidence else Scaled(Worn(confidence, share, n - 1), share)
  }

  lemma {:induction false} WornIsPower(confidence: real, share: real, n: nat)
    ensures Worn(confidence, share, n) == confidence * Power(share, n)
  {
    if n > 0 {
      WornIsPower(confidence, share, n - 1);
      JoinStep(confidence, Power(share, n - 1), share, Worn(confidence, share, n - 1), Power(share, n));
    }
  }

  ghost predicate Grows(logs: seq<seq<Conflict>>, ds: seq<Disagreement>) {
    forall i | 0 < i < |logs| :: Disagreements(logs[i]) == Disagreements(logs[i - 1]) + ds
  }

  lemma {:induction false} SharesAreTaken(standings: seq<Standing>, initial: real, logs: seq<seq<Conflict>>,
                                          ds: seq<Disagreement>, id: string, share: real, n: nat)
    requires n < |standings| == |logs| && Grows(logs, ds) && share == Left(ds, id)
    requires forall i | 0 <= i < |logs| :: Settled(standings[i], initial, logs[i], id)
    ensures standings[n].confidence == Worn(standings[0].confidence, share, n)
  {
    if n > 0 {
      SharesAreTaken(standings, initial, logs, ds, id, share, n - 1);
      PassTakesItsShare(standings[n - 1], standings[n], initial, logs[n - 1], logs[n], ds, id, share);
    }
  }

  /** `states` are what the database holds before and after each of some passes over its claims. */
  ghost predicate Passes(states: seq<Contents>, s: Settings)
    requires s.threshold >= 1
  {
    && states != [] && (forall i | 0 < i < |states| :: PassedOnce(states[i - 1], states[i], s))
    && (forall i | 0 <= i < |states| :: AllSettled(states[i]))
  }

  lemma {:induction false} PassesKeepFacts(states: seq<Contents>, s: Settings, i: nat)
    requires s.threshold >= 1 && Passes(states, s) && i < |states|
    ensures states[i].facts == states[0].facts && states[i].initial == states[0].initial
  {
    if i > 0 {
      PassesKeepFacts(states, s, i - 1);
      assert PassedOnce(states[i - 1], states[i], s);
    }
  }

  lemma PassesOfClaim(states: seq<Contents>, s: Settings, k: nat, ds: seq<Disagreement>)
    returns (standings: seq<Standing>, logs: seq<seq<Conflict>>)
    requires s.threshold >= 1 && Passes(states, s) && k < |states[0].facts| && ds == Found(states[0].facts, Checker(s))
    ensures |standings| == |logs| == |states| && Grows(logs, ds)
    ensures forall i | 0 <= i < |states| :: k < |states[i].standings| && standings[i] == states[i].standings[k]
    ensures forall i | 0 <= i < |states| :: Settled(standings[i], states[0].initial[k], logs[i], states[0].facts[k].id)
  {
    forall i | 0 <= i < |states|
      ensures states[i].facts == states[0].facts && states[i].initial == states[0].initial
    {
      PassesKeepFacts(states, s, i);
    }
    standings := seq(|states|, i requires 0 <= i < |states| => states[i].standings[k]);
    logs := seq(|states|, i requires 0 <= i < |states| => states[i].conflicts);
    assert Grows(logs, ds) by {
      forall i | 0 < i < |logs| ensures Disagreements(logs[i]) == Disagreements(logs[i - 1]) + ds {
        assert PassedOnce(states[i - 1], states[i], s);
      }
    }
  }

  /** So every pass over unchanged claims takes the same share again: what the findings leave of a
      claim's confidence, to the power of the number of passes. */
  lemma PassesWearDown(states: seq<Contents>, s: Settings, k: nat, share: real)
    requires s.threshold >= 1 && Passes(states, s) && k < |states[0].facts|
    requires share == Left(Found(states[0].facts, Checker(s)), states[0].facts[k].id)
    ensures var last := states[|states| - 1];
      && k < |last.standings| && k < |states[0].standings|
      && last.standings[k].confidence == Worn(states[0].standings[k].confidence, share, |states| - 1)
  {
    var first, ds := states[0], Found(states[0].facts, Checker(s));
    var standings, logs := PassesOfClaim(states, s, k, ds);
    SharesAreTaken(standings, first.initial[k], logs, ds, first.facts[k].id, share, |states| - 1);
  }

  lemma SettledIsBounded(standing: Standing, initial: real, conflicts: seq<Conflict>, id: string)
    requires Settled(standing, initial, conflicts, id) && initial >= 0.0 && Fractions(Disagreements(conflicts))
    ensures initial * Power(0.7, |standing.conflicts|) <= standing.confidence <= initial
  {
    ConfidenceIsWhatIsLeft(standing, initial, conflicts, id);
    LeftIsBounded(Disagreements(conflicts), id);
    ScaleBounds(initial, Power(0.7, |standing.conflicts|), Left(Disagreements(conflicts), id));
  }

  /** However often claims are added and verified, each conflict costs a claim at most three
      tenths of its confidence. */
  lemma ConfidenceIsBounded(c: Contents, last: nat, k: nat)
    requires Agrees(c, last) && k < |c.facts| && c.initial[k] >= 0.0
    ensures c.initial[k] * Power(0.7, |c.standings[k].conflicts|) <= c.standings[k].confidence <= c.initial[k]
  {
    RecordedAreFractions(c.conflicts, c.facts);
    assert Settled(c.standings[k], c.initial[k], c.conflicts, c.facts[k].id);
    SettledIsBounded(c.standings[k], c.initial[k], c.conflicts, c.facts[k].id);
  }

  lemma SameLeftSameConfidence(s: Standing, t: Standing, initial: real, c: seq<Conflict>, d: seq<Conflict>, id: string)
    requires Settled(s, initial, c, id) && Settled(t, initial, d, id) &&
      Left(Disagreements(c), id) == Left(Disagreements(d), id)
    ensures s.confidence == t.confidence
  {
    ConfidenceIsWhatIsLeft(s, initial, c, id);
    ConfidenceIsWhatIsLeft(t, initial, d, id);
  }

  /** The same claims in another order, verified once: the same pairs conflict, for the same
      reasons and as severely, and every claim ends up with the same confidence. */
  lemma OrderDoesNotMatter(c: Contents, d: Contents, s: Settings, k: nat, l: nat)
    requires s.threshold >= 1 && AllSettled(c) && AllSettled(d) && multiset(c.facts) == multiset(d.facts)
    requires Disagreements(c.conflicts) == Found(c.facts, Checker(s)) &&
      Disagreements(d.conflicts) == Found(d.facts, Checker(s))
    requires k < |c.facts| && l < |d.facts| && c.facts[k].id == d.facts[l].id && c.initial[k] == d.initial[l]
    ensures multiset(Mapped(Disagreements(c.conflicts), Neutral())) ==
      multiset(Mapped(Disagreements(d.conflicts), Neutral()))
    ensures c.standings[k].confidence == d.standings[l].confidence
  {
    CheckerIsSound(s);
    FoundPermutes(c.facts, d.facts, Checker(s));
    ConfidencePermutes(c.facts, d.facts, Checker(s), c.facts[k].id);
    SameLeftSameConfidence(c.standings[k], d.standings[l], c.initial[k], c.conflicts, d.conflicts, c.facts[k].id);
  }
}
