/** `services/evidence/claims.py`: the dictionary of claims, and the indexes that list claim ids by
    subject and by document.

    The dictionary replaces a claim whose id is known, the indexes always append. */
module ClaimIndex {
  import opened Claims
  import opened Consistency
  import opened ClaimStore
  import opened Gathering

  ghost predicate Knows(facts: seq<Fact>, id: string) { exists k | 0 <= k < |facts| :: facts[k].id == id }

  // ----- the dictionary -----

  /** `d[id] = claim`: replaces the claim with the same id where it stands, or appends. */
  function Put(claims: seq<Claim>, claim: Claim): seq<Claim> {
    if claims == [] then [claim]
    else if claims[0].fact.id == claim.fact.id then [claim] + claims[1..]
    else [claims[0]] + Put(claims[1..], claim)
  }

  /** Where `claim` goes: to the place of the claim with its id, or behind the last. */
  function Place(claims: seq<Claim>, id: string): (k: nat)
    ensures k <= |claims| && (k < |claims| ==> claims[k].fact.id == id)
    ensures forall i | 0 <= i < k :: claims[i].fact.id != id
  {
    if claims == [] || claims[0].fact.id == id then 0 else 1 + Place(claims[1..], id)
  }

  lemma {:induction false} PutAtPlace(claims: seq<Claim>, claim: Claim)
    ensures var k := Place(claims, claim.fact.id);
      |Put(claims, claim)| == (if k < |claims| then |claims| else k + 1) && Put(claims, claim)[k] == claim
    ensures forall i | 0 <= i < |claims| && i != Place(claims, claim.fact.id) :: Put(claims, claim)[i] == claims[i]
  {
    if claims != [] && claims[0].fact.id != claim.fact.id {
      PutAtPlace(claims[1..], claim);
      forall i | 0 <= i < |claims| && i != Place(claims, claim.fact.id) ensures Put(claims, claim)[i] == claims[i] {
        if i > 0 { assert claims[1..][i - 1] == claims[i]; }
      }
    }
  }

  // ----- an index -----

  type Index = map<string, seq<string>>

  function Entries(index: Index, k: string): seq<string> { if k in index then index[k] else [] }

  /** Appends an id to the list of its key. */
  function Entered(index: Index, k: string, id: string): (r: Index)
    ensures forall j :: Entries(r, j) == if j == k then Entries(index, k) + [id] else Entries(index, j)
  {
    index[k := Entries(index, k) + [id]]
  }

  /** The three statements of an index update. */
  method Enter(index: Index, k: string, id: string) returns (entered: Index)
    ensures entered == Entered(index, k, id)
  {
    entered := index;
    if k !in entered {
      entered := entered[k := []];
    }
    entered := entered[k := entered[k] + [id]];
  }

  function DocumentOf(): Fact -> string { (x: Fact) => x.document }

  function IdsOf(facts: seq<Fact>): (r: seq<string>)
    ensures |r| == |facts| && forall i | 0 <= i < |r| :: r[i] == facts[i].id
  {
    seq(|facts|, i requires 0 <= i < |facts| => facts[i].id)
  }

  /** What the index lists under `k` are the claims with that key, in order. */
  ghost predicate ListsKey(index: Index, facts: seq<Fact>, key: Fact -> string, k: string) {
    Entries(index, k) == IdsOf(Group(facts, key, k))
  }

  ghost predicate ListsAll(index: Index, facts: seq<Fact>, key: Fact -> string) {
    forall k :: ListsKey(index, facts, key, k)
  }

  lemma {:induction false} GroupJoins(a: seq<Fact>, b: seq<Fact>, key: Fact -> string, k: string)
    ensures Group(a + b, key, k) == Group(a, key, k) + Group(b, key, k)
  {
    if b == [] {
      assert a + b == a;
    } else {
      var rest, last := b[..|b| - 1], b[|b| - 1];
      assert a + b == (a + rest) + [last] && b == rest + [last];
      GroupJoins(a, rest, key, k);
      GroupOfSnoc(a + rest, last, key, k);
      GroupOfSnoc(rest, last, key, k);
    }
  }

  /** A claim under a new id: both the dictionary and the index append it. */
  lemma NewIdKeepsIndex(index: Index, facts: seq<Fact>, f: Fact, key: Fact -> string)
    requires ListsAll(index, facts, key)
    ensures ListsAll(Entered(index, key(f), f.id), facts + [f], key)
  {
    forall k ensures ListsKey(Entered(index, key(f), f.id), facts + [f], key, k) {
      assert ListsKey(index, facts, key, k);
      GroupOfSnoc(facts, f, key, k);
      assert IdsOf(Group(facts, key, k) + [f]) == IdsOf(Group(facts, key, k)) + [f.id];
    }
  }

  /** A claim under a known id: the dictionary replaces, the index appends, and they part. */
  lemma KnownIdBreaksIndex(index: Index, a: seq<Fact>, was: Fact, f: Fact, b: seq<Fact>, key: Fact -> string)
    requires ListsAll(index, a + [was] + b, key)
    ensures !ListsAll(Entered(index, key(f), f.id), a + [f] + b, key)
  {
    var k := key(was);
    var before, after := Group(a + [was] + b, key, k), Group(a + [f] + b, key, k);
    assert ListsKey(index, a + [was] + b, key, k);
    GroupJoins(a + [was], b, key, k);
    GroupJoins(a, [was], key, k);
    GroupJoins(a + [f], b, key, k);
    GroupJoins(a, [f], key, k);
    assert Group([was], key, k) == [was] && Group([f], key, k) == if key(f) == k then [f] else [];
    assert |Entries(Entered(index, key(f), f.id), k)| != |after|;
    assert !ListsKey(Entered(index, key(f), f.id), a + [f] + b, key, k);
  }

  lemma SplitAt(facts: seq<Fact>, n: nat)
    requires n < |facts|
    ensures facts == facts[..n] + [facts[n]] + facts[n + 1..]
  {
  }

  lemma PutReplaces(claims: seq<Claim>, claim: Claim, n: nat)
    requires n == Place(claims, claim.fact.id) && n < |claims|
    ensures Facts(Put(claims, claim)) == Facts(claims)[..n] + [claim.fact] + Facts(claims)[n + 1..]
  {
    PutAtPlace(claims, claim);
    var before, after := Facts(claims), Facts(Put(claims, claim));
    forall i | 0 <= i < |before| ensures after[i] == (before[..n] + [claim.fact] + before[n + 1..])[i] {
      if i != n { assert Put(claims, claim)[i] == claims[i]; }
    }
  }

  lemma PutAppends(claims: seq<Claim>, claim: Claim)
    requires Place(claims, claim.fact.id) == |claims|
    ensures Facts(Put(claims, claim)) == Facts(claims) + [claim.fact]
  {
    PutAtPlace(claims, claim);
  }

  /** Adding a claim keeps an index right exactly if its id is new. */
  lemma IndexFollowsIfNew(index: Index, claims: seq<Claim>, claim: Claim, key: Fact -> string)
    requires ListsAll(index, Facts(claims), key)
    ensures ListsAll(Entered(index, key(claim.fact), claim.fact.id), Facts(Put(claims, claim)), key)
      <==> !Knows(Facts(claims), claim.fact.id)
  {
    var n, facts := Place(claims, claim.fact.id), Facts(claims);
    if n < |claims| {
      PutReplaces(claims, claim, n);
      SplitAt(facts, n);
      KnownIdBreaksIndex(index, facts[..n], facts[n], claim.fact, facts[n + 1..], key);
    } else {
      PutAppends(claims, claim);
      NewIdKeepsIndex(index, facts, claim.fact, key);
    }
  }

  /** The indexes list every claim under its subject and its document, in order. */
  ghost predicate BothList(bySubject: Index, byDocument: Index, claims: seq<Claim>) {
    ListsAll(bySubject, Facts(claims), SubjectOf()) && ListsAll(byDocument, Facts(claims), DocumentOf())
  }

  lemma BothFollowIfNew(bySubject: Index, byDocument: Index, claims: seq<Claim>, claim: Claim)
    requires BothList(bySubject, byDocument, claims)
    ensures !Knows(Facts(claims), claim.fact.id) <==>
      BothList(Entered(bySubject, claim.fact.subject, claim.fact.id),
        Entered(byDocument, claim.fact.document, claim.fact.id), Put(claims, claim))
  {
    IndexFollowsIfNew(bySubject, claims, claim, SubjectOf());
    IndexFollowsIfNew(byDocument, claims, claim, DocumentOf());
  }

  /** The claim with an id, if there is one. */
  method GetClaim(claims: seq<Claim>, id: string) returns (k: nat)
    ensures k == Place(claims, id)
  {
    k := 0;
    while k < |claims| && claims[k].fact.id != id
      invariant k <= |claims| && Place(claims, id) == k + Place(claims[k..], id)
    {
      assert claims[k..][1..] == claims[k + 1..];
      k := k + 1;
    }
    if k < |claims| { assert claims[k..][0] == claims[k]; }
  }

  /** The claim is found under its id. */
  ghost predicate Findable(claims: seq<Claim>, f: Fact) {
    Place(claims, f.id) < |claims| && claims[Place(claims, f.id)].fact == f
  }

  lemma MembersAreFindable(claims: seq<Claim>, key: Fact -> string, k: string)
    requires UniqueIds(claims)
    ensures forall f | f in Group(Facts(claims), key, k) :: Findable(claims, f)
  {
    GroupIsAbout(Facts(claims), key, k);
    forall f | f in Group(Facts(claims), key, k) ensures Findable(claims, f) {
      assert f in Facts(claims);
      var j :| 0 <= j < |claims| && Facts(claims)[j] == f;
      assert claims[j].fact == f;
    }
  }

  /** The claims stored under the ids, unknown ids passed over. */
  function StoredUnder(claims: seq<Claim>, ids: seq<string>): seq<Claim> {
    if ids == [] then []
    else
      var at := Place(claims, ids[|ids| - 1]);
      StoredUnder(claims, ids[..|ids| - 1]) + if at < |claims| then [claims[at]] else []
  }

  /** The loop over an index list. */
  method LookUp(claims: seq<Claim>, ids: seq<string>) returns (found: seq<Claim>)
    ensures found == StoredUnder(claims, ids)
  {
    found := [];
    for i := 0 to |ids|
      invariant found == StoredUnder(claims, ids[..i])
    {
      assert ids[..i + 1][..i] == ids[..i];
      var at := GetClaim(claims, ids[i]);
      if at < |claims| {
        found := found + [claims[at]];
      }
    }
    assert ids[..|ids|] == ids;
  }

  lemma {:induction false} FindableAreFound(claims: seq<Claim>, group: seq<Fact>)
    requires forall f | f in group :: Findable(claims, f)
    ensures Facts(StoredUnder(claims, IdsOf(group))) == group
  {
    if group != [] {
      var before, last := group[..|group| - 1], group[|group| - 1];
      assert last in group && IdsOf(group) == IdsOf(before) + [last.id];
      FindableAreFound(claims, before);
    }
  }

  /** The lookup through a right index finds exactly the claims with that key, in order. */
  lemma LookupIsGroup(claims: seq<Claim>, index: Index, key: Fact -> string, k: string)
    requires UniqueIds(claims) && ListsAll(index, Facts(claims), key)
    ensures Facts(StoredUnder(claims, Entries(index, k))) == Group(Facts(claims), key, k)
  {
    assert ListsKey(index, Facts(claims), key, k);
    MembersAreFindable(claims, key, k);
    FindableAreFound(claims, Group(Facts(claims), key, k));
  }
}
