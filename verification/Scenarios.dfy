/** `services/orchestrator/activities/pipeline.py`: the scenario generators. */
module Scenarios {
  import opened Common
  import opened RandomState

  // ----- values -----

  /** A declared action: a range, a list to choose from, or a fixed value. */
  datatype Spec = Range(lo: real, hi: real, isInt: bool) | Choices(options: seq<string>) | Fixed(value: string)

  datatype Param = Param(name: string, spec: Spec)

  datatype Value = Whole(i: int) | Float(x: real) | Given(s: string)

  /** Python's `round`: to the nearest integer, halves to the even one. */
  function Round(x: real): int {
    var below := x.Floor;
    var rest := x - below as real;
    if rest < 0.5 then below else if rest > 0.5 then below + 1 else if below % 2 == 0 then below else below + 1
  }

  lemma RoundIsMonotone(x: real, y: real)
    requires x <= y
    ensures Round(x) <= Round(y)
  {
    if x.Floor < y.Floor { assert x.Floor + 1 <= y.Floor; }
  }

  /** Clamped to the range, and rounded for an integer parameter. */
  function Coerce(spec: Spec, value: real): Value
    requires spec.Range?
  {
    var clamped := Clamp(spec.lo, spec.hi, value);
    if spec.isInt then Whole(Round(clamped)) else Float(clamped)
  }

  /** The same by name, so that rounding stays out of the statements about whole scenarios. */
  ghost function Coerced(spec: Spec, value: real): Value
    requires spec.Range?
  {
    assert IsCoercion(Coerce(spec, value), spec, value);
    var v :| IsCoercion(v, spec, value);
    v
  }

  predicate IsCoercion(v: Value, spec: Spec, value: real)
    requires spec.Range?
  {
    v == Coerce(spec, value)
  }

  lemma CoercedIs(spec: Spec, value: real)
    requires spec.Range?
    ensures Coerced(spec, value) == Coerce(spec, value)
  {
  }

  method CoerceValue(spec: Spec, value: real) returns (v: Value)
    requires spec.Range?
    ensures v == Coerced(spec, value)
  {
    v := Coerce(spec, value);
  }

  /** An integer parameter gets the integer nearest to the clamped value, of two the even one; any
      other parameter the clamped value itself. */
  lemma CoercedIsNearest(spec: Spec, value: real, i: int)
    requires spec.Range? && spec.lo <= spec.hi
    ensures var clamped := if value < spec.lo then spec.lo else if value > spec.hi then spec.hi else value;
      if spec.isInt then
        Coerce(spec, value) == Whole(i) <==>
          && -0.5 <= i as real - clamped <= 0.5
          && (i as real - clamped == 0.5 || i as real - clamped == -0.5 ==> i % 2 == 0)
      else Coerce(spec, value) == Float(clamped)
  {
  }

  function Magnitude(v: Value): real
    requires !v.Given?
  {
    if v.Whole? then v.i as real else v.x
  }

  predicate Allowed(spec: Spec, v: Value) {
    match spec
    case Range(lo, hi, isInt) => !v.Given? && (v.Whole? <==> isInt) && lo <= Magnitude(v) <= hi
    case Choices(options) => v.Given? && v.s in options
    case Fixed(value) => v == Given(value)
  }

  /** An integer range whose ends do not round out of it, as integral ends never do. */
  predicate Sound(spec: Spec) {
    spec.Range? && spec.lo <= spec.hi && (spec.isInt ==>
      Round(spec.lo) as real >= spec.lo && Round(spec.hi) as real <= spec.hi)
  }

  /** Coerced values stay in their range, whatever the raw value, exactly if the ends do. */
  lemma CoercedIsAllowedIfSound(spec: Spec)
    requires spec.Range? && spec.lo <= spec.hi
    ensures (forall value :: Allowed(spec, Coerce(spec, value))) <==> Sound(spec)
  {
    if Sound(spec) {
      forall value ensures Allowed(spec, Coerce(spec, value)) { CoercedIsAllowed(spec, value); }
    } else {
      assert !Allowed(spec, Coerce(spec, spec.lo)) || !Allowed(spec, Coerce(spec, spec.hi));
    }
  }

  lemma CoercedIsAllowed(spec: Spec, value: real)
    requires Sound(spec)
    ensures Allowed(spec, Coerce(spec, value))
  {
    var clamped := Clamp(spec.lo, spec.hi, value);
    RoundIsMonotone(spec.lo, clamped);
    RoundIsMonotone(clamped, spec.hi);
  }

  // ----- one scenario's actions -----

  datatype Strategy = Grid | LatinHypercube | Random | Boundary

  type Actions = map<string, Value>

  datatype Scenario = Scenario(strategy: Strategy, actions: Actions, seed: nat)

  ghost predicate DistinctNames(params: seq<Param>) {
    forall i, j | 0 <= i < j < |params| :: params[i].name != params[j].name
  }

  predicate Usable(spec: Spec) {
    match spec
    case Range(lo, hi, _) => lo <= hi
    case Choices(options) => options != []
    case Fixed(_) => true
  }

  /** What a caller declares: names once each, ranges that are not empty, lists with something to choose. */
  ghost predicate Declared(params: seq<Param>) { DistinctNames(params) && AllUsable(params) }

  ghost predicate AllUsable(params: seq<Param>) { forall k | 0 <= k < |params| :: Usable(params[k].spec) }

  ghost predicate IsCoerced(spec: Spec, v: Value)
    requires spec.Range?
  {
    exists raw :: v == Coerced(spec, raw)
  }

  /** What a generator may set a parameter to. */
  ghost predicate Fits(spec: Spec, v: Value) { if spec.Range? then IsCoerced(spec, v) else Allowed(spec, v) }

  ghost predicate Ok(p: Param, actions: Actions) { p.name in actions && Fits(p.spec, actions[p.name]) }

  /** Every declared parameter has a value that was coerced to its range or taken from its declaration. */
  ghost predicate AllOk(params: seq<Param>, actions: Actions) { forall k | 0 <= k < |params| :: Ok(params[k], actions) }

  /** The parameters with a range. */
  function Ranged(params: seq<Param>): seq<Param> {
    if params == [] then []
    else Ranged(params[..|params| - 1]) + if params[|params| - 1].spec.Range? then [params[|params| - 1]] else []
  }

  lemma {:induction false} RangedAre(params: seq<Param>)
    ensures forall p :: p in Ranged(params) <==> p in params && p.spec.Range?
    ensures DistinctNames(params) ==> DistinctNames(Ranged(params))
  {
    if params != [] {
      var before, last := params[..|params| - 1], params[|params| - 1];
      assert params == before + [last];
      RangedAre(before);
      if DistinctNames(params) {
        forall p | p in Ranged(before) ensures p.name != last.name {
          var i :| 0 <= i < |before| && before[i] == p;
          assert params[i].name != params[|before|].name;
        }
      }
    }
  }

  ghost predicate Mentions(params: seq<Param>, name: string) { exists k :: 0 <= k < |params| && params[k].name == name }

  /** The ranged parameters set to coerced raw values, and nothing else. */
  ghost predicate Sets(actions: Actions, ranged: seq<Param>, raw: nat -> real) {
    && (forall k | 0 <= k < |ranged| ::
      ranged[k].spec.Range? && ranged[k].name in actions && actions[ranged[k].name] == Coerced(ranged[k].spec, raw(k)))
    && forall name | name in actions :: Mentions(ranged, name)
  }

  ghost predicate SoundRanges(params: seq<Param>) {
    forall k | 0 <= k < |params| :: params[k].spec.Range? ==> Sound(params[k].spec)
  }

  ghost predicate AllowedIn(params: seq<Param>, actions: Actions) {
    forall k | 0 <= k < |params| :: params[k].name in actions && Allowed(params[k].spec, actions[params[k].name])
  }

  /** If no end of an integer range rounds out of it, every value is allowed. */
  lemma OkIsAllowed(params: seq<Param>, actions: Actions)
    requires AllOk(params, actions) && SoundRanges(params)
    ensures AllowedIn(params, actions)
  {
    forall k | 0 <= k < |params| ensures Allowed(params[k].spec, actions[params[k].name]) {
      assert Ok(params[k], actions);
      if params[k].spec.Range? {
        var raw :| actions[params[k].name] == Coerced(params[k].spec, raw);
        CoercedIs(params[k].spec, raw);
        CoercedIsAllowed(params[k].spec, raw);
      }
    }
  }

  method SetRanged(ranged: seq<Param>, raw: nat -> real) returns (actions: Actions)
    requires DistinctNames(ranged) && forall p | p in ranged :: p.spec.Range?
    ensures Sets(actions, ranged, raw)
  {
    actions := map[];
    for j := 0 to |ranged|
      invariant Sets(actions, ranged[..j], raw)
    {
      assert ranged[j] in ranged;
      var v := CoerceValue(ranged[j].spec, raw(j));
      actions := actions[ranged[j].name := v];
    }
    assert ranged[..|ranged|] == ranged;
  }

  method Choose(options: seq<string>, rng: Generator) returns (chosen: string)
    requires options != []
    modifies rng
    ensures rng.next == old(rng.next) + 1 && chosen == options[Pick(rng.tape(old(rng.next)), |options|)]
  {
    var k := rng.RandInt(|options|);
    chosen := options[k];
  }

  /** Ranged parameters have a coerced value; the others are still to be set. */
  ghost predicate HalfSet(params: seq<Param>, base: Actions) {
    forall k | 0 <= k < |params| :: if params[k].spec.Range? then Ok(params[k], base) else params[k].name !in base
  }

  /** How many lists there are among the first `n` parameters. */
  ghost function Lists(params: seq<Param>, n: nat): nat
    requires n <= |params|
  {
    if n == 0 then 0 else Lists(params, n - 1) + if params[n - 1].spec.Choices? then 1 else 0
  }

  /** The value that the draw at `at` takes from a list. */
  ghost predicate TakenAt(options: seq<string>, tape: nat -> Unit, at: nat, v: Value) {
    options != [] && v == Given(options[Pick(tape(at), |options|)])
  }

  /** Parameter `k` has a value and, unless it has a range, the declared one or the one drawn from its list. */
  ghost predicate FilledIn(params: seq<Param>, actions: Actions, tape: nat -> Unit, at: nat, k: nat)
    requires k < |params|
  {
    var p := params[k];
    && p.name in actions
    && match p.spec
       case Range(_, _, _) => true
       case Choices(options) => TakenAt(options, tape, at + Lists(params, k), actions[p.name])
       case Fixed(value) => actions[p.name] == Given(value)
  }

  /** Lists are drawn from in order, from `at` on. */
  ghost predicate Filled(params: seq<Param>, actions: Actions, tape: nat -> Unit, at: nat, n: nat)
    requires n <= |params|
  {
    forall k: nat | k < n :: FilledIn(params, actions, tape, at, k)
  }

  /** Adds the parameters without a range. */
  method Complete(params: seq<Param>, base: Actions, rng: Generator) returns (actions: Actions)
    requires Declared(params) && HalfSet(params, base)
    modifies rng
    ensures AllOk(params, actions) && forall name | name in base :: name in actions && actions[name] == base[name]
    ensures Filled(params, actions, rng.tape, old(rng.next), |params|)
    ensures rng.next == old(rng.next) + Lists(params, |params|)
  {
    actions := base;
    for k := 0 to |params|
      invariant rng.next == old(rng.next) + Lists(params, k)
      invariant Filled(params, actions, rng.tape, old(rng.next), k)
      invariant forall name | name in base :: name in actions && actions[name] == base[name]
      invariant forall i | 0 <= i < k :: Ok(params[i], actions)
      invariant forall i | k <= i < |params| :: params[i].name in actions <==> params[i].name in base
    {
      var p := params[k];
      assert p in params;
      ghost var before := actions;
      if p.name !in actions {
        if p.spec.Choices? {
          var chosen := Choose(p.spec.options, rng);
          actions := actions[p.name := Given(chosen)];
        } else {
          actions := actions[p.name := Given(p.spec.value)];
        }
      }
      StillFilled(params, before, actions, rng.tape, old(rng.next), k);
    }
  }

  lemma StillFilled(params: seq<Param>, before: Actions, after: Actions, tape: nat -> Unit, at: nat, n: nat)
    requires n < |params| && Filled(params, before, tape, at, n) && FilledIn(params, after, tape, at, n)
    requires forall name | name in before :: name in after && after[name] == before[name]
    ensures Filled(params, after, tape, at, n + 1)
  {
    forall k: nat | k <= n ensures FilledIn(params, after, tape, at, k) {
      if k < n { assert FilledIn(params, before, tape, at, k); }
    }
  }

  lemma {:induction false} NameIsNotRanged(params: seq<Param>, name: string)
    requires forall i | 0 <= i < |params| :: params[i].spec.Range? ==> params[i].name != name
    ensures !Mentions(Ranged(params), name)
  {
    if params != [] { NameIsNotRanged(params[..|params| - 1], name); }
  }

  lemma OthersAreNotRanged(params: seq<Param>, k: nat)
    requires DistinctNames(params) && k < |params| && !params[k].spec.Range?
    ensures !Mentions(Ranged(params), params[k].name)
  {
    forall i | 0 <= i < |params| && params[i].spec.Range? ensures params[i].name != params[k].name {
      assert i < k || k < i;
    }
    NameIsNotRanged(params, params[k].name);
  }

  lemma SetIsHalfSet(params: seq<Param>, actions: Actions, raw: nat -> real)
    requires Declared(params) && Sets(actions, Ranged(params), raw)
    ensures HalfSet(params, actions)
  {
    RangedAre(params);
    var ranged := Ranged(params);
    forall k | 0 <= k < |params|
      ensures if params[k].spec.Range? then Ok(params[k], actions) else params[k].name !in actions
    {
      assert params[k] in params;
      if params[k].spec.Range? {
        assert params[k] in ranged;
        var j :| 0 <= j < |ranged| && ranged[j] == params[k];
        assert actions[params[k].name] == Coerced(params[k].spec, raw(j));
      } else {
        OthersAreNotRanged(params, k);
      }
    }
  }

  /** The ranged parameters have the given raw values, coerced. */
  ghost predicate Has(actions: Actions, ranged: seq<Param>, raw: nat -> real) {
    forall k | 0 <= k < |ranged| ::
      ranged[k].spec.Range? && ranged[k].name in actions && actions[ranged[k].name] == Coerced(ranged[k].spec, raw(k))
  }

  /** The scenario is of the given kind and sets every parameter, the ranged ones to the given raw
      values, the others and the seed by the draws from `at` on. */
  ghost predicate Follows(s: Scenario, params: seq<Param>, strategy: Strategy, raw: nat -> real, tape: nat -> Unit,
      at: nat) {
    && s.strategy == strategy && AllOk(params, s.actions) && Has(s.actions, Ranged(params), raw)
    && Filled(params, s.actions, tape, at, |params|)
    && s.seed == Pick(tape(at + Lists(params, |params|)), 0x8000_0001)
  }

  /** How many draws a scenario takes whose ranged values are given. */
  ghost function Step(params: seq<Param>): nat { Lists(params, |params|) + 1 }

  /** Where the draws of item `k` start if those of the first start at `first`. */
  ghost function Start(first: nat, k: nat, step: nat): nat {
    assert IsStart(first + k * step, first, k, step);
    var start: nat :| IsStart(start, first, k, step);
    start
  }

  ghost predicate IsStart(start: nat, first: nat, k: nat, step: nat) { start == first + k * step }

  lemma StartsInTurn(first: nat, k: nat, step: nat)
    ensures Start(first, 0, step) == first && Start(first, k + 1, step) == Start(first, k, step) + step
  {
    assert IsStart(first, first, 0, step) && IsStart(first + (k + 1) * step, first, k + 1, step);
  }

  /** Each has its own raw values, and the draws behind those of the scenario before. */
  ghost predicate AllFollow(scenarios: seq<Scenario>, params: seq<Param>, strategy: Strategy, raws: nat -> nat -> real,
                            tape: nat -> Unit, first: nat) {
    forall k: nat | k < |scenarios| ::
      Follows(scenarios[k], params, strategy, raws(k), tape, Start(first, k, Step(params)))
  }

  lemma OneMoreFollows(scenarios: seq<Scenario>, s: Scenario, params: seq<Param>, strategy: Strategy,
                       raws: nat -> nat -> real, tape: nat -> Unit, first: nat)
    requires AllFollow(scenarios, params, strategy, raws, tape, first)
    requires Follows(s, params, strategy, raws(|scenarios|), tape, Start(first, |scenarios|, Step(params)))
    ensures AllFollow(scenarios + [s], params, strategy, raws, tape, first)
  {
  }

  method Emit(params: seq<Param>, strategy: Strategy, raw: nat -> real, rng: Generator) returns (s: Scenario)
    requires Declared(params)
    modifies rng
    ensures Follows(s, params, strategy, raw, rng.tape, old(rng.next)) && rng.next == old(rng.next) + Step(params)
  {
    RangedAre(params);
    var base := SetRanged(Ranged(params), raw);
    SetIsHalfSet(params, base, raw);
    var actions := Complete(params, base, rng);
    var seed := rng.RandInt(0x8000_0001);
    s := Scenario(strategy, actions, seed);
  }

  // ----- Latin hypercube -----

  ghost predicate IsPermutation(perm: seq<nat>) {
    && (forall i | 0 <= i < |perm| :: perm[i] < |perm|)
    && (forall i, j | 0 <= i < j < |perm| :: perm[i] != perm[j])
    && forall k: nat | k < |perm| :: k in perm
  }

  lemma SwapKeeps(perm: seq<nat>, i: nat, j: nat)
    requires IsPermutation(perm) && i < |perm| && j < |perm|
    ensures IsPermutation(Swapped(perm, i, j))
  {
    var after := Swapped(perm, i, j);
    forall k: nat | k < |perm| ensures k in after {
      assert k in perm;
      var at :| 0 <= at < |perm| && perm[at] == k;
      if at == i { assert after[j] == k; } else if at == j { assert after[i] == k; } else { assert after[at] == k; }
    }
  }

  function Swapped(perm: seq<nat>, i: nat, j: nat): (r: seq<nat>)
    requires i < |perm| && j < |perm|
    ensures |r| == |perm| && r[i] == perm[j] && r[j] == perm[i]
    ensures forall k | 0 <= k < |r| && k != i && k != j :: r[k] == perm[k]
  {
    perm[i := perm[j]][j := perm[i]]
  }

  /** From place `i` down to 1, each place is swapped with one drawn from those up to itself. */
  ghost function Shuffling(perm: seq<nat>, i: nat, tape: nat -> Unit, at: nat): (r: seq<nat>)
    requires i < |perm|
    ensures |r| == |perm|
    decreases i
  {
    if i == 0 then perm else Shuffling(Swapped(perm, i, Pick(tape(at), i + 1)), i - 1, tape, at + 1)
  }

  /** The same by name, so that a loop over it does not unfold it. */
  ghost function StillShuffled(perm: seq<nat>, i: nat, tape: nat -> Unit, at: nat): seq<nat>
    requires i < |perm|
  {
    var r :| r == Shuffling(perm, i, tape, at);
    r
  }

  lemma ShufflingOnce(perm: seq<nat>, after: seq<nat>, i: nat, j: nat, tape: nat -> Unit, at: nat)
    requires i + 1 < |perm| && j == Pick(tape(at), i + 2) && after == Swapped(perm, i + 1, j)
    ensures StillShuffled(after, i, tape, at + 1) == StillShuffled(perm, i + 1, tape, at)
  {
  }

  lemma NothingToShuffle(perm: seq<nat>, tape: nat -> Unit, at: nat)
    requires perm != []
    ensures StillShuffled(perm, 0, tape, at) == perm
  {
  }

  function Identity(n: nat): (r: seq<nat>)
    ensures |r| == n && forall k | 0 <= k < n :: r[k] == k
  {
    seq(n, i requires 0 <= i => i)
  }

  ghost function ShuffleAt(n: nat, tape: nat -> Unit, at: nat): (r: seq<nat>)
    ensures |r| == n
  {
    if n == 0 then [] else Shuffling(Identity(n), n - 1, tape, at)
  }

  /** The draws on the tape from `at` on. */
  ghost predicate Reads(tape: nat -> Unit, at: nat, draws: seq<Unit>) {
    forall k | 0 <= k < |draws| :: tape(at + k) == draws[k]
  }

  lemma ReadsOn(tape: nat -> Unit, at: nat, u: Unit, rest: seq<Unit>)
    requires Reads(tape, at, [u] + rest)
    ensures tape(at) == u && Reads(tape, at + 1, rest)
  {
    assert tape(at + 0) == ([u] + rest)[0];
    forall k | 0 <= k < |rest| ensures tape(at + 1 + k) == rest[k] {
      assert tape(at + (k + 1)) == ([u] + rest)[k + 1];
    }
  }

  lemma SwapRearranges(perm: seq<nat>, i: nat, j: nat)
    requires j <= i < |perm|
    ensures multiset(Swapped(perm, i, j)[..i]) + multiset{perm[j]} == multiset(perm[..i + 1])
  {
    var after, s := Swapped(perm, i, j), perm[..i + 1];
    assert after[..i + 1] == s[i := s[j]][j := s[i]];
    assert multiset(after[..i + 1]) == multiset(s);
    assert after[..i + 1] == after[..i] + [perm[j]];
  }

  lemma SameWithout(a: multiset<nat>, b: multiset<nat>, x: nat)
    requires a + multiset{x} == b + multiset{x}
    ensures a == b
  {
    assert a == (a + multiset{x}) - multiset{x} && b == (b + multiset{x}) - multiset{x};
  }

  lemma DrawOf(j: nat, n: nat) returns (u: Unit)
    requires j < n
    ensures Pick(u, n) == j
  {
    var x := j as real / n as real;
    assert x * n as real == j as real && 0.0 <= x < 1.0;
    u := x;
    OnlyOnePart(u, n, j as real);
  }

  lemma WhichToSwap(perm: seq<nat>, target: seq<nat>, i: nat) returns (j: nat)
    requires |perm| == |target| && i < |perm| && perm[i + 1..] == target[i + 1..]
    requires multiset(perm[..i + 1]) == multiset(target[..i + 1])
    ensures j <= i && multiset(Swapped(perm, i, j)[..i]) == multiset(target[..i])
    ensures Swapped(perm, i, j)[i..] == target[i..]
  {
    assert target[..i + 1] == target[..i] + [target[i]];
    assert target[i] in multiset(perm[..i + 1]);
    j :| 0 <= j <= i && perm[j] == target[i];
    var after := Swapped(perm, i, j);
    SwapRearranges(perm, i, j);
    SameWithout(multiset(after[..i]), multiset(target[..i]), target[i]);
    assert after[i + 1..] == perm[i + 1..];
    assert after[i..] == [after[i]] + after[i + 1..] && target[i..] == [target[i]] + target[i + 1..];
  }

  /** Whatever is rearranged in the places up to `i`, some draws lead to it. */
  lemma {:induction false} SomeDrawsReach(perm: seq<nat>, target: seq<nat>, i: nat) returns (draws: seq<Unit>)
    requires |perm| == |target| && i < |perm| && perm[i + 1..] == target[i + 1..]
    requires multiset(perm[..i + 1]) == multiset(target[..i + 1])
    ensures |draws| == i
    ensures forall tape: nat -> Unit, at: nat | Reads(tape, at, draws) :: Shuffling(perm, i, tape, at) == target
    decreases i
  {
    if i == 0 {
      assert perm[..1] == [perm[0]] && target[..1] == [target[0]];
      assert perm[0] in multiset(target[..1]);
      assert perm == perm[..1] + perm[1..] && target == target[..1] + target[1..];
      draws := [];
    } else {
      var j := WhichToSwap(perm, target, i);
      var u := DrawOf(j, i + 1);
      var after := Swapped(perm, i, j);
      var rest := SomeDrawsReach(after, target, i - 1);
      draws := [u] + rest;
      forall tape: nat -> Unit, at: nat | Reads(tape, at, draws) ensures Shuffling(perm, i, tape, at) == target {
        ReadsOn(tape, at, u, rest);
      }
    }
  }

  lemma PermutationRearranges(perm: seq<nat>)
    requires IsPermutation(perm)
    ensures multiset(perm) == multiset(Identity(|perm|))
  {
    var id := Identity(|perm|);
    forall x: nat ensures multiset(perm)[x] == multiset(id)[x] {
      OnceEach(perm, x);
      forall k: nat | k < |id| ensures k in id { assert id[k] == k; }
      OnceEach(id, x);
    }
  }

  lemma OnceEach(perm: seq<nat>, x: nat)
    requires IsPermutation(perm)
    ensures multiset(perm)[x] == if x < |perm| then 1 else 0
  {
    if x < |perm| {
      assert x in perm;
      var i :| 0 <= i < |perm| && perm[i] == x;
      assert perm == perm[..i] + [x] + perm[i + 1..];
      assert x !in perm[..i] && x !in perm[i + 1..];
    } else {
      assert x !in perm;
    }
  }

  /** Every arrangement is the shuffle of some tape. */
  lemma EveryShuffleHappens(target: seq<nat>) returns (draws: seq<Unit>)
    requires IsPermutation(target)
    ensures forall tape: nat -> Unit, at: nat | Reads(tape, at, draws) :: ShuffleAt(|target|, tape, at) == target
  {
    var n := |target|;
    if n == 0 {
      draws := [];
    } else {
      PermutationRearranges(target);
      var id := Identity(n);
      assert id[..n] == id && target[..n] == target;
      draws := SomeDrawsReach(id, target, n - 1);
    }
  }

  lemma {:induction false} ShufflingKeeps(perm: seq<nat>, i: nat, tape: nat -> Unit, at: nat)
    requires i < |perm| && IsPermutation(perm)
    ensures IsPermutation(Shuffling(perm, i, tape, at))
    decreases i
  {
    if i > 0 {
      var j := Pick(tape(at), i + 1);
      SwapKeeps(perm, i, j);
      ShufflingKeeps(Swapped(perm, i, j), i - 1, tape, at + 1);
    }
  }

  lemma ShuffleIsPermutation(n: nat, tape: nat -> Unit, at: nat)
    ensures IsPermutation(ShuffleAt(n, tape, at))
  {
    if n > 0 {
      forall k: nat | k < n ensures k in Identity(n) { assert Identity(n)[k] == k; }
      ShufflingKeeps(Identity(n), n - 1, tape, at);
    }
  }

  /** `rng.shuffle(list(range(n)))` */
  method Shuffled(n: nat, rng: Generator) returns (perm: seq<nat>)
    modifies rng
    ensures |perm| == n && IsPermutation(perm)
    ensures perm == ShuffleAt(n, rng.tape, old(rng.next))
    ensures rng.next == old(rng.next) + if n == 0 then 0 else n - 1
  {
    ShuffleIsPermutation(n, rng.tape, rng.next);
    perm := Identity(n);
    if n == 0 { return; }
    ghost var all := StillShuffled(perm, n - 1, rng.tape, rng.next);
    assert all == ShuffleAt(n, rng.tape, rng.next);
    for i := n - 1 downto 0
      invariant |perm| == n && StillShuffled(perm, i, rng.tape, rng.next) == all
      invariant rng.next == old(rng.next) + (n - 1 - i)
    {
      ghost var at, before := rng.next, perm;
      var j := rng.RandInt(i + 2);
      perm := Swapped(perm, i + 1, j);
      ShufflingOnce(before, perm, i, j, rng.tape, at);
    }
    NothingToShuffle(perm, rng.tape, rng.next);
  }

  /** `x` lies in stratum `k` of `n`. */
  predicate InStratum(x: real, k: nat, n: nat)
    requires n > 0
  {
    k as real / n as real <= x < (k + 1) as real / n as real
  }

  /** One sample of `s`, and only one, lies in stratum `k`. */
  ghost predicate OnlyOne(s: seq<real>, k: nat)
    requires s != []
  {
    exists i :: 0 <= i < |s| && InStratum(s[i], k, |s|) && forall j | 0 <= j < |s| && j != i :: !InStratum(s[j], k, |s|)
  }

  ghost predicate IsStratified(s: seq<real>) { s != [] ==> forall k: nat | k < |s| :: OnlyOne(s, k) }

  lemma DivideBelow(a: real, b: real, n: real)
    requires n > 0.0
    ensures a / n <= b / n <==> a <= b
    ensures a / n < b / n <==> a < b
  {
    assert a == (a / n) * n && b == (b / n) * n;
  }

  /** The draw keeps the sample inside the stratum its permutation entry names. */
  lemma InItsStratum(p: nat, u: real, k: nat, n: nat)
    requires n > 0 && 0.0 <= u < 1.0
    ensures InStratum((p as real + u) / n as real, k, n) <==> p == k
  {
    DivideBelow(k as real, p as real + u, n as real);
    DivideBelow(p as real + u, (k + 1) as real, n as real);
  }

  lemma StratifiedByPermutation(s: seq<real>, perm: seq<nat>, draws: seq<real>)
    requires |s| == |perm| == |draws| && IsPermutation(perm)
    requires forall i | 0 <= i < |s| :: 0.0 <= draws[i] < 1.0 && s[i] == (perm[i] as real + draws[i]) / |s| as real
    ensures IsStratified(s)
  {
    forall k: nat | s != [] && k < |s| ensures OnlyOne(s, k) {
      assert k in perm;
      var i :| 0 <= i < |perm| && perm[i] == k;
      forall j | 0 <= j < |s| ensures InStratum(s[j], k, |s|) <==> j == i {
        InItsStratum(perm[j], draws[j], k, |s|);
      }
    }
  }

  /** How many draws the samples of one dimension take. */
  ghost function SampleDraws(count: nat): nat { if count == 0 then 0 else 2 * count - 1 }

  /** A shuffle of the strata, each with a draw inside it. */
  ghost predicate SampledAt(s: seq<real>, tape: nat -> Unit, at: nat) {
    var perm := ShuffleAt(|s|, tape, at);
    forall i | 0 <= i < |s| :: s[i] == (perm[i] as real + tape(at + |s| - 1 + i)) / |s| as real
  }

  /** One dimension's samples: for any shuffle and any draws, one in each stratum. */
  method StratifiedSamples(count: nat, rng: Generator) returns (samples: seq<real>)
    modifies rng
    ensures |samples| == count && IsStratified(samples) && SampledAt(samples, rng.tape, old(rng.next))
    ensures rng.next == old(rng.next) + SampleDraws(count)
  {
    var perm := Shuffled(count, rng);
    samples := [];
    ghost var draws: seq<real> := [];
    ghost var first := rng.next;
    for i := 0 to count
      invariant |samples| == |draws| == i && rng.next == first + i
      invariant forall k | 0 <= k < i ::
        draws[k] == rng.tape(first + k) && samples[k] == (perm[k] as real + draws[k]) / count as real
    {
      var u := rng.Random();
      samples, draws := samples + [(perm[i] as real + u) / count as real], draws + [u];
    }
    StratifiedByPermutation(samples, perm, draws);
    assert |samples| > 0 ==> first == old(rng.next) + |samples| - 1;
  }

  /** Every dimension is stratified, each with the draws behind those of the one before. */
  ghost predicate AllSampled(samples: seq<seq<real>>, count: nat, tape: nat -> Unit, first: nat) {
    forall j: nat | j < |samples| ::
      && |samples[j]| == count && IsStratified(samples[j])
      && SampledAt(samples[j], tape, Start(first, j, SampleDraws(count)))
  }

  /** The raw value of the `j`-th ranged parameter in scenario `i`. */
  function Point(ranged: seq<Param>, samples: seq<seq<real>>, i: nat): nat -> real {
    (j: nat) =>
      if j < |ranged| && j < |samples| && i < |samples[j]| && ranged[j].spec.Range? then
        ranged[j].spec.lo + samples[j][i] * (ranged[j].spec.hi - ranged[j].spec.lo)
      else 0.0
  }

  lemma OneMoreSampled(samples: seq<seq<real>>, one: seq<real>, count: nat, tape: nat -> Unit, first: nat)
    requires AllSampled(samples, count, tape, first) && |one| == count && IsStratified(one)
    requires SampledAt(one, tape, Start(first, |samples|, SampleDraws(count)))
    ensures AllSampled(samples + [one], count, tape, first)
  {
  }

  ghost function Points(ranged: seq<Param>, samples: seq<seq<real>>): nat -> nat -> real {
    (i: nat) => Point(ranged, samples, i)
  }

  /** A sample in stratum `k` of `n` becomes a value in slice `k` of the range cut into `n`. */
  lemma PointIsInSlice(ranged: seq<Param>, samples: seq<seq<real>>, i: nat, j: nat, k: nat, n: nat)
    requires j < |ranged| && j < |samples| && i < |samples[j]| && n > 0 && InStratum(samples[j][i], k, n)
    requires ranged[j].spec.Range? && ranged[j].spec.lo < ranged[j].spec.hi
    ensures var lo, width := ranged[j].spec.lo, ranged[j].spec.hi - ranged[j].spec.lo;
      lo + k as real / n as real * width <= Point(ranged, samples, i)(j) < lo + (k + 1) as real / n as real * width
  {
    var width, s := ranged[j].spec.hi - ranged[j].spec.lo, samples[j][i];
    StrictlyScaled(width, s, (k + 1) as real / n as real);
    ScaledUp(width, k as real / n as real, s);
  }

  lemma StrictlyScaled(width: real, x: real, y: real)
    requires width > 0.0 && x < y
    ensures x * width < y * width
  {
    var d := y - x;
    assert d * width > 0.0 && d * width == y * width - x * width;
  }

  lemma ScaledUp(width: real, x: real, y: real)
    requires width > 0.0 && x <= y
    ensures x * width <= y * width
  {
    if x < y { StrictlyScaled(width, x, y); }
  }

  /** Every dimension is stratified; scenario `i` takes sample `i` of every dimension. */
  method GenerateLhs(params: seq<Param>, rng: Generator, count: nat)
    returns (scenarios: seq<Scenario>, samples: seq<seq<real>>)
    requires Declared(params)
    modifies rng
    ensures |scenarios| == (if Ranged(params) == [] then 0 else count) && |samples| == |Ranged(params)|
    ensures AllSampled(samples, count, rng.tape, old(rng.next))
    ensures var first := Start(old(rng.next), |samples|, SampleDraws(count));
      && AllFollow(scenarios, params, LatinHypercube, Points(Ranged(params), samples), rng.tape, first)
      && rng.next == Start(first, |scenarios|, Step(params))
  {
    scenarios, samples := [], [];
    var ranged := Ranged(params);
    if ranged == [] {
      StartsInTurn(rng.next, 0, SampleDraws(count));
      StartsInTurn(rng.next, 0, Step(params));
      return;
    }
    StartsInTurn(rng.next, 0, SampleDraws(count));
    for dim := 0 to |ranged|
      invariant |samples| == dim && AllSampled(samples, count, rng.tape, old(rng.next))
      invariant rng.next == Start(old(rng.next), dim, SampleDraws(count))
    {
      var one := StratifiedSamples(count, rng);
      StartsInTurn(old(rng.next), dim, SampleDraws(count));
      OneMoreSampled(samples, one, count, rng.tape, old(rng.next));
      samples := samples + [one];
    }
    ghost var first := rng.next;
    StartsInTurn(first, 0, Step(params));
    for i := 0 to count
      invariant |scenarios| == i && rng.next == Start(first, i, Step(params))
      invariant AllFollow(scenarios, params, LatinHypercube, Points(ranged, samples), rng.tape, first)
    {
      var s := Emit(params, LatinHypercube, Point(ranged, samples, i), rng);
      StartsInTurn(first, i, Step(params));
      OneMoreFollows(scenarios, s, params, LatinHypercube, Points(ranged, samples), rng.tape, first);
      scenarios := scenarios + [s];
    }
  }

  // ----- the other generators -----

  /** Every tuple continued by `0`, `1`, up to below `base`. */
  function Continued(shorter: seq<seq<nat>>, base: nat): (r: seq<seq<nat>>)
    ensures |r| == |shorter| * base
  {
    if shorter == [] then []
    else
      var last := shorter[|shorter| - 1];
      Continued(shorter[..|shorter| - 1], base) + seq(base, v requires 0 <= v => last + [v])
  }

  /** Index tuples in the order of `itertools.product`: the last place varies fastest. */
  function Tuples(places: nat, base: nat): seq<seq<nat>> {
    if places == 0 then [[]] else Continued(Tuples(places - 1, base), base)
  }

  function Power(b: nat, n: nat): nat { if n == 0 then 1 else Power(b, n - 1) * b }

  lemma {:induction false} TupleCount(places: nat, base: nat)
    ensures |Tuples(places, base)| == Power(base, places)
  {
    if places > 0 { TupleCount(places - 1, base); }
  }

  /** A tuple read as a number, the last place counting ones. */
  function Rank(t: seq<nat>, base: nat): nat { if t == [] then 0 else Rank(t[..|t| - 1], base) * base + t[|t| - 1] }

  predicate IsTuple(t: seq<nat>, places: nat, base: nat) { |t| == places && forall i | 0 <= i < |t| :: t[i] < base }

  lemma PlaceFits(a: nat, n: nat, v: nat, base: nat)
    requires a < n && v < base
    ensures a * base + v < n * base
  {
    var d: nat := n - a - 1;
    assert (a + 1 + d) * base == a * base + base + d * base;
  }

  lemma {:induction false} ContinuedAt(shorter: seq<seq<nat>>, base: nat, a: nat, v: nat)
    requires a < |shorter| && v < base
    ensures a * base + v < |shorter| * base && Continued(shorter, base)[a * base + v] == shorter[a] + [v]
  {
    var rest := shorter[..|shorter| - 1];
    PlaceFits(a, |shorter|, v, base);
    if a < |rest| {
      ContinuedAt(rest, base, a, v);
    } else {
      assert |Continued(rest, base)| == a * base;
    }
  }

  lemma Digits(k: nat, n: nat, base: nat) returns (front: nat, last: nat)
    requires k < n * base
    ensures front < n && last < base && k == front * base + last
  {
    front, last := k / base, k % base;
    assert front * base < n * base;
  }

  /** The `k`-th tuple is the one that reads `k`, so no tuple is listed twice. */
  lemma {:induction false} TupleAt(places: nat, base: nat, k: nat)
    requires k < |Tuples(places, base)|
    ensures IsTuple(Tuples(places, base)[k], places, base) && Rank(Tuples(places, base)[k], base) == k
  {
    if places > 0 {
      var shorter := Tuples(places - 1, base);
      var front, last := Digits(k, |shorter|, base);
      TupleAt(places - 1, base, front);
      ContinuedAt(shorter, base, front, last);
      assert (shorter[front] + [last])[..places - 1] == shorter[front];
    }
  }

  /** And every tuple is listed, at the place that it reads. */
  lemma {:induction false} TupleIsListed(t: seq<nat>, base: nat)
    requires IsTuple(t, |t|, base)
    ensures Rank(t, base) < |Tuples(|t|, base)| && Tuples(|t|, base)[Rank(t, base)] == t
  {
    if t != [] {
      var before, last := t[..|t| - 1], t[|t| - 1];
      TupleIsListed(before, base);
      ContinuedAt(Tuples(|before|, base), base, Rank(before, base), last);
      assert before + [last] == t;
    }
  }

  /** Grid value `i` of `points`, from one end of the range to the other. */
  function GridPoint(ranged: seq<Param>, tuple: seq<nat>, points: nat): nat -> real
    requires points >= 2
  {
    (j: nat) =>
      if j < |ranged| && j < |tuple| && ranged[j].spec.Range? then
        ranged[j].spec.lo + tuple[j] as real * (ranged[j].spec.hi - ranged[j].spec.lo) / (points - 1) as real
      else 0.0
  }

  /** A grid value is as many equal steps from the lower end as the index says, the last index being
      the upper end. */
  lemma GridIsEven(ranged: seq<Param>, tuple: seq<nat>, points: nat, j: nat)
    requires points >= 2 && j < |ranged| && j < |tuple| && ranged[j].spec.Range?
    ensures var lo, hi, x := ranged[j].spec.lo, ranged[j].spec.hi, GridPoint(ranged, tuple, points)(j);
      && (tuple[j] == 0 ==> x == lo) && (tuple[j] == points - 1 ==> x == hi)
      && (x - lo) * (points - 1) as real == (hi - lo) * tuple[j] as real
  {
    var lo, hi, d := ranged[j].spec.lo, ranged[j].spec.hi, (points - 1) as real;
    var q := tuple[j] as real * (hi - lo) / d;
    assert q * d == tuple[j] as real * (hi - lo);
    if tuple[j] == points - 1 { assert (q - (hi - lo)) * d == 0.0; }
  }

  /** The raw values of the grid: those of the index tuples in order. */
  ghost function GridRaws(ranged: seq<Param>, points: nat): nat -> nat -> real
    requires points >= 2
  {
    (k: nat) => if k < |Tuples(|ranged|, points)| then GridPoint(ranged, Tuples(|ranged|, points)[k], points)
                else (j: nat) => 0.0
  }

  /** `root` stands for the truncated `count ** (1 / dimensions)`. */
  method GenerateGrid(params: seq<Param>, rng: Generator, count: nat, root: nat) returns (scenarios: seq<Scenario>)
    requires Declared(params)
    modifies rng
    ensures var points := if root > 2 then root else 2;
      && (|scenarios| == if Ranged(params) == [] then 0
                         else if Power(points, |Ranged(params)|) < count then Power(points, |Ranged(params)|)
                         else count)
      && AllFollow(scenarios, params, Grid, GridRaws(Ranged(params), points), rng.tape, old(rng.next))
      && |scenarios| <= |Tuples(|Ranged(params)|, points)|
    ensures rng.next == Start(old(rng.next), |scenarios|, Step(params))
  {
    scenarios := [];
    var ranged := Ranged(params);
    if ranged == [] {
      StartsInTurn(rng.next, 0, Step(params));
      return;
    }
    var pointsPerDim := if root > 2 then root else 2;
    var allCombos := Tuples(|ranged|, pointsPerDim);
    TupleCount(|ranged|, pointsPerDim);
    var selected := if |allCombos| < count then allCombos else allCombos[..count];
    StartsInTurn(rng.next, 0, Step(params));
    for k := 0 to |selected|
      invariant |scenarios| == k && rng.next == Start(old(rng.next), k, Step(params))
      invariant AllFollow(scenarios, params, Grid, GridRaws(ranged, pointsPerDim), rng.tape, old(rng.next))
    {
      var s := Emit(params, Grid, GridPoint(ranged, selected[k], pointsPerDim), rng);
      StartsInTurn(old(rng.next), k, Step(params));
      OneMoreFollows(scenarios, s, params, Grid, GridRaws(ranged, pointsPerDim), rng.tape, old(rng.next));
      scenarios := scenarios + [s];
    }
  }

  /** Python's `int`: truncation towards zero. */
  function Truncated(x: real): int { if x >= 0.0 then x.Floor else -((-x).Floor) }

  lemma TruncatedMeans(x: real)
    ensures x >= 0.0 ==> Truncated(x) as real <= x < Truncated(x) as real + 1.0
    ensures x < 0.0 ==> Truncated(x) as real - 1.0 < x <= Truncated(x) as real
  {
  }

  lemma TruncatedIsMonotone(x: real, y: real)
    requires x <= y
    ensures Truncated(x) <= Truncated(y)
  {
  }

  /** The raw value that a draw takes from a range: for an integer one of those between the truncated
      ends, each for an equal part of the unit interval. */
  ghost predicate IsRandomRaw(raw: real, spec: Spec, u: Unit)
    requires spec.Range? && spec.lo <= spec.hi
  {
    TruncatedIsMonotone(spec.lo, spec.hi);
    if spec.isInt then
      var first, last := Truncated(spec.lo), Truncated(spec.hi);
      raw == (first + Pick(u, last - first + 1)) as real
    else raw == Stretched(spec.lo, spec.hi, u)
  }

  ghost function RandomRaw(spec: Spec, u: Unit): real
    requires spec.Range? && spec.lo <= spec.hi
  {
    RandomRawExists(spec, u);
    var raw :| IsRandomRaw(raw, spec, u);
    raw
  }

  lemma RandomRawExists(spec: Spec, u: Unit)
    requires spec.Range? && spec.lo <= spec.hi
    ensures exists raw :: IsRandomRaw(raw, spec, u)
  {
    TruncatedIsMonotone(spec.lo, spec.hi);
    if spec.isInt {
      var first, last := Truncated(spec.lo), Truncated(spec.hi);
      assert IsRandomRaw((first + Pick(u, last - first + 1)) as real, spec, u);
    } else {
      assert IsRandomRaw(Stretched(spec.lo, spec.hi, u), spec, u);
    }
  }

  lemma RandomRawIs(spec: Spec, u: Unit, raw: real)
    requires spec.Range? && spec.lo <= spec.hi && IsRandomRaw(raw, spec, u)
    ensures RandomRaw(spec, u) == raw
  {
    RandomRawExists(spec, u);
  }

  /** The value of a parameter of a random scenario, by one draw. */
  ghost predicate IsDrawn(v: Value, spec: Spec, u: Unit)
    requires Usable(spec)
  {
    match spec
    case Range(_, _, _) => v == Coerced(spec, RandomRaw(spec, u))
    case Choices(options) => v == Given(options[Pick(u, |options|)])
    case Fixed(value) => v == Given(value)
  }

  ghost function Drawn(spec: Spec, u: Unit): Value
    requires Usable(spec)
  {
    DrawnExists(spec, u);
    var v :| IsDrawn(v, spec, u);
    v
  }

  lemma DrawnExists(spec: Spec, u: Unit)
    requires Usable(spec)
    ensures exists v :: IsDrawn(v, spec, u)
  {
    match spec
    case Range(_, _, _) => assert IsDrawn(Coerced(spec, RandomRaw(spec, u)), spec, u);
    case Choices(options) => assert IsDrawn(Given(options[Pick(u, |options|)]), spec, u);
    case Fixed(value) => assert IsDrawn(Given(value), spec, u);
  }

  lemma DrawnIs(v: Value, spec: Spec, u: Unit)
    requires Usable(spec) && IsDrawn(v, spec, u)
    ensures v == Drawn(spec, u)
  {
    DrawnExists(spec, u);
  }

  lemma DrawnFits(spec: Spec, u: Unit)
    requires Usable(spec)
    ensures Fits(spec, Drawn(spec, u))
  {
    DrawnExists(spec, u);
  }

  ghost function RandomDraws(spec: Spec): nat { if spec.Fixed? then 0 else 1 }

  method RandomValue(p: Param, rng: Generator) returns (v: Value)
    requires Usable(p.spec)
    modifies rng
    ensures v == Drawn(p.spec, rng.tape(old(rng.next))) && rng.next == old(rng.next) + RandomDraws(p.spec)
  {
    match p.spec {
      case Range(lo, hi, isInt) =>
        var raw := RandomNumber(p.spec, rng);
        v := CoerceValue(p.spec, raw);
      case Choices(options) =>
        var chosen := Choose(options, rng);
        v := Given(chosen);
      case Fixed(value) =>
        v := Given(value);
    }
    DrawnIs(v, p.spec, rng.tape(old(rng.next)));
  }

  method RandomNumber(spec: Spec, rng: Generator) returns (raw: real)
    requires spec.Range? && spec.lo <= spec.hi
    modifies rng
    ensures raw == RandomRaw(spec, rng.tape(old(rng.next))) && rng.next == old(rng.next) + 1
  {
    TruncatedIsMonotone(spec.lo, spec.hi);
    if spec.isInt {
      var k := rng.RandInt(Truncated(spec.hi) - Truncated(spec.lo) + 1);
      raw := (Truncated(spec.lo) + k) as real;
    } else {
      raw := rng.Uniform(spec.lo, spec.hi);
    }
    RandomRawIs(spec, rng.tape(old(rng.next)), raw);
  }

  ghost function DrawsBefore(params: seq<Param>, n: nat): nat
    requires n <= |params|
  {
    if n == 0 then 0 else DrawsBefore(params, n - 1) + RandomDraws(params[n - 1].spec)
  }

  /** The first `n` parameters have values drawn in order, from `at` on. */
  ghost predicate RandomUpTo(params: seq<Param>, actions: Actions, tape: nat -> Unit, at: nat, n: nat)
    requires n <= |params| && AllUsable(params)
  {
    forall k: nat | k < n :: RandomAt(params, actions, tape, at, k)
  }

  ghost predicate RandomAt(params: seq<Param>, actions: Actions, tape: nat -> Unit, at: nat, k: nat)
    requires k < |params| && AllUsable(params)
  {
    && params[k].name in actions
    && actions[params[k].name] == Drawn(params[k].spec, tape(at + DrawsBefore(params, k)))
  }

  method RandomActions(params: seq<Param>, rng: Generator) returns (actions: Actions)
    requires Declared(params)
    modifies rng
    ensures RandomUpTo(params, actions, rng.tape, old(rng.next), |params|)
    ensures rng.next == old(rng.next) + DrawsBefore(params, |params|)
  {
    actions := map[];
    for k := 0 to |params|
      invariant RandomUpTo(params, actions, rng.tape, old(rng.next), k)
      invariant rng.next == old(rng.next) + DrawsBefore(params, k)
      invariant forall i | k <= i < |params| :: params[i].name !in actions
    {
      var v := RandomValue(params[k], rng);
      ghost var before := actions;
      actions := actions[params[k].name := v];
      StillRandom(params, before, actions, rng.tape, old(rng.next), k);
    }
  }

  lemma StillRandom(params: seq<Param>, before: Actions, after: Actions, tape: nat -> Unit, at: nat, n: nat)
    requires AllUsable(params) && n < |params| && RandomUpTo(params, before, tape, at, n)
    requires RandomAt(params, after, tape, at, n)
    requires forall name | name in before :: name in after && after[name] == before[name]
    ensures RandomUpTo(params, after, tape, at, n + 1)
  {
    forall k: nat | k <= n ensures RandomAt(params, after, tape, at, k) {
      if k < n { assert RandomAt(params, before, tape, at, k); }
    }
  }

  lemma OneMoreRandom(scenarios: seq<Scenario>, s: Scenario, params: seq<Param>, tape: nat -> Unit, first: nat)
    requires AllUsable(params) && AllRandom(scenarios, params, tape, first)
    requires IsRandom(s, params, tape, Start(first, |scenarios|, RandomStep(params)))
    ensures AllRandom(scenarios + [s], params, tape, first)
  {
  }

  lemma RandomIsOk(params: seq<Param>, actions: Actions, tape: nat -> Unit, at: nat)
    requires AllUsable(params) && RandomUpTo(params, actions, tape, at, |params|)
    ensures AllOk(params, actions)
  {
    forall k: nat | k < |params| ensures Ok(params[k], actions) {
      assert RandomAt(params, actions, tape, at, k);
      DrawnFits(params[k].spec, tape(at + DrawsBefore(params, k)));
    }
  }

  /** A random scenario, by the draws from `at` on. */
  ghost predicate IsRandom(s: Scenario, params: seq<Param>, tape: nat -> Unit, at: nat)
    requires AllUsable(params)
  {
    && s.strategy == Random && RandomUpTo(params, s.actions, tape, at, |params|)
    && s.seed == Pick(tape(at + DrawsBefore(params, |params|)), 0x8000_0001)
  }

  ghost function RandomStep(params: seq<Param>): nat { DrawsBefore(params, |params|) + 1 }

  ghost predicate AllRandom(scenarios: seq<Scenario>, params: seq<Param>, tape: nat -> Unit, first: nat)
    requires AllUsable(params)
  {
    forall k: nat | k < |scenarios| :: IsRandom(scenarios[k], params, tape, Start(first, k, RandomStep(params)))
  }

  method EmitRandom(params: seq<Param>, rng: Generator) returns (s: Scenario)
    requires Declared(params)
    modifies rng
    ensures IsRandom(s, params, rng.tape, old(rng.next)) && rng.next == old(rng.next) + RandomStep(params)
  {
    var actions := RandomActions(params, rng);
    var seed := rng.RandInt(0x8000_0001);
    s := Scenario(Random, actions, seed);
  }

  method GenerateRandom(params: seq<Param>, rng: Generator, count: nat) returns (scenarios: seq<Scenario>)
    requires Declared(params)
    modifies rng
    ensures |scenarios| == count && AllRandom(scenarios, params, rng.tape, old(rng.next))
    ensures rng.next == Start(old(rng.next), count, RandomStep(params))
  {
    scenarios := [];
    StartsInTurn(rng.next, 0, RandomStep(params));
    for i := 0 to count
      invariant |scenarios| == i && AllRandom(scenarios, params, rng.tape, old(rng.next))
      invariant rng.next == Start(old(rng.next), i, RandomStep(params))
    {
      var s := EmitRandom(params, rng);
      StartsInTurn(old(rng.next), i, RandomStep(params));
      OneMoreRandom(scenarios, s, params, rng.tape, old(rng.next));
      scenarios := scenarios + [s];
    }
  }

  /** The lower end, the upper end, the middle, in turn. */
  function Extreme(ranged: seq<Param>, i: nat): nat -> real {
    (j: nat) =>
      if j < |ranged| && ranged[j].spec.Range? then
        if i % 3 == 0 then ranged[j].spec.lo else if i % 3 == 1 then ranged[j].spec.hi
          else (ranged[j].spec.lo + ranged[j].spec.hi) / 2.0
      else 0.0
  }

  lemma ExtremesTakeTurns(ranged: seq<Param>, k: nat, j: nat)
    requires j < |ranged| && ranged[j].spec.Range?
    ensures Extreme(ranged, 3 * k)(j) == ranged[j].spec.lo && Extreme(ranged, 3 * k + 1)(j) == ranged[j].spec.hi
    ensures 2.0 * Extreme(ranged, 3 * k + 2)(j) == ranged[j].spec.lo + ranged[j].spec.hi
  {
  }

  ghost function Extremes(ranged: seq<Param>): nat -> nat -> real { (i: nat) => Extreme(ranged, i) }

  method GenerateBoundary(params: seq<Param>, rng: Generator, count: nat) returns (scenarios: seq<Scenario>)
    requires Declared(params)
    modifies rng
    ensures |scenarios| == if Ranged(params) == [] then 0 else count
    ensures AllFollow(scenarios, params, Boundary, Extremes(Ranged(params)), rng.tape, old(rng.next))
  {
    scenarios := [];
    if Ranged(params) == [] {
      return;
    }
    StartsInTurn(rng.next, 0, Step(params));
    for i := 0 to count
      invariant |scenarios| == i && rng.next == Start(old(rng.next), i, Step(params))
      invariant AllFollow(scenarios, params, Boundary, Extremes(Ranged(params)), rng.tape, old(rng.next))
    {
      var s := Emit(params, Boundary, Extreme(Ranged(params), i), rng);
      StartsInTurn(old(rng.next), i, Step(params));
      OneMoreFollows(scenarios, s, params, Boundary, Extremes(Ranged(params)), rng.tape, old(rng.next));
      scenarios := scenarios + [s];
    }
  }

  // ----- the whole budget -----

  function Larger(a: nat, b: nat): (r: nat)
    ensures r >= a && r >= b && (r == a || r == b)
  {
    if a < b then b else a
  }

  function Smaller(a: nat, b: nat): (r: nat)
    ensures r <= a && r <= b && (r == a || r == b)
  {
    if a < b then a else b
  }

  /** What each generator contributes, and where its draws start. */
  datatype Layout = Layout(grid: seq<Scenario>, lhs: seq<Scenario>, random: seq<Scenario>, boundary: seq<Scenario>,
                           samples: seq<seq<real>>,
                           gridAt: nat, samplesAt: nat, lhsAt: nat, randomAt: nat, boundaryAt: nat)

  /** Each part is as its generator makes it. */
  ghost predicate AsGenerated(y: Layout, params: seq<Param>, points: nat, tape: nat -> Unit)
    requires AllUsable(params) && points >= 2
  {
    var ranged := Ranged(params);
    && AllFollow(y.grid, params, Grid, GridRaws(ranged, points), tape, y.gridAt)
    && |y.samples| == |ranged| && AllSampled(y.samples, |y.lhs|, tape, y.samplesAt)
    && AllFollow(y.lhs, params, LatinHypercube, Points(ranged, y.samples), tape, y.lhsAt)
    && AllRandom(y.random, params, tape, y.randomAt)
    && AllFollow(y.boundary, params, Boundary, Extremes(ranged), tape, y.boundaryAt)
  }

  /** First the grid's scenarios, then those of the hypercube, then random ones, then boundary ones. */
  function InOrder(y: Layout): seq<Scenario> { y.grid + y.lhs + y.random + y.boundary }

  lemma FollowingIsOk(scenarios: seq<Scenario>, params: seq<Param>, strategy: Strategy, raws: nat -> nat -> real,
                      tape: nat -> Unit, first: nat, s: Scenario)
    requires AllFollow(scenarios, params, strategy, raws, tape, first) && s in scenarios
    ensures AllOk(params, s.actions)
  {
    var k: nat :| k < |scenarios| && scenarios[k] == s;
    assert Follows(scenarios[k], params, strategy, raws(k), tape, Start(first, k, Step(params)));
  }

  lemma AllAllowed(y: Layout, params: seq<Param>, points: nat, tape: nat -> Unit)
    requires AllUsable(params) && points >= 2 && AsGenerated(y, params, points, tape) && SoundRanges(params)
    ensures forall s | s in InOrder(y) :: AllowedIn(params, s.actions)
  {
    forall s | s in InOrder(y) ensures AllowedIn(params, s.actions) {
      var ranged := Ranged(params);
      if s in y.grid {
        FollowingIsOk(y.grid, params, Grid, GridRaws(ranged, points), tape, y.gridAt, s);
      } else if s in y.lhs {
        FollowingIsOk(y.lhs, params, LatinHypercube, Points(ranged, y.samples), tape, y.lhsAt, s);
      } else if s in y.random {
        var k: nat :| k < |y.random| && y.random[k] == s;
        assert IsRandom(s, params, tape, Start(y.randomAt, k, RandomStep(params)));
        RandomIsOk(params, s.actions, tape, Start(y.randomAt, k, RandomStep(params)));
      } else {
        FollowingIsOk(y.boundary, params, Boundary, Extremes(ranged), tape, y.boundaryAt, s);
      }
      OkIsAllowed(params, s.actions);
    }
  }

  lemma FirstAreRandom(random: seq<Scenario>, n: nat, params: seq<Param>, tape: nat -> Unit, first: nat)
    requires AllUsable(params) && n <= |random| && AllRandom(random, params, tape, first)
    ensures AllRandom(random[..n], params, tape, first)
  {
  }

  /** The draws of each part start where those of the part before end. The boundary scenarios are drawn
      behind all random ones, of which they then take the places of the last. */
  ghost predicate InTurn(y: Layout, params: seq<Param>, first: nat)
    requires AllUsable(params)
  {
    && y.gridAt == first
    && y.samplesAt == Start(y.gridAt, |y.grid|, Step(params))
    && y.lhsAt == Start(y.samplesAt, |Ranged(params)|, SampleDraws(|y.lhs|))
    && y.randomAt == Start(y.lhsAt, |y.lhs|, Step(params))
    && y.boundaryAt == Start(y.randomAt, |y.random| + |y.boundary|, RandomStep(params))
  }

  /** How many points the whole grid has: the points per dimension to the power of the dimensions. */
  function GridSize(params: seq<Param>, root: nat): (n: nat)
    ensures n == Power(if root > 2 then root else 2, |Ranged(params)|)
  {
    TupleCount(|Ranged(params)|, if root > 2 then root else 2);
    |Tuples(|Ranged(params)|, if root > 2 then root else 2)|
  }

  method GenerateFirst(params: seq<Param>, budget: nat, root: nat, rng: Generator)
    returns (grid: seq<Scenario>, lhs: seq<Scenario>, random: seq<Scenario>, ghost y: Layout)
    requires Declared(params) && budget >= 50
    modifies rng
    ensures |grid| == if Ranged(params) == [] then 0
                      else Smaller(GridSize(params, root), Larger(10, budget / 5))
    ensures |lhs| == if Ranged(params) == [] then 0 else Larger(15, budget / 3)
    ensures |grid| + |lhs| + |random| == budget && |random| >= Smaller(10, budget / 10)
    ensures y.grid == grid && y.lhs == lhs && y.random == random && y.boundary == []
    ensures AsGenerated(y, params, if root > 2 then root else 2, rng.tape)
    ensures InTurn(y, params, old(rng.next)) && y.boundaryAt == rng.next
  {
    grid := GenerateGrid(params, rng, Larger(10, budget / 5), root);
    ghost var samplesAt := rng.next;
    var samples;
    lhs, samples := GenerateLhs(params, rng, Larger(15, budget / 3));
    ghost var randomAt := rng.next;
    random := GenerateRandom(params, rng, budget - |grid + lhs|);
    y := Layout(grid, lhs, random, [], samples, old(rng.next), samplesAt,
                Start(samplesAt, |samples|, SampleDraws(|lhs|)), randomAt, rng.next);
  }

  /** Exactly the budget, at least fifty, each setting every parameter; boundary scenarios replace
      random ones and nothing else. If no integer range has an end that rounds out of it, every
      value is allowed. */
  method GenerateStructuredScenarios(params: seq<Param>, requested: int, directed: bool, root: nat, rng: Generator)
    returns (scenarios: seq<Scenario>, ghost y: Layout)
    requires Declared(params)
    modifies rng
    ensures |scenarios| == if requested < 50 then 50 else requested
    ensures scenarios == InOrder(y)
    ensures AsGenerated(y, params, if root > 2 then root else 2, rng.tape) && InTurn(y, params, old(rng.next))
    ensures |y.grid| == if Ranged(params) == [] then 0
                        else Smaller(GridSize(params, root), Larger(10, |scenarios| / 5))
    ensures |y.lhs| == if Ranged(params) == [] then 0 else Larger(15, |scenarios| / 3)
    ensures |y.boundary| == if directed && Ranged(params) != [] then Smaller(10, |scenarios| / 10) else 0
    ensures SoundRanges(params) ==> forall s | s in scenarios :: AllowedIn(params, s.actions)
  {
    var budget := if requested < 50 then 50 else requested;
    var grid, lhs, random;
    grid, lhs, random, y := GenerateFirst(params, budget, root, rng);
    scenarios := grid + lhs + random;
    if directed {
      var boundary := GenerateBoundary(params, rng, Smaller(10, budget / 10));
      if boundary != [] {
        FirstAreRandom(random, |random| - |boundary|, params, rng.tape, y.randomAt);
        y := y.(random := random[..|random| - |boundary|], boundary := boundary);
        scenarios := scenarios[..|scenarios| - |boundary|] + boundary;
      }
    }
    assert scenarios == InOrder(y);
    if SoundRanges(params) { AllAllowed(y, params, if root > 2 then root else 2, rng.tape); }
  }
}
