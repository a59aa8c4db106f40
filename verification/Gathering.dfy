/** Multisets collected over a sequence, whatever its order.

    The verifier reads its claims in the order they were added, but what it finds is a multiset:
    `Gather` collects over the elements of a list and `PairTotal` over its pairs. The lemmas say
    that neither changes when the list is permuted, or split into groups whose pairs alone count. */
module Gathering {
  /** All of `f(x)`, for the elements `x` of `xs`. */
  ghost function Gather<A, B>(xs: seq<A>, f: A -> multiset<B>): multiset<B> {
    if xs == [] then multiset{} else f(xs[0]) + Gather(xs[1..], f)
  }

  lemma {:induction false} GatherJoins<A, B>(a: seq<A>, b: seq<A>, f: A -> multiset<B>)
    ensures Gather(a + b, f) == Gather(a, f) + Gather(b, f)
  {
    if a == [] {
      assert a + b == b;
    } else {
      GatherJoins(a[1..], b, f);
      assert (a + b)[1..] == a[1..] + b;
    }
  }

  lemma {:induction false} GatherCongruence<A, B>(xs: seq<A>, f: A -> multiset<B>, g: A -> multiset<B>)
    requires forall x | x in xs :: f(x) == g(x)
    ensures Gather(xs, f) == Gather(xs, g)
  {
    if xs != [] {
      assert xs[0] in xs;
      GatherCongruence(xs[1..], f, g);
    }
  }

  ghost predicate Distinct<A(!new)>(xs: seq<A>) { forall i, j | 0 <= i < j < |xs| :: xs[i] != xs[j] }

  /** Functions that differ at one element of a list without repetitions differ in total by what
      they differ by there. */
  lemma {:induction false} GatherDiffersOnce<A(!new), B>(xs: seq<A>, f: A -> multiset<B>, g: A -> multiset<B>, at: A,
      extra: multiset<B>)
    requires Distinct(xs) && at in xs && g(at) == extra + f(at)
    requires forall x | x in xs && x != at :: f(x) == g(x)
    ensures Gather(xs, g) == extra + Gather(xs, f)
  {
    if xs[0] == at {
      forall x | x in xs[1..] ensures f(x) == g(x) {
        var i :| 1 <= i < |xs| && xs[i] == x;
        assert x in xs && x != xs[0];
      }
      GatherCongruence(xs[1..], f, g);
    } else {
      assert xs[0] in xs;
      forall i, j | 0 <= i < j < |xs[1..]| ensures xs[1..][i] != xs[1..][j] {
        assert xs[i + 1] != xs[j + 1];
      }
      GatherDiffersOnce(xs[1..], f, g, at, extra);
    }
  }

  /** The parts before and behind an occurrence of `x`. */
  lemma Extract<A>(s: seq<A>, x: A) returns (a: seq<A>, b: seq<A>)
    requires x in multiset(s)
    ensures s == a + [x] + b && multiset(a + b) == multiset(s) - multiset{x}
  {
    var i :| 0 <= i < |s| && s[i] == x;
    a, b := s[..i], s[i + 1..];
    assert s == a + [x] + b;
    assert multiset(s) == multiset(a) + multiset{x} + multiset(b);
  }

  /** A rearrangement of a list with head `x` has `x` somewhere, and is otherwise a rearrangement of the tail. */
  lemma ExtractHead<A>(s: seq<A>, t: seq<A>) returns (a: seq<A>, b: seq<A>)
    requires s != [] && multiset(s) == multiset(t)
    ensures t == a + [s[0]] + b && multiset(s[1..]) == multiset(a + b)
  {
    assert s == [s[0]] + s[1..];
    assert s[0] in multiset(s);
    a, b := Extract(t, s[0]);
  }

  lemma SameSize<A>(s: seq<A>, t: seq<A>)
    requires multiset(s) == multiset(t)
    ensures |s| == |t|
  {
    assert |multiset(s)| == |s| && |multiset(t)| == |t|;
  }

  lemma {:induction false} GatherPermutes<A, B>(s: seq<A>, t: seq<A>, f: A -> multiset<B>)
    requires multiset(s) == multiset(t)
    ensures Gather(s, f) == Gather(t, f)
    decreases |s|
  {
    SameSize(s, t);
    if s != [] {
      var a, b := ExtractHead(s, t);
      GatherPermutes(s[1..], a + b, f);
      GatherJoins(a, b, f);
      GatherJoins(a, [s[0]], f);
      GatherJoins(a + [s[0]], b, f);
      assert Gather([s[0]], f) == f(s[0]);
    }
  }

  lemma GatherOfSnoc<A, B>(xs: seq<A>, x: A, f: A -> multiset<B>)
    ensures Gather(xs + [x], f) == Gather(xs, f) + f(x)
  {
    GatherJoins(xs, [x], f);
  }

  lemma GatherOfMiddle<A, B>(a: seq<A>, x: A, b: seq<A>, f: A -> multiset<B>)
    ensures Gather(a + [x] + b, f) == Gather(a + b, f) + f(x)
  {
    GatherJoins(a, b, f);
    GatherJoins(a, [x], f);
    GatherJoins(a + [x], b, f);
  }

  // ----- pairs -----

  ghost function With<A, B>(x: A, f: (A, A) -> multiset<B>): A -> multiset<B> { (y: A) => f(x, y) }

  /** All of `f(x, y)`, for every two elements, `x` before `y`. */
  ghost function PairTotal<A, B>(xs: seq<A>, f: (A, A) -> multiset<B>): multiset<B> {
    if xs == [] then multiset{} else Gather(xs[1..], With(xs[0], f)) + PairTotal(xs[1..], f)
  }

  lemma Shuffle<B>(p: multiset<B>, q: multiset<B>, r: multiset<B>, u: multiset<B>)
    ensures (p + q) + (r + u) == (q + r) + (p + u)
  {
  }

  ghost predicate Symmetric<A(!new), B>(f: (A, A) -> multiset<B>) {
    forall x, y {:trigger f(x, y)} :: f(x, y) == f(y, x)
  }

  /** Where an element stands makes no difference. */
  lemma {:induction false} PairTotalOfMiddle<A(!new), B>(a: seq<A>, x: A, b: seq<A>, f: (A, A) -> multiset<B>)
    requires Symmetric(f)
    ensures PairTotal(a + [x] + b, f) == Gather(a + b, With(x, f)) + PairTotal(a + b, f)
  {
    if a == [] {
      assert a + [x] + b == [x] + b && a + b == b;
    } else {
      var h, t := a[0], a[1..];
      PairTotalOfMiddle(t, x, b, f);
      assert a + [x] + b == [h] + (t + [x] + b) && a + b == [h] + (t + b);
      GatherOfMiddle(t, x, b, With(h, f));
      assert With(h, f)(x) == With(x, f)(h);
      Shuffle(Gather(t + b, With(h, f)), With(h, f)(x), Gather(t + b, With(x, f)), PairTotal(t + b, f));
    }
  }

  lemma {:induction false} PairTotalPermutes<A(!new), B>(xs: seq<A>, ys: seq<A>, f: (A, A) -> multiset<B>)
    requires Symmetric(f) && multiset(xs) == multiset(ys)
    ensures PairTotal(xs, f) == PairTotal(ys, f)
    decreases |xs|
  {
    SameSize(xs, ys);
    if xs != [] {
      var a, b := ExtractHead(xs, ys);
      PairTotalPermutes(xs[1..], a + b, f);
      GatherPermutes(xs[1..], a + b, With(xs[0], f));
      PairTotalOfMiddle(a, xs[0], b, f);
    }
  }

  // ----- grouping -----

  /** The elements with key `k`, in order. */
  ghost function Group<A, K>(xs: seq<A>, key: A -> K, k: K): seq<A> {
    if xs == [] then []
    else (if key(xs[0]) == k then [xs[0]] else []) + Group(xs[1..], key, k)
  }

  lemma GroupOfCons<A, K>(x: A, xs: seq<A>, key: A -> K, k: K)
    ensures Group([x] + xs, key, k) == if key(x) == k then [x] + Group(xs, key, k) else Group(xs, key, k)
  {
    assert ([x] + xs)[1..] == xs;
  }

  lemma {:induction false} GroupOfSnoc<A, K>(xs: seq<A>, x: A, key: A -> K, k: K)
    ensures Group(xs + [x], key, k) == Group(xs, key, k) + if key(x) == k then [x] else []
  {
    if xs == [] {
      assert xs + [x] == [x];
    } else {
      GroupOfSnoc(xs[1..], x, key, k);
      assert (xs + [x])[1..] == xs[1..] + [x];
    }
  }

  lemma {:induction false} GroupIsAbout<A, K>(xs: seq<A>, key: A -> K, k: K)
    ensures forall x | x in Group(xs, key, k) :: key(x) == k && x in xs
  {
    if xs != [] { GroupIsAbout(xs[1..], key, k); }
  }

  /** The keys, each where it first appears. */
  ghost function Keys<A, K>(xs: seq<A>, key: A -> K): seq<K> {
    if xs == [] then []
    else
      var before, last := Keys(xs[..|xs| - 1], key), key(xs[|xs| - 1]);
      if last in before then before else before + [last]
  }

  lemma {:induction false} KeysAreDistinct<A, K(!new)>(xs: seq<A>, key: A -> K)
    ensures Distinct(Keys(xs, key)) && forall x | x in xs :: key(x) in Keys(xs, key)
  {
    if xs != [] { KeysAreDistinct(xs[..|xs| - 1], key); }
  }

  /** `f` finds nothing between elements with different keys. */
  ghost predicate Apart<A(!new), B, K>(f: (A, A) -> multiset<B>, key: A -> K) {
    forall x, y {:trigger f(x, y)} | key(x) != key(y) :: f(x, y) == multiset{}
  }

  /** Elements with other keys contribute nothing. */
  lemma {:induction false} OthersAgree<A(!new), B, K>(x: A, xs: seq<A>, f: (A, A) -> multiset<B>, key: A -> K)
    requires Apart(f, key)
    ensures Gather(Group(xs, key, key(x)), With(x, f)) == Gather(xs, With(x, f))
  {
    if xs != [] {
      OthersAgree(x, xs[1..], f, key);
      GroupOfCons(xs[0], xs[1..], key, key(x));
      assert xs == [xs[0]] + xs[1..] && With(x, f)(xs[0]) == f(x, xs[0]);
    }
  }

  ghost function GroupTotal<A, B, K>(xs: seq<A>, f: (A, A) -> multiset<B>, key: A -> K): K -> multiset<B> {
    (k: K) => PairTotal(Group(xs, key, k), f)
  }

  lemma {:induction false} NothingToGather<A, B, K>(keys: seq<K>, f: (A, A) -> multiset<B>, key: A -> K)
    ensures Gather(keys, GroupTotal([], f, key)) == multiset{}
  {
    if keys != [] { NothingToGather(keys[1..], f, key); }
  }

  /** One more element in front adds, in its own group, its pairs with all the others. */
  lemma GroupGrows<A(!new), B, K(!new)>(x: A, xs: seq<A>, f: (A, A) -> multiset<B>, key: A -> K)
    requires Apart(f, key)
    ensures GroupTotal([x] + xs, f, key)(key(x)) == Gather(xs, With(x, f)) + GroupTotal(xs, f, key)(key(x))
    ensures forall k | k != key(x) :: GroupTotal([x] + xs, f, key)(k) == GroupTotal(xs, f, key)(k)
  {
    OthersAgree(x, xs, f, key);
    GroupOfCons(x, xs, key, key(x));
    forall k | k != key(x) ensures GroupTotal([x] + xs, f, key)(k) == GroupTotal(xs, f, key)(k) {
      GroupOfCons(x, xs, key, k);
    }
  }

  /** If pairs count only inside groups, the groups' totals make up the whole. */
  lemma {:induction false} GroupsMakeUpTheTotal<A(!new), B, K(!new)>(xs: seq<A>, keys: seq<K>,
      f: (A, A) -> multiset<B>, key: A -> K)
    requires Apart(f, key) && Distinct(keys) && forall x | x in xs :: key(x) in keys
    ensures Gather(keys, GroupTotal(xs, f, key)) == PairTotal(xs, f)
  {
    if xs == [] {
      NothingToGather(keys, f, key);
    } else {
      var x, rest := xs[0], xs[1..];
      assert x in xs && xs == [x] + rest;
      GroupsMakeUpTheTotal(rest, keys, f, key);
      GroupGrows(x, rest, f, key);
      GatherDiffersOnce(keys, GroupTotal(rest, f, key), GroupTotal(xs, f, key), key(x), Gather(rest, With(x, f)));
    }
  }

  // ----- lists of what pairs yield -----

  ghost function Mapped<A, B>(xs: seq<A>, to: A -> B): seq<B> {
    if xs == [] then [] else Mapped(xs[..|xs| - 1], to) + [to(xs[|xs| - 1])]
  }

  lemma {:induction false} MappedJoins<A, B>(a: seq<A>, b: seq<A>, to: A -> B)
    ensures Mapped(a + b, to) == Mapped(a, to) + Mapped(b, to)
  {
    if b == [] {
      assert a + b == a;
    } else {
      MappedJoins(a, b[..|b| - 1], to);
      assert (a + b)[..|a + b| - 1] == a + b[..|b| - 1];
    }
  }

  lemma MappedOne<A, B>(x: A, to: A -> B)
    ensures Mapped([x], to) == [to(x)]
  {
  }

  /** What `x` yields with each of `rest`, in order. */
  ghost function Row<A, B>(x: A, rest: seq<A>, lists: (A, A) -> seq<B>): seq<B> {
    if rest == [] then [] else Row(x, rest[..|rest| - 1], lists) + lists(x, rest[|rest| - 1])
  }

  /** What the first `n` elements yield, each with those behind it. */
  ghost function Rows<A, B>(xs: seq<A>, n: nat, lists: (A, A) -> seq<B>): seq<B>
    requires n <= |xs|
  {
    if n == 0 then [] else Rows(xs, n - 1, lists) + Row(xs[n - 1], xs[n..], lists)
  }

  /** What the groups of the given keys yield, one after the other. */
  ghost function Groups<A, B, K>(xs: seq<A>, keys: seq<K>, key: A -> K, lists: (A, A) -> seq<B>): seq<B> {
    if keys == [] then []
    else
      var last := Group(xs, key, keys[|keys| - 1]);
      Groups(xs, keys[..|keys| - 1], key, lists) + Rows(last, |last|, lists)
  }

  /** `b` is what some two elements yield. */
  ghost predicate Stems<A(!new), B>(b: B, xs: seq<A>, lists: (A, A) -> seq<B>) {
    exists x, y {:trigger lists(x, y)} :: x in xs && y in xs && b in lists(x, y)
  }

  lemma {:induction false} RowStems<A(!new), B>(x: A, rest: seq<A>, xs: seq<A>, lists: (A, A) -> seq<B>)
    requires x in xs && forall y | y in rest :: y in xs
    ensures forall b | b in Row(x, rest, lists) :: Stems(b, xs, lists)
  {
    if rest != [] {
      var last := rest[|rest| - 1];
      RowStems(x, rest[..|rest| - 1], xs, lists);
      assert last in rest;
      forall b | b in lists(x, last) ensures Stems(b, xs, lists) { }
    }
  }

  lemma {:induction false} RowsStem<A(!new), B>(group: seq<A>, n: nat, xs: seq<A>, lists: (A, A) -> seq<B>)
    requires n <= |group| && forall x | x in group :: x in xs
    ensures forall b | b in Rows(group, n, lists) :: Stems(b, xs, lists)
  {
    if n > 0 {
      RowsStem(group, n - 1, xs, lists);
      RowStems(group[n - 1], group[n..], xs, lists);
    }
  }

  lemma {:induction false} GroupsStem<A(!new), B, K>(xs: seq<A>, keys: seq<K>, key: A -> K, lists: (A, A) -> seq<B>)
    ensures forall b | b in Groups(xs, keys, key, lists) :: Stems(b, xs, lists)
  {
    if keys != [] {
      var group := Group(xs, key, keys[|keys| - 1]);
      GroupsStem(xs, keys[..|keys| - 1], key, lists);
      GroupIsAbout(xs, key, keys[|keys| - 1]);
      RowsStem(group, |group|, xs, lists);
    }
  }

  /** Inside a group, `f` is the multiset of what a pair yields. */
  ghost predicate Counts<A(!new), B, C, K>(f: (A, A) -> multiset<C>, lists: (A, A) -> seq<B>, to: B -> C, key: A -> K) {
    forall x, y {:trigger f(x, y)} | key(x) == key(y) :: multiset(Mapped(lists(x, y), to)) == f(x, y)
  }

  lemma {:induction false} RowIsGathered<A(!new), B, C, K>(x: A, rest: seq<A>, f: (A, A) -> multiset<C>,
      lists: (A, A) -> seq<B>, to: B -> C, key: A -> K)
    requires Counts(f, lists, to, key) && forall y | y in rest :: key(y) == key(x)
    ensures multiset(Mapped(Row(x, rest, lists), to)) == Gather(rest, With(x, f))
  {
    if rest != [] {
      var before, last := rest[..|rest| - 1], rest[|rest| - 1];
      RowIsGathered(x, before, f, lists, to, key);
      MappedJoins(Row(x, before, lists), lists(x, last), to);
      assert rest == before + [last] && last in rest;
      assert multiset(Mapped(lists(x, last), to)) == f(x, last);
      GatherJoins(before, [last], With(x, f));
    }
  }

  lemma RowAndRest<A(!new), B, C, K>(before: seq<B>, x: A, rest: seq<A>, f: (A, A) -> multiset<C>,
      lists: (A, A) -> seq<B>, to: B -> C, key: A -> K)
    requires Counts(f, lists, to, key) && forall y | y in rest :: key(y) == key(x)
    ensures multiset(Mapped(before + Row(x, rest, lists), to)) + PairTotal(rest, f) ==
      multiset(Mapped(before, to)) + PairTotal([x] + rest, f)
  {
    MappedJoins(before, Row(x, rest, lists), to);
    RowIsGathered(x, rest, f, lists, to, key);
  }

  lemma {:induction false} RowsAreTotal<A(!new), B, C, K>(xs: seq<A>, n: nat, f: (A, A) -> multiset<C>,
      lists: (A, A) -> seq<B>, to: B -> C, key: A -> K)
    requires Counts(f, lists, to, key) && n <= |xs| && forall x, y | x in xs && y in xs :: key(x) == key(y)
    ensures multiset(Mapped(Rows(xs, n, lists), to)) + PairTotal(xs[n..], f) == PairTotal(xs, f)
  {
    if n > 0 {
      var x, rest := xs[n - 1], xs[n..];
      RowsAreTotal(xs, n - 1, f, lists, to, key);
      assert xs[n - 1..] == [x] + rest && Rows(xs, n, lists) == Rows(xs, n - 1, lists) + Row(x, rest, lists);
      RowAndRest(Rows(xs, n - 1, lists), x, rest, f, lists, to, key);
    } else {
      assert xs[0..] == xs;
    }
  }

  lemma GroupIsTotal<A(!new), B, C, K>(xs: seq<A>, k: K, f: (A, A) -> multiset<C>, lists: (A, A) -> seq<B>,
      to: B -> C, key: A -> K)
    requires Counts(f, lists, to, key)
    ensures var group := Group(xs, key, k);
      multiset(Mapped(Rows(group, |group|, lists), to)) == GroupTotal(xs, f, key)(k)
  {
    var group := Group(xs, key, k);
    GroupIsAbout(xs, key, k);
    RowsAreTotal(group, |group|, f, lists, to, key);
    assert group[|group|..] == [];
  }

  lemma {:induction false} GroupsAreGathered<A(!new), B, C, K>(xs: seq<A>, keys: seq<K>, f: (A, A) -> multiset<C>,
      lists: (A, A) -> seq<B>, to: B -> C, key: A -> K)
    requires Counts(f, lists, to, key)
    ensures multiset(Mapped(Groups(xs, keys, key, lists), to)) == Gather(keys, GroupTotal(xs, f, key))
  {
    if keys != [] {
      var before, last := keys[..|keys| - 1], keys[|keys| - 1];
      assert keys == before + [last];
      var group := Group(xs, key, last);
      var earlier, rows := Groups(xs, before, key, lists), Rows(group, |group|, lists);
      assert Groups(xs, keys, key, lists) == earlier + rows;
      GroupsAreGathered(xs, before, f, lists, to, key);
      MappedJoins(earlier, rows, to);
      GroupIsTotal(xs, last, f, lists, to, key);
      GatherOfSnoc(before, last, GroupTotal(xs, f, key));
    }
  }

  /** Going through the groups, and inside each through every two elements, lists each pair once. */
  lemma GroupwiseIsPairwise<A(!new), B, C, K(!new)>(xs: seq<A>, f: (A, A) -> multiset<C>, lists: (A, A) -> seq<B>,
      to: B -> C, key: A -> K)
    requires Counts(f, lists, to, key) && Apart(f, key)
    ensures multiset(Mapped(Groups(xs, Keys(xs, key), key, lists), to)) == PairTotal(xs, f)
  {
    KeysAreDistinct(xs, key);
    GroupsAreGathered(xs, Keys(xs, key), f, lists, to, key);
    GroupsMakeUpTheTotal(xs, Keys(xs, key), f, key);
  }

  // ----- products -----

  function Product<A>(xs: seq<A>, factor: A -> real): real {
    if xs == [] then 1.0 else Product(xs[..|xs| - 1], factor) * factor(xs[|xs| - 1])
  }

  lemma Regroup(p: real, f: real, g: real)
    ensures p * f * g == p * g * f
  {
  }

  lemma ProductOfSnoc<A>(xs: seq<A>, x: A, factor: A -> real)
    ensures Product(xs + [x], factor) == Product(xs, factor) * factor(x)
  {
    assert (xs + [x])[..|xs|] == xs;
  }

  lemma JoinStep(a: real, b: real, f: real, ab: real, bf: real)
    requires ab == a * b && bf == b * f
    ensures ab * f == a * bf
  {
    assert (a * b) * f == a * (b * f);
  }

  lemma {:induction false} ProductJoins<A>(a: seq<A>, b: seq<A>, factor: A -> real)
    ensures Product(a + b, factor) == Product(a, factor) * Product(b, factor)
  {
    if b == [] {
      assert a + b == a;
    } else {
      var before, last := b[..|b| - 1], b[|b| - 1];
      ProductJoins(a, before, factor);
      assert a + b == (a + before) + [last] && b == before + [last];
      ProductOfSnoc(a + before, last, factor);
      ProductOfSnoc(before, last, factor);
      JoinStep(Product(a, factor), Product(before, factor), factor(last), Product(a + before, factor),
        Product(b, factor));
    }
  }

  function Power(x: real, n: nat): real { if n == 0 then 1.0 else Power(x, n - 1) * x }

  /** The same list, so many times over. */
  ghost function Copies<A>(xs: seq<A>, k: nat): seq<A> { if k == 0 then [] else Copies(xs, k - 1) + xs }

  lemma {:induction false} ProductOfMiddle<A>(a: seq<A>, x: A, b: seq<A>, factor: A -> real)
    ensures Product(a + [x] + b, factor) == Product(a + b, factor) * factor(x)
  {
    if b == [] {
      assert a + [x] + b == a + [x] && a + b == a;
      ProductOfSnoc(a, x, factor);
    } else {
      var t, last := b[..|b| - 1], b[|b| - 1];
      ProductOfMiddle(a, x, t, factor);
      assert a + [x] + b == (a + [x] + t) + [last] && a + b == (a + t) + [last];
      ProductOfSnoc(a + [x] + t, last, factor);
      ProductOfSnoc(a + t, last, factor);
      Regroup(Product(a + t, factor), factor(x), factor(last));
    }
  }

  lemma ProductOfCons<A>(x: A, xs: seq<A>, factor: A -> real)
    ensures Product([x] + xs, factor) == Product(xs, factor) * factor(x)
  {
    assert [x] + xs == [] + [x] + xs && xs == [] + xs;
    ProductOfMiddle([], x, xs, factor);
  }

  lemma {:induction false} ProductPermutes<A>(xs: seq<A>, ys: seq<A>, factor: A -> real)
    requires multiset(xs) == multiset(ys)
    ensures Product(xs, factor) == Product(ys, factor)
    decreases |xs|
  {
    SameSize(xs, ys);
    if xs != [] {
      var a, b := ExtractHead(xs, ys);
      ProductPermutes(xs[1..], a + b, factor);
      ProductOfCons(xs[0], xs[1..], factor);
      assert xs == [xs[0]] + xs[1..];
      ProductOfMiddle(a, xs[0], b, factor);
    }
  }
}
