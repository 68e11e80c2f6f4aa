/** Sequence operations the application uses on its in-memory tables:
    `filter`, `reduce` to a sum, de-duplication through a `Set` and a stable `sort`.
    Every fold is defined on the last element, in the order JavaScript's `reduce`
    and `forEach` visit an array. */
module Seqs {

  /** The elements of `s` that satisfy `p`, in their original order
      (JavaScript `Array.prototype.filter`). */
  function Filter<T>(s: seq<T>, p: T -> bool): (r: seq<T>)
    ensures |r| <= |s|
    ensures forall i :: 0 <= i < |r| ==> p(r[i])
  {
    if s == [] then []
    else
      var init := s[..|s| - 1];
      assert s == init + [s[|s| - 1]];
      Filter(init, p) + (if p(s[|s| - 1]) then [s[|s| - 1]] else [])
  }

  lemma {:induction false} FilterAppend<T>(a: seq<T>, b: seq<T>, p: T -> bool)
    ensures Filter(a + b, p) == Filter(a, p) + Filter(b, p)
    decreases |b|
  {
    if b == [] {
      assert a + b == a;
    } else {
      var b' := b[..|b| - 1];
      assert (a + b)[..|a + b| - 1] == a + b';
      FilterAppend(a, b', p);
    }
  }

  /** An element is kept exactly when it occurs in `s` and satisfies `p`. */
  lemma {:induction false} FilterMembership<T>(s: seq<T>, p: T -> bool)
    ensures forall x :: x in Filter(s, p) <==> x in s && p(x)
  {
    if s != [] {
      var init, last := s[..|s| - 1], s[|s| - 1];
      assert s == init + [last];
      FilterMembership(init, p);
    }
  }

  /** Each element of a filter is an element of the sequence filtered. */
  lemma FilterIndex<T>(s: seq<T>, p: T -> bool, i: nat)
    requires i < |Filter(s, p)|
    ensures Filter(s, p)[i] in s
  {
    FilterMembership(s, p);
    assert Filter(s, p)[i] in Filter(s, p);
  }

  /** Filtering twice is filtering by the conjunction. */
  lemma {:induction false} FilterFilter<T>(s: seq<T>, p: T -> bool, q: T -> bool)
    ensures Filter(Filter(s, p), q) == Filter(s, x => p(x) && q(x))
  {
    if s != [] {
      var init := s[..|s| - 1];
      FilterFilter(init, p, q);
      FilterAppend(Filter(init, p), if p(s[|s| - 1]) then [s[|s| - 1]] else [], q);
    }
  }

  /** A filter by a predicate that every element satisfies keeps the sequence. */
  lemma {:induction false} FilterAll<T>(s: seq<T>, p: T -> bool)
    requires forall x :: x in s ==> p(x)
    ensures Filter(s, p) == s
  {
    if s != [] {
      var init := s[..|s| - 1];
      assert s == init + [s[|s| - 1]];
      FilterAll(init, p);
    }
  }

  /** Filters by two predicates where the first implies the second are nested. */
  lemma {:induction false} FilterMonotone<T>(s: seq<T>, p: T -> bool, q: T -> bool)
    requires forall x :: p(x) ==> q(x)
    ensures Filter(Filter(s, q), p) == Filter(s, p)
  {
    FilterFilter(s, q, p);
    FilterExt(s, x => q(x) && p(x), p);
  }

  /** Filter only depends on the values of the predicate on the elements. */
  lemma {:induction false} FilterExt<T>(s: seq<T>, p: T -> bool, q: T -> bool)
    requires forall x :: x in s ==> (p(x) <==> q(x))
    ensures Filter(s, p) == Filter(s, q)
  {
    if s != [] {
      var init := s[..|s| - 1];
      assert s == init + [s[|s| - 1]];
      FilterExt(init, p, q);
    }
  }

  /** Splitting by a predicate `p` and its negation `q` partitions the sequence: the two
      parts share no element and together hold every element as often as `s` does. */
  lemma FilterPartition<T>(s: seq<T>, p: T -> bool, q: T -> bool)
    requires forall x :: x in s ==> (q(x) <==> !p(x))
    ensures multiset(Filter(s, p)) + multiset(Filter(s, q)) == multiset(s)
    ensures |Filter(s, p)| + |Filter(s, q)| == |s|
    ensures forall x :: !(x in Filter(s, p) && x in Filter(s, q))
  {
    FilterCounts(s, p, q);
    FilterMembership(s, p);
    FilterMembership(s, q);
  }

  lemma {:induction false} FilterCounts<T>(s: seq<T>, p: T -> bool, q: T -> bool)
    requires forall x :: x in s ==> (q(x) <==> !p(x))
    ensures multiset(Filter(s, p)) + multiset(Filter(s, q)) == multiset(s)
    ensures |Filter(s, p)| + |Filter(s, q)| == |s|
  {
    if s != [] {
      var init, x := s[..|s| - 1], s[|s| - 1];
      assert s == init + [x];
      assert forall y :: y in init ==> y in s;
      FilterCounts(init, p, q);
      assert x in s;
      FilterCountsStep(init, x, p, q);
    }
  }

  lemma FilterCountsStep<T>(init: seq<T>, x: T, p: T -> bool, q: T -> bool)
    requires q(x) <==> !p(x)
    requires multiset(Filter(init, p)) + multiset(Filter(init, q)) == multiset(init)
    requires |Filter(init, p)| + |Filter(init, q)| == |init|
    ensures multiset(Filter(init + [x], p)) + multiset(Filter(init + [x], q)) == multiset(init + [x])
    ensures |Filter(init + [x], p)| + |Filter(init + [x], q)| == |init + [x]|
  {
    var a, b := Filter(init, p), Filter(init, q);
    SplitStep(init, a, b, x);
    FilterSnoc(init, x, p);
    FilterSnoc(init, x, q);
    if p(x) {
      assert Filter(init + [x], p) == a + [x] && Filter(init + [x], q) == b;
    } else {
      assert Filter(init + [x], p) == a && Filter(init + [x], q) == b + [x];
    }
  }

  /** A split of `init` into two parts extends to `init + [x]` by adding `x` to either part. */
  lemma SplitStep<T>(init: seq<T>, a: seq<T>, b: seq<T>, x: T)
    requires multiset(a) + multiset(b) == multiset(init) && |a| + |b| == |init|
    ensures multiset(a + [x]) + multiset(b) == multiset(init + [x]) && |a + [x]| + |b| == |init + [x]|
    ensures multiset(a) + multiset(b + [x]) == multiset(init + [x]) && |a| + |b + [x]| == |init + [x]|
  {
  }

  /** Filtering a sequence extended by one element. */
  lemma FilterSnoc<T>(init: seq<T>, x: T, p: T -> bool)
    ensures Filter(init + [x], p) == Filter(init, p) + (if p(x) then [x] else [])
  {
    assert (init + [x])[..|init + [x]| - 1] == init;
  }

  /** No two elements of `s` have the same key. */
  predicate DistinctBy<T, K(==)>(s: seq<T>, key: T -> K)
  {
    forall i, j :: 0 <= i < j < |s| ==> key(s[i]) != key(s[j])
  }

  /** A filter keeps keys distinct. */
  lemma {:induction false} FilterDistinctBy<T, K>(s: seq<T>, p: T -> bool, key: T -> K)
    requires DistinctBy(s, key)
    ensures DistinctBy(Filter(s, p), key)
  {
    if s != [] {
      var init := s[..|s| - 1];
      var x := s[|s| - 1];
      assert s == init + [x];
      FilterDistinctBy(init, p, key);
      var r := Filter(init, p);
      forall i | 0 <= i < |r| ensures key(r[i]) != key(x) {
        FilterIndex(init, p, i);
        var j :| 0 <= j < |init| && init[j] == r[i];
      }
    }
  }

  /** Sum of `f` over `s`: `s.reduce((acc, x) => acc + f(x), 0)`. */
  function SumBy<T>(s: seq<T>, f: T -> int): int
  {
    if s == [] then 0 else SumBy(s[..|s| - 1], f) + f(s[|s| - 1])
  }

  lemma {:induction false} SumByAppend<T>(a: seq<T>, b: seq<T>, f: T -> int)
    ensures SumBy(a + b, f) == SumBy(a, f) + SumBy(b, f)
    decreases |b|
  {
    if b == [] {
      assert a + b == a;
    } else {
      var b' := b[..|b| - 1];
      assert (a + b)[..|a + b| - 1] == a + b';
      SumByAppend(a, b', f);
    }
  }

  /** Summing over the elements that satisfy `p` is summing `f` where `p` holds and 0 elsewhere. */
  lemma {:induction false} SumByFilter<T>(s: seq<T>, p: T -> bool, f: T -> int)
    ensures SumBy(Filter(s, p), f) == SumBy(s, x => if p(x) then f(x) else 0)
  {
    if s != [] {
      var init := s[..|s| - 1];
      SumByFilter(init, p, f);
      SumByAppend(Filter(init, p), if p(s[|s| - 1]) then [s[|s| - 1]] else [], f);
    }
  }

  /** Sum only depends on the values of the summand on the elements. */
  lemma {:induction false} SumByExt<T>(s: seq<T>, f: T -> int, g: T -> int)
    requires forall x :: x in s ==> f(x) == g(x)
    ensures SumBy(s, f) == SumBy(s, g)
  {
    if s != [] {
      var init := s[..|s| - 1];
      assert s == init + [s[|s| - 1]];
      SumByExt(init, f, g);
    }
  }

  /** Sum is linear: the sum of a difference of summands is the difference of the sums. */
  lemma {:induction false} SumByLinear<T>(s: seq<T>, f: T -> int, g: T -> int, h: T -> int)
    requires forall x :: x in s ==> h(x) == f(x) + g(x)
    ensures SumBy(s, h) == SumBy(s, f) + SumBy(s, g)
  {
    if s != [] {
      var init := s[..|s| - 1];
      assert s == init + [s[|s| - 1]];
      SumByLinear(init, f, g, h);
    }
  }

  /** A sum of a case split is the sums over the two parts of the split. */
  lemma {:induction false} SumBySplit<T>(s: seq<T>, p: T -> bool, f: T -> int, g: T -> int, h: T -> int, notP: T -> bool)
    requires forall x :: x in s ==> h(x) == if p(x) then f(x) else g(x)
    requires forall x :: x in s ==> (notP(x) <==> !p(x))
    ensures SumBy(s, h) == SumBy(Filter(s, p), f) + SumBy(Filter(s, notP), g)
  {
    if s != [] {
      var init := s[..|s| - 1];
      var x := s[|s| - 1];
      assert s == init + [x];
      SumBySplit(init, p, f, g, h, notP);
      SumByAppend(Filter(init, p), if p(x) then [x] else [], f);
      SumByAppend(Filter(init, notP), if notP(x) then [x] else [], g);
    }
  }

  /** Negating every term negates the sum. */
  lemma {:induction false} SumByNegate<T>(s: seq<T>, f: T -> int, g: T -> int)
    requires forall x :: x in s ==> g(x) == -f(x)
    ensures SumBy(s, g) == -SumBy(s, f)
  {
    if s != [] {
      var init := s[..|s| - 1];
      assert s == init + [s[|s| - 1]];
      SumByNegate(init, f, g);
    }
  }

  /** Summing `f` over the elements that satisfy `p` is summing a summand that agrees with `f`
      where `p` holds and is 0 elsewhere. */
  lemma {:induction false} SumByMask<T>(s: seq<T>, p: T -> bool, f: T -> int, g: T -> int)
    requires forall x :: x in s ==> g(x) == if p(x) then f(x) else 0
    ensures SumBy(Filter(s, p), f) == SumBy(s, g)
  {
    if s != [] {
      var init := s[..|s| - 1];
      var x := s[|s| - 1];
      assert s == init + [x];
      SumByMask(init, p, f, g);
      SumByAppend(Filter(init, p), if p(x) then [x] else [], f);
    }
  }

  /** When `p` holds exactly where one of the disjoint `q` and `r` holds, the sum over the
      elements satisfying `p` is the sum over those satisfying `q` plus those satisfying `r`. */
  lemma {:induction false} SumByFilterUnion<T>(s: seq<T>, p: T -> bool, q: T -> bool, r: T -> bool, f: T -> int)
    requires forall x :: x in s ==> (p(x) <==> q(x) || r(x))
    requires forall x :: x in s ==> !(q(x) && r(x))
    ensures SumBy(Filter(s, p), f) == SumBy(Filter(s, q), f) + SumBy(Filter(s, r), f)
  {
    if s != [] {
      var init := s[..|s| - 1];
      var x := s[|s| - 1];
      assert s == init + [x];
      SumByFilterUnion(init, p, q, r, f);
      SumByAppend(Filter(init, p), if p(x) then [x] else [], f);
      SumByAppend(Filter(init, q), if q(x) then [x] else [], f);
      SumByAppend(Filter(init, r), if r(x) then [x] else [], f);
    }
  }

  /** Nothing satisfies a predicate that holds nowhere. */
  lemma FilterNone<T>(s: seq<T>, p: T -> bool)
    requires forall x :: x in s ==> !p(x)
    ensures Filter(s, p) == []
  {
  }

  /** Removing the element at `i` removes its summand. */
  lemma {:induction false} SumByRemove<T>(b: seq<T>, i: nat, f: T -> int)
    requires i < |b|
    ensures SumBy(b, f) == SumBy(b[..i] + b[i + 1..], f) + f(b[i])
  {
    var l, x, r := b[..i], [b[i]], b[i + 1..];
    assert b == l + (x + r);
    SumByAppend(l, x + r, f);
    SumByAppend(x, r, f);
    SumByAppend(l, r, f);
    assert x[..0] == [];
    assert SumBy(x, f) == f(b[i]);
  }

  lemma {:induction false} MultisetRemove<T>(b: seq<T>, i: nat)
    requires i < |b|
    ensures multiset(b[..i] + b[i + 1..]) == multiset(b) - multiset{b[i]}
  {
    assert b == b[..i] + [b[i]] + b[i + 1..];
  }

  /** Sums are invariant under permutation. */
  lemma {:induction false} SumByPermutation<T>(a: seq<T>, b: seq<T>, f: T -> int)
    requires multiset(a) == multiset(b)
    ensures SumBy(a, f) == SumBy(b, f)
    decreases |a|
  {
    if a != [] {
      var x := a[|a| - 1];
      var a' := a[..|a| - 1];
      assert x in multiset(b) by {
        assert a == a' + [x];
      }
      var i :| 0 <= i < |b| && b[i] == x;
      MultisetRemove(a, |a| - 1);
      assert a[..|a| - 1] + a[|a|..] == a';
      MultisetRemove(b, i);
      SumByPermutation(a', b[..i] + b[i + 1..], f);
      SumByRemove(b, i, f);
    } else {
      assert b == [];
    }
  }

  /** `a` is `b` with some of its elements left out and the others kept in their order. */
  predicate Subsequence<T(==)>(a: seq<T>, b: seq<T>)
    decreases |b|
  {
    if a == [] then true
    else if b == [] then false
    else (a[|a| - 1] == b[|b| - 1] && Subsequence(a[..|a| - 1], b[..|b| - 1])) || Subsequence(a, b[..|b| - 1])
  }

  /** A filter keeps an order-preserving selection of the elements. */
  lemma {:induction false} FilterSubsequence<T>(s: seq<T>, p: T -> bool)
    ensures Subsequence(Filter(s, p), s)
  {
    if s != [] {
      var init := s[..|s| - 1];
      FilterSubsequence(init, p);
      var f := Filter(s, p);
      if p(s[|s| - 1]) {
        assert f == Filter(init, p) + [s[|s| - 1]];
        assert f[..|f| - 1] == Filter(init, p);
      } else {
        assert f == Filter(init, p);
      }
    }
  }

  /** Filtering two sequences with the same elements gives sequences with the same elements. */
  lemma {:induction false} FilterPermutation<T>(a: seq<T>, b: seq<T>, p: T -> bool)
    requires multiset(a) == multiset(b)
    ensures multiset(Filter(a, p)) == multiset(Filter(b, p))
    decreases |a|
  {
    if a != [] {
      var x := a[|a| - 1];
      var init := a[..|a| - 1];
      assert a == init + [x];
      assert x in multiset(b);
      var i :| 0 <= i < |b| && b[i] == x;
      var rest := b[..i] + b[i + 1..];
      SplitAt(b, i);
      FilterWithout(b, i, p);
      FilterPermutation(init, rest, p);
      FilterAppend(init, [x], p);
    }
  }

  /** Taking one element out of a sequence takes its filtered copy, if any, out of the filter. */
  lemma FilterWithout<T>(b: seq<T>, i: nat, p: T -> bool)
    requires i < |b|
    ensures multiset(Filter(b, p)) == multiset(Filter(b[..i] + b[i + 1..], p)) + multiset(Filter([b[i]], p))
  {
    var b1, b2 := b[..i], b[i + 1..];
    var x := b[i];
    SplitAt(b, i);
    FilterAppend(b1 + [x], b2, p);
    FilterAppend(b1, [x], p);
    FilterAppend(b1, b2, p);
    var f1, fx, f2 := Filter(b1, p), Filter([x], p), Filter(b2, p);
    assert Filter(b1 + [x] + b2, p) == f1 + fx + f2;
    assert multiset(f1 + fx + f2) == multiset(f1) + multiset(fx) + multiset(f2);
    assert multiset(f1 + f2) == multiset(f1) + multiset(f2);
  }

  lemma SplitAt<T>(b: seq<T>, i: nat)
    requires i < |b|
    ensures b == b[..i] + [b[i]] + b[i + 1..]
    ensures multiset(b[..i] + b[i + 1..]) == multiset(b) - multiset{b[i]}
  {
    assert b[i..] == [b[i]] + b[i + 1..];
    assert b == b[..i] + b[i..];
  }

  /** Index of the last element of `s` satisfying `p`, or -1 when there is none. */
  function LastWhere<T>(s: seq<T>, p: T -> bool): (r: int)
    ensures -1 <= r < |s|
    ensures r >= 0 ==> p(s[r])
    ensures forall j :: r < j < |s| ==> !p(s[j])
  {
    if s == [] then -1
    else if p(s[|s| - 1]) then |s| - 1
    else LastWhere(s[..|s| - 1], p)
  }

  predicate NoDuplicates<T(==)>(s: seq<T>)
  {
    forall i, j :: 0 <= i < j < |s| ==> s[i] != s[j]
  }

  /** Index of the first occurrence of `x` in `s`. */
  function IndexOf<T(==)>(s: seq<T>, x: T): (i: nat)
    requires x in s
    ensures i < |s| && s[i] == x
    ensures forall j :: 0 <= j < i ==> s[j] != x
  {
    if s[0] == x then 0 else 1 + IndexOf(s[1..], x)
  }

  /** The distinct elements of `s` in first-occurrence order: what
      `Array.from(new Set(s))` returns, built by adding the elements one by one. */
  function Dedup<T(==)>(s: seq<T>): (r: seq<T>)
    ensures forall i :: 0 <= i < |r| ==> r[i] in s
    ensures forall i :: 0 <= i < |s| ==> s[i] in r
    ensures NoDuplicates(r)
    ensures |r| <= |s|
  {
    if s == [] then []
    else
      var init := s[..|s| - 1];
      var x := s[|s| - 1];
      assert s == init + [x];
      var d := Dedup(init);
      if x in d then d else d + [x]
  }

  /** `Dedup` lists the distinct elements in the order of their first occurrence in `s`. */
  lemma {:induction false} DedupFirstOccurrenceOrder<T>(s: seq<T>)
    ensures forall i, j :: 0 <= i < j < |Dedup(s)| ==> IndexOf(s, Dedup(s)[i]) < IndexOf(s, Dedup(s)[j])
  {
    if s != [] {
      var init := s[..|s| - 1];
      var x := s[|s| - 1];
      assert s == init + [x];
      DedupFirstOccurrenceOrder(init);
      var d := Dedup(init);
      forall y | y in init ensures IndexOf(s, y) == IndexOf(init, y) {
        IndexOfPrefix(init, [x], y);
      }
      if x in d {
        assert Dedup(s) == d;
      } else {
        assert Dedup(s) == d + [x];
        assert x !in init;
        assert IndexOf(s, x) == |init|;
        forall i | 0 <= i < |d| ensures IndexOf(s, d[i]) < IndexOf(s, x) {
          assert d[i] in init;
        }
      }
    }
  }

  lemma {:induction false} IndexOfPrefix<T>(a: seq<T>, b: seq<T>, y: T)
    requires y in a
    ensures IndexOf(a + b, y) == IndexOf(a, y)
  {
    if a[0] != y {
      assert (a + b)[1..] == a[1..] + b;
      IndexOfPrefix(a[1..], b, y);
    }
  }

  /** `le` is a total preorder: what a JavaScript comparator must be for `sort` to order. */
  ghost predicate TotalPreorder<T(!new)>(le: (T, T) -> bool)
  {
    && (forall a, b :: le(a, b) || le(b, a))
    && (forall a, b, c :: le(a, b) && le(b, c) ==> le(a, c))
  }

  predicate SortedBy<T>(s: seq<T>, le: (T, T) -> bool)
  {
    forall i, j :: 0 <= i < j < |s| ==> le(s[i], s[j])
  }

  /** Puts `x` after every element `e` of `r` with `le(e, x)` up to the first that is strictly
      greater, keeping equal elements in their original order. */
  function Insert<T>(r: seq<T>, x: T, le: (T, T) -> bool): (r': seq<T>)
    ensures multiset(r') == multiset(r) + multiset{x}
    ensures |r'| == |r| + 1
  {
    if r == [] then [x]
    else if le(r[0], x) then
      assert r == [r[0]] + r[1..];
      [r[0]] + Insert(r[1..], x, le)
    else [x] + r
  }

  /** Stable insertion sort: `[...s].sort(cmp)` for the comparator that `le` describes. */
  function SortBy<T>(s: seq<T>, le: (T, T) -> bool): (r: seq<T>)
    ensures multiset(r) == multiset(s)
    ensures |r| == |s|
  {
    if s == [] then []
    else
      assert s == s[..|s| - 1] + [s[|s| - 1]];
      Insert(SortBy(s[..|s| - 1], le), s[|s| - 1], le)
  }

  lemma {:induction false} InsertSorted<T(!new)>(r: seq<T>, x: T, le: (T, T) -> bool)
    requires TotalPreorder(le)
    requires SortedBy(r, le)
    ensures SortedBy(Insert(r, x, le), le)
  {
    if r != [] && le(r[0], x) {
      InsertSorted(r[1..], x, le);
      var t := Insert(r[1..], x, le);
      assert forall y :: y in multiset(t) ==> y == x || y in r[1..];
      forall j | 0 <= j < |t| ensures le(r[0], t[j]) {
        assert t[j] in multiset(t);
      }
    }
  }

  /** The sort orders the sequence whenever the comparison is a total preorder. */
  lemma {:induction false} SortBySorted<T(!new)>(s: seq<T>, le: (T, T) -> bool)
    requires TotalPreorder(le)
    ensures SortedBy(SortBy(s, le), le)
  {
    if s != [] {
      SortBySorted(s[..|s| - 1], le);
      InsertSorted(SortBy(s[..|s| - 1], le), s[|s| - 1], le);
    }
  }

  /** The elements of a sorted sequence that satisfy `p` are still sorted. */
  lemma {:induction false} FilterSorted<T>(s: seq<T>, p: T -> bool, le: (T, T) -> bool)
    requires SortedBy(s, le)
    ensures SortedBy(Filter(s, p), le)
  {
    if s != [] {
      var init := s[..|s| - 1];
      var x := s[|s| - 1];
      FilterSorted(init, p, le);
      if p(x) {
        var f := Filter(init, p);
        forall i | 0 <= i < |f| ensures le(f[i], x) {
          FilterIndex(init, p, i);
          var k :| 0 <= k < |init| && init[k] == f[i];
        }
      }
    }
  }
}
