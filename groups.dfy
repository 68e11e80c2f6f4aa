/** Grouping into a dictionary: `forEach(t => { if (!map[key]) map[key] = zero; map[key] = add(map[key], t) })`.
    A JavaScript object with string keys lists its entries in insertion order, so a grouping is
    the keys in the order they were first seen together with the value accumulated for each. */
module Groups {
  import opened Seqs

  /** `reduce` from the left: `s.reduce(add, zero)`. */
  function FoldLeft<T, V>(s: seq<T>, zero: V, add: (V, T) -> V): V
  {
    if s == [] then zero else add(FoldLeft(s[..|s| - 1], zero, add), s[|s| - 1])
  }

  lemma FoldLeftSnoc<T, V>(a: seq<T>, x: T, zero: V, add: (V, T) -> V)
    ensures FoldLeft(a + [x], zero, add) == add(FoldLeft(a, zero, add), x)
  {
    assert (a + [x])[..|a + [x]| - 1] == a;
  }

  function Map<T, U>(s: seq<T>, f: T -> U): (r: seq<U>)
    ensures |r| == |s|
    ensures forall i :: 0 <= i < |s| ==> r[i] == f(s[i])
  {
    seq(|s|, i requires 0 <= i < |s| => f(s[i]))
  }

  lemma MapSnoc<T, U>(a: seq<T>, x: T, f: T -> U)
    ensures Map(a + [x], f) == Map(a, f) + [f(x)]
  {
  }

  /** The elements whose key is `k`. */
  function HasKey<T, K(==)>(key: T -> K, k: K): T -> bool
  {
    (x: T) => key(x) == k
  }

  /** The entries of a dictionary in insertion order. */
  datatype Grouping<K, V> = Grouping(keys: seq<K>, values: map<K, V>)

  /** The dictionary the loop builds over `s`. */
  function GroupFold<T, K(==,!new), V>(s: seq<T>, key: T -> K, zero: V, add: (V, T) -> V): (g: Grouping<K, V>)
    ensures forall k :: k in g.keys <==> k in g.values
  {
    if s == [] then Grouping([], map[])
    else
      var g := GroupFold(s[..|s| - 1], key, zero, add);
      var x := s[|s| - 1];
      var k := key(x);
      if k in g.values then Grouping(g.keys, g.values[k := add(g.values[k], x)])
      else Grouping(g.keys + [k], g.values[k := add(zero, x)])
  }

  /** One step of the loop: add `x` to the entry of its key, creating the entry when missing. */
  function GroupStep<T, K(==,!new), V>(g: Grouping<K, V>, x: T, key: T -> K, zero: V, add: (V, T) -> V): Grouping<K, V>
  {
    var k := key(x);
    if k in g.values then Grouping(g.keys, g.values[k := add(g.values[k], x)])
    else Grouping(g.keys + [k], g.values[k := add(zero, x)])
  }

  lemma GroupFoldSnoc<T, K(!new), V>(a: seq<T>, x: T, key: T -> K, zero: V, add: (V, T) -> V)
    ensures GroupFold(a + [x], key, zero, add) == GroupStep(GroupFold(a, key, zero, add), x, key, zero, add)
  {
    assert (a + [x])[..|a + [x]| - 1] == a;
  }

  /** One turn of the grouping loop over `s`: creating the entry of the key of `s[i]` when it is
      missing and then adding `s[i]` to it extends the grouping of `s[..i]` to that of `s[..i + 1]`. */
  lemma GroupLoopStep<T, K(!new), V>(s: seq<T>, i: int, keys: seq<K>, values: map<K, V>,
                                    key: T -> K, zero: V, add: (V, T) -> V)
    requires 0 <= i < |s|
    requires Grouping(keys, values) == GroupFold(s[..i], key, zero, add)
    ensures var k := key(s[i]);
            var created := if k in values then values else values[k := zero];
            var keys' := if k in values then keys else keys + [k];
            Grouping(keys', created[k := add(created[k], s[i])]) == GroupFold(s[..i + 1], key, zero, add)
  {
    GroupFoldSnoc(s[..i], s[i], key, zero, add);
    assert s[..i + 1] == s[..i] + [s[i]];
  }

  /** The keys are the distinct keys of `s` in the order of their first occurrence. */
  lemma {:induction false} GroupKeys<T, K(!new), V>(s: seq<T>, key: T -> K, zero: V, add: (V, T) -> V)
    ensures GroupFold(s, key, zero, add).keys == Dedup(Map(s, key))
  {
    if s != [] {
      var init := s[..|s| - 1];
      var x := s[|s| - 1];
      assert s == init + [x];
      GroupKeys(init, key, zero, add);
      MapSnoc(init, x, key);
      assert Map(s, key)[..|Map(s, key)| - 1] == Map(init, key);
    }
  }

  /** A key has an entry exactly when some element of `s` has it. */
  lemma {:induction false} GroupDomain<T, K(!new), V>(s: seq<T>, key: T -> K, zero: V, add: (V, T) -> V)
    ensures forall k :: k in GroupFold(s, key, zero, add).values <==> k in Map(s, key)
  {
    if s != [] {
      var init := s[..|s| - 1];
      var x := s[|s| - 1];
      assert s == init + [x];
      GroupDomain(init, key, zero, add);
      GroupFoldSnoc(init, x, key, zero, add);
      MapSnoc(init, x, key);
    }
  }

  /** Each value is the fold of the elements of its key, in their order in `s`. */
  lemma {:induction false} GroupValues<T, K(!new), V>(s: seq<T>, key: T -> K, zero: V, add: (V, T) -> V)
    ensures var g := GroupFold(s, key, zero, add);
            forall k :: k in g.values ==> g.values[k] == FoldLeft(Filter(s, HasKey(key, k)), zero, add)
  {
    var g := GroupFold(s, key, zero, add);
    if s != [] {
      var init := s[..|s| - 1];
      var x := s[|s| - 1];
      assert s == init + [x];
      GroupValues(init, key, zero, add);
      GroupDomain(init, key, zero, add);
      GroupFoldSnoc(init, x, key, zero, add);
      var g0 := GroupFold(init, key, zero, add);
      forall k | k in g.values ensures g.values[k] == FoldLeft(Filter(s, HasKey(key, k)), zero, add) {
        var p := HasKey(key, k);
        FilterAppend(init, [x], p);
        if key(x) == k {
          assert Filter([x], p) == [x];
          FoldLeftSnoc(Filter(init, p), x, zero, add);
          if k !in g0.values {
            if Filter(init, p) != [] {
              FilterIndex(init, p, 0);
              assert false;
            }
          }
        } else {
          assert Filter([x], p) == [];
          assert Filter(init, p) + [] == Filter(init, p);
        }
      }
    }
  }

  /** The sum of one column over the entries, in key order. */
  function SumValues<K(==), V>(keys: seq<K>, values: map<K, V>, col: V -> int): int
  {
    if keys == [] then 0
    else
      var k := keys[|keys| - 1];
      SumValues(keys[..|keys| - 1], values, col) + (if k in values then col(values[k]) else 0)
  }

  /** Changing the value of a key that is not listed does not change the column sum. */
  lemma {:induction false} SumValuesIgnore<K, V>(keys: seq<K>, values: map<K, V>, k: K, v: V, col: V -> int)
    requires k !in keys
    ensures SumValues(keys, values[k := v], col) == SumValues(keys, values, col)
  {
    if keys != [] {
      SumValuesIgnore(keys[..|keys| - 1], values, k, v, col);
    }
  }

  /** Changing the value of a key listed once moves the column sum by the change of its value. */
  lemma {:induction false} SumValuesUpdate<K, V>(keys: seq<K>, values: map<K, V>, k: K, v: V, col: V -> int)
    requires NoDuplicates(keys) && k in keys && k in values
    ensures SumValues(keys, values[k := v], col) == SumValues(keys, values, col) - col(values[k]) + col(v)
  {
    var init := keys[..|keys| - 1];
    var last := keys[|keys| - 1];
    assert keys == init + [last];
    if last == k {
      assert k !in init;
      SumValuesIgnore(init, values, k, v, col);
    } else {
      SumValuesUpdate(init, values, k, v, col);
    }
  }

  /** One step of the loop moves a column sum by the column's growth for the added element. */
  lemma GroupStepColumn<T, K(!new), V>(g: Grouping<K, V>, x: T, key: T -> K, zero: V, add: (V, T) -> V, col: V -> int, fx: int)
    requires NoDuplicates(g.keys)
    requires forall k :: k in g.keys <==> k in g.values
    requires col(zero) == 0
    requires forall v :: col(add(v, x)) == col(v) + fx
    ensures var g' := GroupStep(g, x, key, zero, add);
            SumValues(g'.keys, g'.values, col) == SumValues(g.keys, g.values, col) + fx
  {
    var k := key(x);
    if k in g.values {
      SumValuesUpdate(g.keys, g.values, k, add(g.values[k], x), col);
    } else {
      var v := add(zero, x);
      SumValuesIgnore(g.keys, g.values, k, v, col);
      assert (g.keys + [k])[..|g.keys + [k]| - 1] == g.keys;
    }
  }

  /** When a column grows by `f(x)` with every element `x` added and starts at 0, the column
      summed over all entries is the sum of `f` over `s`: grouping loses and duplicates nothing. */
  lemma {:induction false} GroupColumnTotal<T, K(!new), V>(s: seq<T>, key: T -> K, zero: V, add: (V, T) -> V, col: V -> int, f: T -> int)
    requires col(zero) == 0
    requires forall v, x :: col(add(v, x)) == col(v) + f(x)
    ensures var g := GroupFold(s, key, zero, add);
            SumValues(g.keys, g.values, col) == SumBy(s, f)
  {
    if s != [] {
      var init := s[..|s| - 1];
      var x := s[|s| - 1];
      assert s == init + [x];
      GroupColumnTotal(init, key, zero, add, col, f);
      GroupFoldSnoc(init, x, key, zero, add);
      GroupKeys(init, key, zero, add);
      var g0 := GroupFold(init, key, zero, add);
      assert NoDuplicates(g0.keys);
      GroupStepColumn(g0, x, key, zero, add, col, f(x));
    }
  }
}
