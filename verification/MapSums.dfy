// Totals and multisets over finite maps: how one write changes them.
module MapSums {

  function Get<K>(m: map<K, int>, k: K): int {
    if k in m then m[k] else 0
  }

  // The total of `f` over the values of `m`.
  ghost function SumOf<K, V>(m: map<K, V>, f: V -> int): int {
    if m == map[] then 0
    else
      var k :| k in m;
      f(m[k]) + SumOf(m - {k}, f)
  }

  lemma {:induction false} SumOfRemove<K, V>(m: map<K, V>, f: V -> int, k: K)
    requires k in m
    ensures SumOf(m, f) == f(m[k]) + SumOf(m - {k}, f)
    decreases |m|
  {
    var j :| j in m && SumOf(m, f) == f(m[j]) + SumOf(m - {j}, f);
    if j != k {
      SumOfRemove(m - {j}, f, k);
      SumOfRemove(m - {k}, f, j);
      assert m - {j} - {k} == m - {k} - {j};
    }
  }

  lemma {:induction false} SumOfUpdate<K, V>(m: map<K, V>, f: V -> int, k: K, v: V)
    ensures SumOf(m[k := v], f) == SumOf(m, f) - (if k in m then f(m[k]) else 0) + f(v)
  {
    SumOfRemove(m[k := v], f, k);
    assert m[k := v] - {k} == m - {k};
    if k in m {
      SumOfRemove(m, f, k);
    } else {
      assert m - {k} == m;
    }
  }

  // Entry by entry at most, where a missing entry counts nothing.
  ghost predicate EntriesAtMost<K, V, W>(m: map<K, V>, f: V -> int, n: map<K, W>, g: W -> int) {
    && (forall k :: k in m ==> f(m[k]) <= if k in n then g(n[k]) else 0)
    && (forall k :: k in n && k !in m ==> 0 <= g(n[k]))
  }

  lemma EntriesWithout<K, V, W>(m: map<K, V>, f: V -> int, n: map<K, W>, g: W -> int, k: K)
    requires EntriesAtMost(m, f, n, g)
    ensures EntriesAtMost(m - {k}, f, n - {k}, g)
  {
  }

  // ... is at most in total.
  lemma {:induction false} SumOfAtMost<K, V, W>(m: map<K, V>, f: V -> int, n: map<K, W>, g: W -> int)
    requires EntriesAtMost(m, f, n, g)
    ensures SumOf(m, f) <= SumOf(n, g)
    decreases |m| + |n|
  {
    if k :| k in m || k in n {
      var mk := if k in m then f(m[k]) else 0;
      var nk := if k in n then g(n[k]) else 0;
      assert mk <= nk;
      EntriesWithout(m, f, n, g, k);
      hide EntriesAtMost;
      SumOfWithout(m, f, k);
      SumOfWithout(n, g, k);
      SumOfAtMost(m - {k}, f, n - {k}, g);
    }
  }

  lemma {:induction false} SumOfWithout<K, V>(m: map<K, V>, f: V -> int, k: K)
    ensures SumOf(m, f) == (if k in m then f(m[k]) else 0) + SumOf(m - {k}, f)
  {
    if k in m {
      SumOfRemove(m, f, k);
    } else {
      assert m - {k} == m;
    }
  }

  function Identity(x: int): int { x }

  ghost function Sum<K>(m: map<K, int>): int {
    SumOf(m, Identity)
  }

  lemma SumUpdate<K>(m: map<K, int>, k: K, v: int)
    ensures Sum(m[k := v]) == Sum(m) - Get(m, k) + v
  {
    SumOfUpdate(m, Identity, k, v);
  }

  lemma {:induction false} SumNonNegative<K>(m: map<K, int>)
    requires forall k :: k in m ==> 0 <= m[k]
    ensures 0 <= Sum(m)
    ensures forall k :: k in m ==> m[k] <= Sum(m)
  {
    var none: map<K, int> := map[];
    SumOfAtMost(none, Identity, m, Identity);
    forall k | k in m
      ensures m[k] <= Sum(m)
    {
      SumOfRemove(m, Identity, k);
      SumOfAtMost(none, Identity, m - {k}, Identity);
    }
  }

  // How often `x` occurs among the values of `m`.
  function Is(x: int): int -> int {
    v => if v == x then 1 else 0
  }

  // The multiset of the values of `m`.
  ghost predicate HoldsValues<K>(m: map<K, int>, values: multiset<int>) {
    forall x :: values[x] == SumOf(m, Is(x))
  }

  lemma {:induction false} HoldsUpdate<K>(m: map<K, int>, values: multiset<int>, k: K, v: int)
    requires HoldsValues(m, values)
    ensures k in m ==> m[k] in values
    ensures HoldsValues(m[k := v], (if k in m then values - multiset{m[k]} else values) + multiset{v})
  {
    if k in m {
      SumOfRemove(m, Is(m[k]), k);
      CountsNonNegative(m - {k}, m[k]);
    }
    forall x
      ensures ((if k in m then values - multiset{m[k]} else values) + multiset{v})[x] == SumOf(m[k := v], Is(x))
    {
      SumOfUpdate(m, Is(x), k, v);
    }
  }

  lemma {:induction false} CountsNonNegative<K>(m: map<K, int>, x: int)
    ensures 0 <= SumOf(m, Is(x))
  {
    var none: map<K, int> := map[];
    SumOfAtMost(none, Is(x), m, Is(x));
  }

  // Two multisets that hold the same map's values are equal.
  lemma HoldsUnique<K>(m: map<K, int>, a: multiset<int>, b: multiset<int>)
    requires HoldsValues(m, a) && HoldsValues(m, b)
    ensures a == b
  {
    assert forall x :: a[x] == b[x];
  }

  lemma HoldsWithout<K>(m: map<K, int>, values: multiset<int>, k: K)
    requires HoldsValues(m, values) && k in m
    ensures m[k] in values && HoldsValues(m - {k}, values - multiset{m[k]})
  {
    SumOfRemove(m, Is(m[k]), k);
    CountsNonNegative(m - {k}, m[k]);
    forall x
      ensures (values - multiset{m[k]})[x] == SumOf(m - {k}, Is(x))
    {
      SumOfRemove(m, Is(x), k);
    }
  }

  // The values of a map are as many as its entries.
  lemma {:induction false} HoldsSize<K>(m: map<K, int>, values: multiset<int>)
    requires HoldsValues(m, values)
    ensures |values| == |m|
    decreases |m|
  {
    if k :| k in m {
      HoldsWithout(m, values, k);
      HoldsSize(m - {k}, values - multiset{m[k]});
    } else {
      assert forall x :: values[x] == 0;
      assert values == multiset{};
    }
  }
}
