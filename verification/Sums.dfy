/** Sums over the values of a finite map, independent of iteration order. */
module Sums {
  import opened Basics

  /** Some key of a map that has one. */
  ghost function Pick<K(!new), V>(m: map<K, V>): (k: K)
    requires |m| != 0
    ensures k in m
  {
    var k :| k in m; k
  }

  ghost function MapSum<K(!new), V>(m: map<K, V>, f: V -> nat): nat
    decreases |m|
  {
    if |m| == 0 then 0 else
      var k := Pick(m);
      f(m[k]) + MapSum(m - {k}, f)
  }

  /** Any key may be taken out first. */
  lemma {:induction false} MapSumRemove<K(!new), V>(m: map<K, V>, k: K, f: V -> nat)
    requires k in m
    ensures MapSum(m, f) == f(m[k]) + MapSum(m - {k}, f)
    decreases |m|
  {
    var p := Pick(m);
    if p != k {
      MapSumRemove(m - {p}, k, f);
      MapSumRemove(m - {k}, p, f);
      assert m - {p} - {k} == m - {k} - {p};
    }
  }

  lemma MapSumInsert<K(!new), V>(m: map<K, V>, k: K, v: V, f: V -> nat)
    requires k !in m
    ensures MapSum(m[k := v], f) == MapSum(m, f) + f(v)
  {
    var m' := m[k := v];
    MapSumRemove(m', k, f);
    assert m' - {k} == m;
  }

  /** `m` is `a` and `b` side by side. */
  ghost predicate Splits<K(!new), V>(m: map<K, V>, a: map<K, V>, b: map<K, V>) {
    && (forall k :: k in m <==> k in a || k in b)
    && (forall k :: k in a ==> k !in b && m[k] == a[k])
    && (forall k :: k in b ==> m[k] == b[k])
  }

  lemma SplitsLess<K(!new), V>(m: map<K, V>, a: map<K, V>, b: map<K, V>, k: K)
    requires Splits(m, a, b) && k in b
    ensures k in m && m[k] == b[k] && Splits(m - {k}, a, b - {k})
  {
  }

  lemma SplitsSame<K(!new), V>(m: map<K, V>, a: map<K, V>, b: map<K, V>)
    requires Splits(m, a, b) && |b| == 0
    ensures m == a
  {
    assert b == map[];
  }

  /** A map in two parts has the sum of both. */
  lemma {:induction false} MapSumSplit<K(!new), V>(m: map<K, V>, a: map<K, V>, b: map<K, V>, f: V -> nat)
    requires Splits(m, a, b)
    ensures MapSum(m, f) == MapSum(a, f) + MapSum(b, f)
    decreases |b|
  {
    hide Splits;
    if |b| == 0 {
      SplitsSame(m, a, b);
    } else {
      hide MapSum;
      var k := Pick(b);
      SplitsLess(m, a, b, k);
      MapSumRemove(b, k, f);
      MapSumRemove(m, k, f);
      MapSumSplit(m - {k}, a, b - {k}, f);
    }
  }

  /** Adds the values up entry by entry, in any order, with 64-bit checks. */
  method CheckedMapSum<K(==, !new), V>(m: map<K, V>, f: V -> nat) returns (r: Result<nat>)
    ensures r == if MapSum(m, f) < U64_BOUND then Ok(MapSum(m, f)) else Err(ValueOverflow)
  {
    var rest := m;
    var sum: nat := 0;
    while |rest| > 0
      invariant sum + MapSum(rest, f) == MapSum(m, f)
      invariant sum < U64_BOUND
      decreases |rest|
    {
      var k :| k in rest;
      MapSumRemove(rest, k, f);
      var next := CheckedAdd(sum, f(rest[k]));
      if next.None? {
        return Err(ValueOverflow);
      }
      sum := next.value;
      rest := rest - {k};
    }
    return Ok(sum);
  }
}
