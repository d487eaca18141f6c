/** The running digest of the set of unspent outputs: the exclusive or of one
    32-byte digest per entry. */
module SetDigest {
  import opened Basics
  import opened Sums

  function Xor(a: Hash, b: Hash): Hash {
    seq(32, i requires 0 <= i < 32 => a[i] ^ b[i])
  }

  /** `a ^= b`, byte by byte. */
  method XorInto(a: array<bv8>, b: Hash)
    requires a.Length == 32
    modifies a
    ensures a[..] == Xor(old(a[..]), b)
  {
    ghost var before := a[..];
    for i := 0 to 32
      invariant forall j :: 0 <= j < i ==> a[j] == before[j] ^ b[j]
      invariant forall j :: i <= j < 32 ==> a[j] == before[j]
    {
      a[i] := a[i] ^ b[i];
    }
  }

  lemma BitsCancel(x: bv8, y: bv8, z: bv8)
    ensures x ^ y ^ y == x && x ^ y == y ^ x && x ^ y ^ z == x ^ z ^ y
  {
  }

  lemma XorCancel(a: Hash, b: Hash)
    ensures Xor(Xor(a, b), b) == a
  {
    forall i | 0 <= i < 32
      ensures Xor(Xor(a, b), b)[i] == a[i]
    {
      BitsCancel(a[i], b[i], 0);
    }
  }

  lemma XorSwap(a: Hash, b: Hash, c: Hash)
    ensures Xor(Xor(a, b), c) == Xor(Xor(a, c), b)
  {
    forall i | 0 <= i < 32
      ensures Xor(Xor(a, b), c)[i] == Xor(Xor(a, c), b)[i]
    {
      BitsCancel(a[i], b[i], c[i]);
    }
  }

  lemma XorAssociates(a: Hash, b: Hash, c: Hash)
    ensures Xor(Xor(a, b), c) == Xor(a, Xor(b, c))
  {
    forall i | 0 <= i < 32
      ensures Xor(Xor(a, b), c)[i] == Xor(a, Xor(b, c))[i]
    {
      var x, y, z := a[i], b[i], c[i];
      assert x ^ y ^ z == x ^ (y ^ z);
    }
  }

  lemma XorSelf(a: Hash, b: Hash)
    ensures Xor(a, b) == a <==> b == ZERO_HASH
  {
    forall i | 0 <= i < 32
      ensures Xor(a, b)[i] == a[i] <==> b[i] == 0
    {
      var x, y := a[i], b[i];
      assert x ^ y == x <==> y == 0;
    }
    if b == ZERO_HASH {
      assert Xor(a, b) == a;
    }
  }

  /** The digest of a whole set of entries, `digest` giving that of one. */
  ghost function XorAll<K(!new), V>(m: map<K, V>, digest: (K, V) -> Hash): Hash
    decreases |m|
  {
    if |m| == 0 then ZERO_HASH else
      var k := Pick(m);
      Xor(XorAll(m - {k}, digest), digest(k, m[k]))
  }

  lemma {:induction false} XorAllRemove<K(!new), V>(m: map<K, V>, k: K, digest: (K, V) -> Hash)
    requires k in m
    ensures XorAll(m, digest) == Xor(XorAll(m - {k}, digest), digest(k, m[k]))
    decreases |m|
  {
    var p := Pick(m);
    if p != k {
      XorAllRemove(m - {p}, k, digest);
      XorAllRemove(m - {k}, p, digest);
      assert m - {p} - {k} == m - {k} - {p};
      XorSwap(XorAll(m - {p} - {k}, digest), digest(k, m[k]), digest(p, m[p]));
    }
  }

  lemma XorAllInsert<K(!new), V>(m: map<K, V>, k: K, v: V, digest: (K, V) -> Hash)
    requires k !in m
    ensures XorAll(m[k := v], digest) == Xor(XorAll(m, digest), digest(k, v))
  {
    XorAllRemove(m[k := v], k, digest);
    assert m[k := v] - {k} == m;
  }

  lemma XorAllDelete<K(!new), V>(m: map<K, V>, k: K, digest: (K, V) -> Hash)
    requires k in m
    ensures XorAll(m - {k}, digest) == Xor(XorAll(m, digest), digest(k, m[k]))
  {
    XorAllRemove(m, k, digest);
    XorCancel(XorAll(m - {k}, digest), digest(k, m[k]));
  }

  // ----- any enumeration gives the same digest

  function XorSeq<K, V>(m: map<K, V>, keys: seq<K>, digest: (K, V) -> Hash): Hash
    requires forall k :: k in keys ==> k in m
  {
    if keys == [] then ZERO_HASH else
      var last := keys[|keys| - 1];
      Xor(XorSeq(m, keys[..|keys| - 1], digest), digest(last, m[last]))
  }

  /** `keys` lists every key of `m` once. */
  ghost predicate Enumerates<K(!new), V>(m: map<K, V>, keys: seq<K>) {
    && (forall k :: k in keys <==> k in m)
    && (forall i, j :: 0 <= i < j < |keys| ==> keys[i] != keys[j])
  }

  lemma {:induction false} AnyOrder<K(!new), V>(m: map<K, V>, keys: seq<K>, digest: (K, V) -> Hash)
    requires Enumerates(m, keys)
    ensures XorSeq(m, keys, digest) == XorAll(m, digest)
    decreases |keys|
  {
    if keys == [] {
      assert m == map[];
    } else {
      hide XorAll, Xor;
      var last, front := keys[|keys| - 1], keys[..|keys| - 1];
      FrontEnumerates(m, keys);
      hide Enumerates;
      XorAllRemove(m, last, digest);
      AnyOrder(m - {last}, front, digest);
      SameEntries(m, m - {last}, front, digest);
    }
  }

  lemma FrontEnumerates<K(!new), V>(m: map<K, V>, keys: seq<K>)
    requires Enumerates(m, keys) && keys != []
    ensures var n := |keys| - 1;
            && keys[n] in m && Enumerates(m - {keys[n]}, keys[..n])
            && forall k :: k in keys[..n] ==> k in m && k in m - {keys[n]} && m[k] == (m - {keys[n]})[k]
  {
    var n := |keys| - 1;
    var last, front := keys[n], keys[..n];
    assert last in keys && keys == front + [last];
    assert last !in front;
  }

  lemma {:induction false} SameEntries<K(!new), V>(m: map<K, V>, n: map<K, V>, keys: seq<K>, digest: (K, V) -> Hash)
    requires forall k :: k in keys ==> k in m && k in n && m[k] == n[k]
    ensures XorSeq(m, keys, digest) == XorSeq(n, keys, digest)
  {
    if keys != [] {
      SameEntries(m, n, keys[..|keys| - 1], digest);
      assert keys[|keys| - 1] in keys;
    }
  }
}
