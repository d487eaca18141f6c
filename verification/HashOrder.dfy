/** The order in which an ordered set of hashes is listed: byte by byte. */
module HashOrder {
  import opened Basics

  predicate ByteLess(x: bv8, y: bv8) {
    x < y
  }

  /** The hashes agree up to position `k`, where `a` is smaller. */
  predicate LessAt(a: Hash, b: Hash, k: nat) {
    k < 32 && a[..k] == b[..k] && ByteLess(a[k], b[k])
  }

  ghost predicate Less(a: Hash, b: Hash) {
    exists k: nat :: LessAt(a, b, k)
  }

  /** Compares byte by byte. */
  method IsLess(a: Hash, b: Hash) returns (less: bool)
    ensures less <==> Less(a, b)
    ensures !less && a != b ==> Less(b, a)
  {
    for k := 0 to 32
      invariant a[..k] == b[..k]
    {
      if a[k] != b[k] {
        FirstDifference(a, b, k);
        BytesCompare(a[k], b[k]);
        return ByteLess(a[k], b[k]);
      }
      assert a[..k + 1] == a[..k] + [a[k]] && b[..k + 1] == b[..k] + [b[k]];
    }
    assert a == a[..32] && b == b[..32];
    NotLess(a);
    return false;
  }

  lemma FirstDifference(a: Hash, b: Hash, k: nat)
    requires k < 32 && a[..k] == b[..k] && a[k] != b[k]
    ensures Less(a, b) <==> ByteLess(a[k], b[k])
    ensures Less(b, a) <==> ByteLess(b[k], a[k])
  {
    BytesCompare(a[k], b[k]);
    hide ByteLess;
    if ByteLess(a[k], b[k]) {
      assert LessAt(a, b, k);
      NotBoth(a, b, k);
    } else {
      assert LessAt(b, a, k);
      NotBoth(b, a, k);
    }
  }

  lemma BytesCompare(x: bv8, y: bv8)
    ensures ByteLess(x, y) || x == y || ByteLess(y, x)
    ensures !(ByteLess(x, y) && ByteLess(y, x)) && !ByteLess(x, x)
  {
  }

  lemma NotLess(a: Hash)
    ensures !Less(a, a)
  {
    forall k: nat
      ensures !LessAt(a, a, k)
    {
      if k < 32 {
        BytesCompare(a[k], a[k]);
      }
    }
  }

  lemma NotBoth(a: Hash, b: Hash, k: nat)
    requires LessAt(a, b, k)
    ensures !Less(b, a)
  {
    hide ByteLess;
    BytesCompare(a[k], b[k]);
    forall j: nat
      ensures !LessAt(b, a, j)
    {
      if j < k {
        PrefixAt(a, b, k, j);
        BytesCompare(a[j], b[j]);
      } else if k < j < 32 {
        PrefixAt(a, b, j, k);
      }
    }
  }

  lemma PrefixAt(a: Hash, b: Hash, n: nat, i: nat)
    requires i < n <= 32
    ensures a[..n] == b[..n] ==> a[i] == b[i] && a[..i] == b[..i]
  {
    assert a[i] == a[..n][i] && b[i] == b[..n][i];
    assert a[..i] == a[..n][..i] && b[..i] == b[..n][..i];
  }

  /** The bytes read as one number, the first byte counting most. */
  function NumberOf(bytes: seq<bv8>): nat {
    if bytes == [] then 0 else 256 * NumberOf(bytes[..|bytes| - 1]) + bytes[|bytes| - 1] as nat
  }

  /** A first smaller byte makes a smaller number, whatever follows. */
  lemma {:induction false} SmallerNumber(a: seq<bv8>, b: seq<bv8>, k: nat)
    requires |a| == |b| && k < |a| && a[..k] == b[..k] && ByteLess(a[k], b[k])
    ensures NumberOf(a) < NumberOf(b)
  {
    var n := |a| - 1;
    var a', b' := a[..n], b[..n];
    if k < n {
      assert a'[..k] == a[..k] && b'[..k] == b[..k];
      SmallerNumber(a', b', k);
      LastByte(a[n], b[n]);
    } else {
      SmallerByte(a[k], b[k]);
    }
  }

  lemma SmallerByte(x: bv8, y: bv8)
    requires ByteLess(x, y)
    ensures x as nat < y as nat
  {
  }

  lemma LastByte(x: bv8, y: bv8)
    ensures x as nat < 256 && y as nat < 256
  {
  }

  /** The order is that of the numbers. */
  lemma LessIffNumber(a: Hash, b: Hash)
    ensures Less(a, b) <==> NumberOf(a) < NumberOf(b)
  {
    hide NumberOf, ByteLess;
    if k: nat :| LessAt(a, b, k) {
      SmallerNumber(a, b, k);
    } else if a != b {
      LessIsTotal(a, b);
      var k: nat :| LessAt(b, a, k);
      SmallerNumber(b, a, k);
    }
  }

  lemma LessIsOneWay(a: Hash, b: Hash)
    requires Less(a, b)
    ensures !Less(b, a) && a != b
  {
    var k: nat :| LessAt(a, b, k);
    NotBoth(a, b, k);
    NotLess(a);
  }

  lemma LessIsTransitive(a: Hash, b: Hash, c: Hash)
    requires Less(a, b) && Less(b, c)
    ensures Less(a, c)
  {
    hide ByteLess;
    var i: nat :| LessAt(a, b, i);
    var j: nat :| LessAt(b, c, j);
    if i < j {
      PrefixAt(b, c, j, i);
      assert LessAt(a, c, i);
    } else if j < i {
      PrefixAt(a, b, i, j);
      assert LessAt(a, c, j);
    } else {
      ByteOrder(a[i], b[i], c[i]);
      assert LessAt(a, c, i);
    }
  }

  lemma ByteOrder(x: bv8, y: bv8, z: bv8)
    requires ByteLess(x, y) && ByteLess(y, z)
    ensures ByteLess(x, z)
  {
  }

  lemma LessIsTotal(a: Hash, b: Hash)
    ensures a == b || Less(a, b) || Less(b, a)
  {
    var k := FirstDiff(a, b, 0);
    if k < 32 {
      assert a[..k] == b[..k];
      FirstDifference(a, b, k);
      BytesCompare(a[k], b[k]);
    } else {
      assert a == b;
    }
  }

  /** The first position from `i` on at which the hashes differ, or 32. */
  function FirstDiff(a: Hash, b: Hash, i: nat): (k: nat)
    requires i <= 32
    ensures i <= k <= 32 && forall j :: i <= j < k ==> a[j] == b[j]
    ensures k < 32 ==> a[k] != b[k]
    decreases 32 - i
  {
    if i == 32 || a[i] != b[i] then i else FirstDiff(a, b, i + 1)
  }

  ghost predicate Ascending(listing: seq<Hash>) {
    forall i, j :: 0 <= i < j < |listing| ==> Less(listing[i], listing[j])
  }

  /** The members of a set in order. */
  method SortedIds(s: set<Hash>) returns (listing: seq<Hash>)
    ensures forall q :: q in listing <==> q in s
    ensures Ascending(listing)
  {
    listing := [];
    var rest := s;
    while rest != {}
      invariant rest <= s
      invariant forall q :: q in listing <==> q in s - rest
      invariant Ascending(listing)
      invariant forall i, q :: 0 <= i < |listing| && q in rest ==> Less(listing[i], q)
      decreases |rest|
    {
      var least := Least(rest);
      listing := listing + [least];
      rest := rest - {least};
    }
  }

  method Least(s: set<Hash>) returns (least: Hash)
    requires s != {}
    ensures least in s && forall q :: q in s && q != least ==> Less(least, q)
  {
    least :| least in s;
    var rest := s - {least};
    while rest != {}
      invariant rest <= s && least in s && least !in rest
      invariant forall q :: q in s && q != least ==> q in rest || Less(least, q)
      decreases |rest|
    {
      var q :| q in rest;
      rest := rest - {q};
      var less := IsLess(q, least);
      if less {
        LessThanAll(s, rest, least, q);
        least := q;
      }
    }
  }

  lemma LessThanAll(s: set<Hash>, rest: set<Hash>, least: Hash, q: Hash)
    requires Less(q, least)
    requires forall x :: x in s && x != least && x != q ==> x in rest || Less(least, x)
    ensures forall x :: x in s && x != q ==> x in rest || Less(q, x)
  {
    forall x | x in s && x != q && x !in rest
      ensures Less(q, x)
    {
      if x != least {
        LessIsTransitive(q, least, x);
      }
    }
  }
}
