/** The Merkle root of a block's transactions. `D` is the digest type and
    `pair` the hash of two digests put together. */
module Merkle {
  // ----- the tree the root stands for

  function Pow2(d: nat): (p: nat)
    ensures p >= 1
  {
    if d == 0 then 1 else 2 * Pow2(d - 1)
  }

  /** How often a list of length `n` is halved before one digest is left. */
  function Depth(n: nat): nat {
    if n <= 1 then 0 else 1 + Depth((n + 1) / 2)
  }

  /** The depth is the least that has room for every leaf. */
  lemma {:induction false} DepthBounds(n: nat)
    requires n >= 1
    ensures n <= Pow2(Depth(n))
    ensures n > 1 ==> Pow2(Depth(n) - 1) < n
  {
    if n > 1 {
      DepthBounds((n + 1) / 2);
    }
  }

  /** The leaf lists of the two subtrees: when the right half has no leaves at
      all, the left half stands in for it. */
  function Halves<D>(s: seq<D>, d: nat): (p: (seq<D>, seq<D>))
    requires d > 0 && s != []
    ensures p.0 != [] && p.1 != []
  {
    var half := Pow2(d - 1);
    if |s| <= half then (s, s) else (s[..half], s[half..])
  }

  /** The root of the perfect tree of depth `d` over `s`, from the top down. */
  function Tree<D>(pair: (D, D) -> D, s: seq<D>, d: nat): D
    requires s != []
    decreases d
  {
    if d == 0 then s[0] else
      var p := Halves(s, d);
      pair(Tree(pair, p.0, d - 1), Tree(pair, p.1, d - 1))
  }

  function Root<D>(pair: (D, D) -> D, s: seq<D>, zero: D): D {
    if s == [] then zero else Tree(pair, s, Depth(|s|))
  }

  // ----- the loop

  /** One pass of the loop: hash neighbours; an odd list ends with its last
      digest paired with itself. */
  function Level<D>(pair: (D, D) -> D, s: seq<D>): (r: seq<D>)
    ensures |r| == (|s| + 1) / 2
  {
    seq((|s| + 1) / 2, i requires 0 <= i < (|s| + 1) / 2 => PairAt(pair, s, i))
  }

  function PairAt<D>(pair: (D, D) -> D, s: seq<D>, i: nat): D
    requires 2 * i < |s|
  {
    pair(s[2 * i], if 2 * i + 1 < |s| then s[2 * i + 1] else s[2 * i])
  }

  method HashPairs<D>(pair: (D, D) -> D, hashes: seq<D>) returns (next: seq<D>)
    requires hashes != []
    ensures next == Level(pair, hashes)
  {
    var padded := hashes;
    if |padded| % 2 == 1 {
      padded := padded + [padded[|padded| - 1]];
    }
    next := [];
    while 2 * |next| < |padded|
      invariant 2 * |next| <= |padded|
      invariant forall i :: 0 <= i < |next| ==> next[i] == PairAt(pair, hashes, i)
    {
      var i := 2 * |next|;
      next := next + [pair(padded[i], padded[i + 1])];
    }
  }

  method ComputeRoot<D>(pair: (D, D) -> D, leaves: seq<D>, zero: D) returns (root: D)
    ensures root == Root(pair, leaves, zero)
  {
    var hashes := leaves;
    if |hashes| == 0 {
      return zero;
    }
    while |hashes| > 1
      invariant |hashes| >= 1
      invariant Root(pair, hashes, zero) == Root(pair, leaves, zero)
      decreases |hashes|
    {
      LevelKeepsRoot(pair, hashes, zero);
      hashes := HashPairs(pair, hashes);
    }
    root := hashes[0];
  }

  /** The roots of up to four transactions, written out. */
  lemma SmallRoots<D>(pair: (D, D) -> D, a: D, b: D, c: D, d: D, zero: D)
    ensures Root(pair, [], zero) == zero && Root(pair, [a], zero) == a
    ensures Root(pair, [a, b], zero) == pair(a, b)
    ensures Root(pair, [a, b, c], zero) == pair(pair(a, b), pair(c, c))
    ensures Root(pair, [a, b, c, d], zero) == pair(pair(a, b), pair(c, d))
  {
    assert Depth(2) == 1 && Depth(3) == 2 && Depth(4) == 2;
    assert Pow2(0) == 1 && Pow2(1) == 2;
    assert [a, b][..1] == [a] && [a, b][1..] == [b];
    assert [a, b, c][..2] == [a, b] && [a, b, c][2..] == [c];
    assert [a, b, c, d][..2] == [a, b] && [a, b, c, d][2..] == [c, d];
    assert [c, d][..1] == [c] && [c, d][1..] == [d];
    assert Tree(pair, [a, b], 1) == pair(a, b) && Tree(pair, [c], 1) == pair(c, c);
    assert Tree(pair, [c, d], 1) == pair(c, d);
  }

  lemma LevelSplit<D>(pair: (D, D) -> D, s: seq<D>, q: nat)
    requires 2 * q < |s|
    ensures Level(pair, s)[..q] == Level(pair, s[..2 * q])
    ensures Level(pair, s)[q..] == Level(pair, s[2 * q..])
  {
    var left, right := s[..2 * q], s[2 * q..];
    assert forall i :: 0 <= i < q ==> PairAt(pair, left, i) == PairAt(pair, s, i);
    assert forall i :: 0 <= i < (|right| + 1) / 2 ==> PairAt(pair, right, i) == PairAt(pair, s, q + i);
  }

  /** Passing to the next level commutes with splitting the tree. */
  lemma HalvesOfLevel<D>(pair: (D, D) -> D, s: seq<D>, d: nat)
    requires d > 1 && s != []
    ensures Halves(Level(pair, s), d - 1).0 == Level(pair, Halves(s, d).0)
    ensures Halves(Level(pair, s), d - 1).1 == Level(pair, Halves(s, d).1)
  {
    var half, q := Pow2(d - 1), Pow2(d - 2);
    assert half == 2 * q;
    if |s| > half {
      LevelSplit(pair, s, q);
    }
  }

  /** Halving the list takes one layer off the tree. */
  lemma {:induction false} LevelIsOneLayer<D>(pair: (D, D) -> D, s: seq<D>, d: nat)
    requires 1 <= d && s != []
    ensures Tree(pair, s, d) == Tree(pair, Level(pair, s), d - 1)
  {
    var (l, r) := Halves(s, d);
    if d > 1 {
      LevelIsOneLayer(pair, l, d - 1);
      LevelIsOneLayer(pair, r, d - 1);
      HalvesOfLevel(pair, s, d);
    }
  }

  lemma OneLayerLess<D>(pair: (D, D) -> D, s: seq<D>, v: seq<D>, d: nat, zero: D)
    requires s != [] && v != [] && d > 0 && Depth(|s|) == d && Depth(|v|) == d - 1
    requires Tree(pair, s, d) == Tree(pair, v, d - 1)
    ensures Root(pair, v, zero) == Root(pair, s, zero)
  {
  }

  lemma DepthStep(n: nat)
    requires n > 1
    ensures Depth(n) == 1 + Depth((n + 1) / 2)
  {
  }

  lemma LevelKeepsRoot<D>(pair: (D, D) -> D, s: seq<D>, zero: D)
    requires |s| > 1
    ensures Root(pair, Level(pair, s), zero) == Root(pair, s, zero)
  {
    DepthStep(|s|);
    LevelIsOneLayer(pair, s, Depth(|s|));
    OneLayerLess(pair, s, Level(pair, s), Depth(|s|), zero);
  }

  // ----- which lists share a root

  /** An odd list and the list that repeats its last element have the same root. */
  lemma DuplicateLast<D>(pair: (D, D) -> D, s: seq<D>, zero: D)
    requires |s| > 1 && |s| % 2 == 1
    ensures Root(pair, s + [s[|s| - 1]], zero) == Root(pair, s, zero)
  {
    var t := s + [s[|s| - 1]];
    assert forall i :: 0 <= i < (|s| + 1) / 2 ==> PairAt(pair, t, i) == PairAt(pair, s, i);
    assert Level(pair, t) == Level(pair, s);
    LevelKeepsRoot(pair, s, zero);
    LevelKeepsRoot(pair, t, zero);
  }

  datatype Node<D> = Leaf(digest: D) | Branch(left: Node<D>, right: Node<D>)

  /** The perfect tree of depth `d` over `s`, built from the top. */
  function Build<D>(s: seq<D>, d: nat): Node<D>
    requires s != []
    decreases d
  {
    if d == 0 then Leaf(s[0]) else
      var p := Halves(s, d);
      Branch(Build(p.0, d - 1), Build(p.1, d - 1))
  }

  function Digest<D>(pair: (D, D) -> D, node: Node<D>): D {
    match node
    case Leaf(x) => x
    case Branch(l, r) => pair(Digest(pair, l), Digest(pair, r))
  }

  function Leaves<D>(node: Node<D>): seq<D> {
    match node
    case Leaf(x) => [x]
    case Branch(l, r) => Leaves(l) + Leaves(r)
  }

  predicate Perfect<D>(node: Node<D>, d: nat) {
    match node
    case Leaf(_) => d == 0
    case Branch(l, r) => d > 0 && Perfect(l, d - 1) && Perfect(r, d - 1)
  }

  function Padded<D>(s: seq<D>): Node<D>
    requires s != []
  {
    Build(s, Depth(|s|))
  }

  lemma {:induction false} DigestOfBuild<D>(pair: (D, D) -> D, s: seq<D>, d: nat)
    requires s != []
    ensures Digest(pair, Build(s, d)) == Tree(pair, s, d)
  {
    if d > 0 {
      var p := Halves(s, d);
      DigestOfBuild(pair, p.0, d - 1);
      DigestOfBuild(pair, p.1, d - 1);
    }
  }

  lemma {:induction false} BuildIsPerfect<D>(s: seq<D>, d: nat)
    requires 1 <= |s| <= Pow2(d)
    ensures Perfect(Build(s, d), d)
    ensures |Leaves(Build(s, d))| == Pow2(d) && s <= Leaves(Build(s, d))
  {
    if d > 0 {
      var (l, r) := Halves(s, d);
      BuildIsPerfect(l, d - 1);
      BuildIsPerfect(r, d - 1);
      var left, right := Leaves(Build(l, d - 1)), Leaves(Build(r, d - 1));
      assert Leaves(Build(s, d)) == left + right;
      PrefixOfHalves(s, l, r, left, right);
    }
  }

  lemma PrefixOfHalves<D>(s: seq<D>, l: seq<D>, r: seq<D>, left: seq<D>, right: seq<D>)
    requires l <= left && r <= right
    requires s == l || (s == l + r && l == left)
    ensures s <= left + right
  {
  }

  /** If two different trees of the same depth have the same digest, two
      different pairs with the same hash can be read off them. */
  lemma {:induction false} Collision<D>(pair: (D, D) -> D, m: Node<D>, n: Node<D>, d: nat)
    returns (a: D, b: D, a': D, b': D)
    requires Perfect(m, d) && Perfect(n, d) && m != n
    requires Digest(pair, m) == Digest(pair, n)
    ensures (a, b) != (a', b') && pair(a, b) == pair(a', b')
    decreases m
  {
    if m.Leaf? || n.Leaf? {
      assert false;
    } else {
      a, b := Digest(pair, m.left), Digest(pair, m.right);
      a', b' := Digest(pair, n.left), Digest(pair, n.right);
      if (a, b) == (a', b') {
        if m.left != n.left {
          a, b, a', b' := Collision(pair, m.left, n.left, d - 1);
        } else {
          a, b, a', b' := Collision(pair, m.right, n.right, d - 1);
        }
      }
    }
  }

  ghost predicate Injective<D(!new)>(pair: (D, D) -> D) {
    forall a, b, c, d {:trigger pair(a, b), pair(c, d)} :: pair(a, b) == pair(c, d) ==> a == c && b == d
  }

  /** Without collisions, lists of the same depth share a root exactly when
      padding makes them the same tree. */
  lemma SameRootIff<D(!new)>(pair: (D, D) -> D, s: seq<D>, t: seq<D>, zero: D)
    requires Injective(pair)
    requires s != [] && t != [] && Depth(|s|) == Depth(|t|)
    ensures Root(pair, s, zero) == Root(pair, t, zero) <==> Padded(s) == Padded(t)
  {
    var d := Depth(|s|);
    DepthBounds(|s|);
    DepthBounds(|t|);
    BuildIsPerfect(s, d);
    BuildIsPerfect(t, d);
    DigestOfBuild(pair, s, d);
    DigestOfBuild(pair, t, d);
    if Padded(s) != Padded(t) && Root(pair, s, zero) == Root(pair, t, zero) {
      var a, b, a', b' := Collision(pair, Padded(s), Padded(t), d);
    }
  }

  /** In particular the root pins down every list of a known length. */
  lemma RootDeterminesList<D(!new)>(pair: (D, D) -> D, s: seq<D>, t: seq<D>, zero: D)
    requires Injective(pair)
    requires |s| == |t|
    ensures Root(pair, s, zero) == Root(pair, t, zero) <==> s == t
  {
    if s != [] {
      SameRootIff(pair, s, t, zero);
      DepthBounds(|s|);
      BuildIsPerfect(s, Depth(|s|));
      BuildIsPerfect(t, Depth(|s|));
      assert Leaves(Padded(s))[..|s|] == s && Leaves(Padded(t))[..|t|] == t;
    }
  }
}
