/** The dependency walk of the memory pool: which pooled ancestors a new
    transaction has, and when the walk gives up. */
module Dependencies {
  import opened Basics

  const MAX_PACKAGE_DEPTH: nat := 50

  /** A pooled transaction. `deps` holds all its pooled ancestors. */
  datatype Entry = Entry(tx: Tx, feeRate: nat, deps: set<Hash>, fee: nat)

  type Entries = map<Hash, Entry>

  // ----- the shape of the recorded dependencies

  ghost predicate DepsPooled(txs: Entries) {
    forall id, d :: id in txs && d in txs[id].deps ==> d in txs
  }

  ghost predicate Transitive(txs: Entries) {
    forall id, d :: id in txs && d in txs[id].deps && d in txs ==> txs[d].deps <= txs[id].deps
  }

  /** No chain of dependencies has more than two links. */
  ghost predicate Shallow(txs: Entries) {
    forall id, d, e :: id in txs && d in txs[id].deps && d in txs && e in txs[d].deps && e in txs ==> txs[e].deps == {}
  }

  /** No ancestor is reached by two routes. */
  ghost predicate SingleRoute(txs: Entries) {
    forall id, d, d', e ::
      && id in txs && d in txs[id].deps && d' in txs[id].deps && d in txs && d' in txs
      && e in txs[d].deps && e in txs[d'].deps
      ==> d == d'
  }

  ghost predicate Shaped(txs: Entries) {
    DepsPooled(txs) && Transitive(txs) && Shallow(txs)
  }

  lemma NotOwnAncestor(txs: Entries, p: Hash)
    requires Shaped(txs) && p in txs
    ensures p !in txs[p].deps
  {
  }

  // ----- what the walk computes

  /** A pooled transaction with its ancestors. */
  function Closure(txs: Entries, p: Hash): set<Hash>
    requires p in txs
  {
    {p} + txs[p].deps
  }

  /** The ancestors of `p` have no ancestors themselves. */
  ghost predicate Flat(txs: Entries, p: Hash)
    requires p in txs
  {
    forall q :: q in txs[p].deps && q in txs ==> txs[q].deps == {}
  }

  predicate AllPooled(txs: Entries, stack: seq<Hash>) {
    forall i :: 0 <= i < |stack| ==> stack[i] in txs
  }

  /** Nothing on the stack leads to anything seen, or to anything else on it. */
  ghost predicate Clear(txs: Entries, stack: seq<Hash>, seen: set<Hash>)
    requires AllPooled(txs, stack)
  {
    && (forall i :: 0 <= i < |stack| ==> Flat(txs, stack[i]))
    && (forall i :: 0 <= i < |stack| ==> Closure(txs, stack[i]) !! seen)
    && (forall i, j :: 0 <= i < j < |stack| ==> Closure(txs, stack[i]) !! Closure(txs, stack[j]))
  }

  /** Everything the stack leads to. */
  function Ancestors(txs: Entries, stack: seq<Hash>): set<Hash>
    requires AllPooled(txs, stack)
  {
    if stack == [] then {} else Ancestors(txs, stack[..|stack| - 1]) + Closure(txs, stack[|stack| - 1])
  }

  /** Every ancestor is found through one of the direct parents. */
  lemma {:induction false} AncestorFrom(txs: Entries, stack: seq<Hash>, a: Hash) returns (i: nat)
    requires AllPooled(txs, stack) && a in Ancestors(txs, stack)
    ensures i < |stack| && a in Closure(txs, stack[i])
  {
    i := |stack| - 1;
    if a !in Closure(txs, stack[i]) {
      i := AncestorFrom(txs, stack[..i], a);
    }
  }

  // ----- one turn of the walk

  /** The stack after its top `p` has been replaced by the ancestors of `p`. */
  ghost predicate Expands(txs: Entries, front: seq<Hash>, p: Hash, listing: seq<Hash>) {
    && p in txs
    && (forall q :: q in listing <==> q in txs[p].deps)
    && (forall i, j :: 0 <= i < j < |listing| ==> listing[i] != listing[j])
    && AllPooled(txs, front + [p]) && AllPooled(txs, front + listing)
  }

  lemma ClearForward(txs: Entries, front: seq<Hash>, p: Hash, listing: seq<Hash>, seen: set<Hash>)
    requires Shaped(txs) && Expands(txs, front, p, listing)
    requires Clear(txs, front + [p], seen)
    ensures Clear(txs, front + listing, seen + {p})
  {
    var before, after := front + [p], front + listing;
    var n := |front|;
    assert before[n] == p;
    NotOwnAncestor(txs, p);
    forall i | 0 <= i < |after|
      ensures Flat(txs, after[i]) && Closure(txs, after[i]) !! seen + {p}
    {
      if i < n {
        assert after[i] == before[i];
      } else {
        assert after[i] in listing;
      }
    }
    forall i, j | 0 <= i < j < |after|
      ensures Closure(txs, after[i]) !! Closure(txs, after[j])
    {
      if i < n {
        assert after[i] == before[i];
        if j >= n {
          assert after[j] in listing;
        } else {
          assert after[j] == before[j];
        }
      } else {
        assert after[i] in listing && after[j] in listing;
      }
    }
  }

  lemma TwoRoutes(txs: Entries, stack: seq<Hash>, i: nat, j: nat, a: Hash, seen: set<Hash>)
    requires AllPooled(txs, stack) && i < |stack| && j < |stack| && i != j
    requires a in Closure(txs, stack[i]) && a in Closure(txs, stack[j])
    ensures !Clear(txs, stack, seen)
  {
    var x, y := if i < j then i else j, if i < j then j else i;
    assert a in Closure(txs, stack[x]) && a in Closure(txs, stack[y]);
  }

  /** If an ancestor of `p` had an ancestor, the walk would meet it twice. */
  lemma ExpandedIsFlat(txs: Entries, front: seq<Hash>, p: Hash, listing: seq<Hash>, seen: set<Hash>)
    requires Shaped(txs) && Expands(txs, front, p, listing)
    requires Clear(txs, front + listing, seen + {p})
    ensures Flat(txs, p)
  {
    forall q | q in txs[p].deps && q in txs
      ensures txs[q].deps == {}
    {
      if r :| r in txs[q].deps {
        ListedTwice(txs, front, p, listing, q, r, seen);
      }
    }
  }

  lemma ListedTwice(txs: Entries, front: seq<Hash>, p: Hash, listing: seq<Hash>, q: Hash, r: Hash, seen: set<Hash>)
    requires Shaped(txs) && Expands(txs, front, p, listing)
    requires q in txs[p].deps && r in txs[q].deps
    ensures !Clear(txs, front + listing, seen + {p})
  {
    hide Clear;
    var after, n := front + listing, |front|;
    NotOwnAncestor(txs, q);
    assert q in listing && r in listing;
    var i :| 0 <= i < |listing| && listing[i] == q;
    var j :| 0 <= j < |listing| && listing[j] == r;
    assert after[n + i] == q && after[n + j] == r;
    TwoRoutes(txs, after, n + i, n + j, r, seen + {p});
  }

  lemma ClearBackward(txs: Entries, front: seq<Hash>, p: Hash, listing: seq<Hash>, seen: set<Hash>)
    requires Shaped(txs) && Expands(txs, front, p, listing) && p !in seen
    requires Clear(txs, front + listing, seen + {p})
    ensures Clear(txs, front + [p], seen)
  {
    var before, after := front + [p], front + listing;
    var n := |front|;
    ExpandedIsFlat(txs, front, p, listing, seen);
    hide Shaped, Flat;
    assert forall i :: 0 <= i < n ==> after[i] == before[i];
    forall a | a in txs[p].deps
      ensures a !in seen && forall i :: 0 <= i < n ==> a !in Closure(txs, before[i])
    {
      AncestorIsApart(txs, front, p, listing, seen, a);
    }
  }

  lemma AncestorIsApart(txs: Entries, front: seq<Hash>, p: Hash, listing: seq<Hash>, seen: set<Hash>, a: Hash)
    requires Expands(txs, front, p, listing) && a in txs[p].deps
    requires Clear(txs, front + listing, seen + {p})
    ensures a !in seen && forall i :: 0 <= i < |front| ==> a !in Closure(txs, (front + listing)[i])
  {
    hide Flat;
    var after, n := front + listing, |front|;
    assert a in listing;
    var k :| 0 <= k < |listing| && listing[k] == a;
    assert after[n + k] == a && a in Closure(txs, after[n + k]);
  }

  lemma {:induction false} AncestorsOfConcat(txs: Entries, front: seq<Hash>, tail: seq<Hash>)
    requires AllPooled(txs, front) && AllPooled(txs, tail)
    ensures AllPooled(txs, front + tail)
    ensures Ancestors(txs, front + tail) == Ancestors(txs, front) + Ancestors(txs, tail)
  {
    if tail == [] {
      assert front + tail == front;
    } else {
      var rest := tail[..|tail| - 1];
      AncestorsOfConcat(txs, front, rest);
      assert (front + tail)[..|front + tail| - 1] == front + rest;
    }
  }

  lemma {:induction false} AncestorsHold(txs: Entries, stack: seq<Hash>, i: nat)
    requires AllPooled(txs, stack) && i < |stack|
    ensures Closure(txs, stack[i]) <= Ancestors(txs, stack)
  {
    if i < |stack| - 1 {
      AncestorsHold(txs, stack[..|stack| - 1], i);
    }
  }

  lemma {:induction false} AncestorsWithin(txs: Entries, stack: seq<Hash>, s: set<Hash>)
    requires AllPooled(txs, stack)
    requires forall i :: 0 <= i < |stack| ==> Closure(txs, stack[i]) <= s
    ensures Ancestors(txs, stack) <= s
  {
    if stack != [] {
      AncestorsWithin(txs, stack[..|stack| - 1], s);
    }
  }

  /** The ancestors of a transaction, listed, lead to nothing new. */
  lemma AncestorsOfListing(txs: Entries, p: Hash, listing: seq<Hash>)
    requires Shaped(txs) && p in txs && AllPooled(txs, listing)
    requires forall q :: q in listing <==> q in txs[p].deps
    ensures Ancestors(txs, listing) == txs[p].deps
  {
    hide Ancestors;
    forall i | 0 <= i < |listing|
      ensures Closure(txs, listing[i]) <= txs[p].deps
    {
      assert listing[i] in listing;
    }
    AncestorsWithin(txs, listing, txs[p].deps);
    forall a | a in txs[p].deps
      ensures a in Ancestors(txs, listing)
    {
      assert a in listing;
      var k :| 0 <= k < |listing| && listing[k] == a;
      AncestorsHold(txs, listing, k);
    }
  }

  /** Expanding the top changes what has been seen, not what will have been. */
  lemma AncestorsStep(txs: Entries, front: seq<Hash>, p: Hash, listing: seq<Hash>, seen: set<Hash>)
    requires Shaped(txs) && Expands(txs, front, p, listing)
    ensures seen + Ancestors(txs, front + [p]) == seen + {p} + Ancestors(txs, front + listing)
  {
    assert AllPooled(txs, front) by {
      assert forall i :: 0 <= i < |front| ==> (front + [p])[i] == front[i];
    }
    assert AllPooled(txs, listing) by {
      assert forall i :: 0 <= i < |listing| ==> (front + listing)[|front| + i] == listing[i];
    }
    AncestorsOfConcat(txs, front, [p]);
    AncestorsOfConcat(txs, front, listing);
    AncestorsOfListing(txs, p, listing);
    assert [p][..0] == [] && Ancestors(txs, [p]) == Closure(txs, p);
  }

  // ----- the walk

  /** A set as a list, in any order. */
  method ListOf(s: set<Hash>) returns (listing: seq<Hash>)
    ensures forall q :: q in listing <==> q in s
    ensures forall i, j :: 0 <= i < j < |listing| ==> listing[i] != listing[j]
    ensures |listing| == |s|
  {
    listing := [];
    var rest := s;
    while rest != {}
      invariant rest <= s
      invariant forall q :: q in listing <==> q in s - rest
      invariant forall i, j :: 0 <= i < j < |listing| ==> listing[i] != listing[j]
      invariant |listing| + |rest| == |s|
      decreases |rest|
    {
      var q :| q in rest;
      assert q !in listing;
      listing := listing + [q];
      rest := rest - {q};
    }
  }

  /** Succeeds exactly when no ancestor is reached twice and there are fewer than
      fifty of them; the result is then the set of all ancestors. */
  method Walk(txs: Entries, direct: seq<Hash>) returns (r: Result<set<Hash>>)
    requires Shaped(txs) && AllPooled(txs, direct)
    ensures r.Ok? <==> Clear(txs, direct, {}) && |Ancestors(txs, direct)| < MAX_PACKAGE_DEPTH
    ensures r.Ok? ==> r.value == Ancestors(txs, direct)
  {
    hide Clear, Ancestors, Shaped;
    var seen: set<Hash> := {};
    var depth := 0;
    var stack := direct;
    while stack != [] && depth < MAX_PACKAGE_DEPTH
      invariant AllPooled(txs, stack)
      invariant depth == |seen| <= MAX_PACKAGE_DEPTH
      invariant Clear(txs, direct, {}) <==> Clear(txs, stack, seen)
      invariant seen + Ancestors(txs, stack) == Ancestors(txs, direct)
      decreases MAX_PACKAGE_DEPTH - depth
    {
      depth := depth + 1;
      var top := |stack| - 1;
      var parent := stack[top];
      if parent in seen {
        TopSeen(txs, stack, seen);
        return Err(DependencyCycle);
      }
      var listing := ListOf(txs[parent].deps);
      ghost var front := stack[..top];
      assert stack == front + [parent];
      ExpandsPooled(txs, front, parent, listing);
      AncestorsStep(txs, front, parent, listing, seen);
      if Clear(txs, stack, seen) {
        ClearForward(txs, front, parent, listing, seen);
      } else if Clear(txs, front + listing, seen + {parent}) {
        ClearBackward(txs, front, parent, listing, seen);
      }
      assert Clear(txs, stack, seen) <==> Clear(txs, front + listing, seen + {parent});
      stack := stack[..top] + listing;
      seen := seen + {parent};
      assert stack == front + listing;
    }
    EmptyStack(txs, seen);
    if depth >= MAX_PACKAGE_DEPTH {
      SubsetSize(seen, Ancestors(txs, direct));
      return Err(PackageDepthExceeded);
    }
    return Ok(seen);
  }

  lemma TopSeen(txs: Entries, stack: seq<Hash>, seen: set<Hash>)
    requires AllPooled(txs, stack) && stack != [] && stack[|stack| - 1] in seen
    ensures !Clear(txs, stack, seen)
  {
    var top := |stack| - 1;
    assert stack[top] in Closure(txs, stack[top]);
  }

  lemma ExpandsPooled(txs: Entries, front: seq<Hash>, p: Hash, listing: seq<Hash>)
    requires Shaped(txs) && AllPooled(txs, front + [p])
    requires forall q :: q in listing <==> (p in txs && q in txs[p].deps)
    requires forall i, j :: 0 <= i < j < |listing| ==> listing[i] != listing[j]
    ensures Expands(txs, front, p, listing)
  {
    assert (front + [p])[|front|] == p;
    assert forall i :: 0 <= i < |front| ==> (front + [p])[i] == front[i];
  }

  lemma EmptyStack(txs: Entries, seen: set<Hash>)
    ensures AllPooled(txs, []) && Clear(txs, [], seen) && Ancestors(txs, []) == {}
  {
  }

  lemma SubsetSize<T>(a: set<T>, b: set<T>)
    requires a <= b
    ensures |a| <= |b|
  {
    assert b == a + (b - a);
  }

  /** The walk's result is closed under recorded dependencies. */
  lemma {:induction false} AncestorsAreClosed(txs: Entries, direct: seq<Hash>)
    requires Shaped(txs) && AllPooled(txs, direct)
    ensures forall a :: a in Ancestors(txs, direct) ==> a in txs && txs[a].deps <= Ancestors(txs, direct)
  {
    if direct != [] {
      AncestorsAreClosed(txs, direct[..|direct| - 1]);
      var p := direct[|direct| - 1];
      forall a | a in Closure(txs, p)
        ensures a in txs && txs[a].deps <= Closure(txs, p)
      {
        ClosedClosure(txs, p, a);
      }
    }
  }

  lemma ClosedClosure(txs: Entries, p: Hash, a: Hash)
    requires Shaped(txs) && p in txs && a in Closure(txs, p)
    ensures a in txs && txs[a].deps <= Closure(txs, p)
  {
  }

  /** It holds the direct parents, and is the least such set. */
  lemma AncestorsAreLeast(txs: Entries, direct: seq<Hash>, s: set<Hash>)
    requires AllPooled(txs, direct)
    requires forall a :: a in s && a in txs ==> txs[a].deps <= s
    ensures (forall i :: 0 <= i < |direct| ==> direct[i] in s) <==> Ancestors(txs, direct) <= s
  {
    hide Ancestors;
    if Ancestors(txs, direct) <= s {
      forall i | 0 <= i < |direct|
        ensures direct[i] in s
      {
        AncestorsHold(txs, direct, i);
      }
    }
    if forall i :: 0 <= i < |direct| ==> direct[i] in s {
      AncestorsWithin(txs, direct, s);
    }
  }

  // ----- adding the transaction keeps the shape

  /** A new transaction whose walk is clear keeps every chain at two links and
      every ancestor on one route. */
  lemma AddedKeepsShape(txs: Entries, direct: seq<Hash>, id: Hash, e: Entry)
    requires Shaped(txs) && SingleRoute(txs) && AllPooled(txs, direct) && id !in txs
    requires Clear(txs, direct, {}) && e.deps == Ancestors(txs, direct)
    ensures Shaped(txs[id := e]) && SingleRoute(txs[id := e])
  {
    AncestorsAreClosed(txs, direct);
    hide Ancestors, Clear, Shaped, SingleRoute;
    forall d | d in e.deps
      ensures forall a :: a in txs[d].deps && a in txs ==> txs[a].deps == {}
    {
      TwoLinks(txs, direct, d);
    }
    StillShaped(txs, id, e);
    forall d, d', a | d in e.deps && d' in e.deps && a in txs[d].deps && a in txs[d'].deps
      ensures d == d'
    {
      OneRoute(txs, direct, d, d', a);
    }
    StillSingleRoute(txs, id, e);
  }

  lemma StillShaped(txs: Entries, id: Hash, e: Entry)
    requires Shaped(txs) && id !in txs
    requires forall d :: d in e.deps ==> d in txs && txs[d].deps <= e.deps
    requires forall d :: d in e.deps ==> forall a :: a in txs[d].deps && a in txs ==> txs[a].deps == {}
    ensures Shaped(txs[id := e])
  {
  }

  lemma StillSingleRoute(txs: Entries, id: Hash, e: Entry)
    requires Shaped(txs) && SingleRoute(txs) && id !in txs
    requires forall d :: d in e.deps ==> d in txs
    requires forall d, d', a :: d in e.deps && d' in e.deps && a in txs[d].deps && a in txs[d'].deps ==> d == d'
    ensures SingleRoute(txs[id := e])
  {
  }

  lemma TwoLinks(txs: Entries, direct: seq<Hash>, d: Hash)
    requires Shaped(txs) && AllPooled(txs, direct) && Clear(txs, direct, {}) && d in Ancestors(txs, direct)
    ensures d in txs && forall a :: a in txs[d].deps ==> txs[a].deps == {}
  {
    var i := AncestorFrom(txs, direct, d);
    assert Flat(txs, direct[i]);
  }

  lemma OneRoute(txs: Entries, direct: seq<Hash>, d: Hash, d': Hash, a: Hash)
    requires Shaped(txs) && AllPooled(txs, direct) && Clear(txs, direct, {})
    requires d in Ancestors(txs, direct) && d' in Ancestors(txs, direct) && d in txs && d' in txs
    requires a in txs[d].deps && a in txs[d'].deps
    ensures d == d'
  {
    var i := AncestorFrom(txs, direct, d);
    var j := AncestorFrom(txs, direct, d');
    assert Flat(txs, direct[i]) && Flat(txs, direct[j]);
    assert d == direct[i] && d' == direct[j];
    if i != j {
      TwoRoutes(txs, direct, i, j, a, {});
    }
  }
}
