/** Packages of pooled transactions: a transaction behind its ancestors, as the
    walk over the ancestors collects them. */
module Packages {
  import opened Basics
  import opened Sums
  import opened Dependencies
  import opened Mempool

  function DepCount(e: Entry): nat {
    |e.deps|
  }

  /** The dependencies recorded by the members of a set, counted one by one. */
  ghost function Links(txs: Entries, ids: set<Hash>): nat {
    MapSum(map q | q in ids && q in txs :: txs[q], DepCount)
  }

  /** How many turns the walk over the ancestors of `id` needs. */
  ghost function Turns(txs: Entries, id: Hash): nat
    requires id in txs
  {
    |txs[id].deps| + Links(txs, txs[id].deps)
  }

  function TotalSize(s: seq<Tx>): nat {
    if s == [] then 0 else s[0].size + TotalSize(s[1..])
  }

  lemma {:induction false} TotalSizeConcat(s: seq<Tx>, t: seq<Tx>)
    ensures TotalSize(s + t) == TotalSize(s) + TotalSize(t)
  {
    if s == [] {
      assert s + t == t;
    } else {
      assert (s + t)[1..] == s[1..] + t;
      TotalSizeConcat(s[1..], t);
    }
  }

  predicate Holds(s: seq<Tx>, id: Hash) {
    exists k :: 0 <= k < |s| && s[k].id == id
  }

  function HeadOf(package: seq<Tx>): Hash
    requires package != []
  {
    package[|package| - 1].id
  }

  predicate AllFrom(txs: Entries, s: seq<Tx>) {
    forall k :: 0 <= k < |s| ==> s[k].id in txs && txs[s[k].id].tx == s[k]
  }

  predicate Distinct(s: seq<Tx>) {
    forall i, j :: 0 <= i < j < |s| ==> s[i].id != s[j].id
  }

  /** A transaction after ancestors of it: all of them, unless the walk over
      them is cut off. */
  ghost predicate IsPackage(txs: Entries, package: seq<Tx>) {
    && package != [] && AllFrom(txs, package) && Distinct(package)
    && var head := HeadOf(package);
       && (forall id :: Holds(package, id) ==> id == head || id in txs[head].deps)
       && (Turns(txs, head) <= MAX_PACKAGE_DEPTH ==> forall d :: d in txs[head].deps ==> Holds(package, d))
       && TotalSize(package) <= txs[head].tx.size + SizeOf(txs, txs[head].deps) <= MAX_PACKAGE_SIZE
  }

  // ----- the walk over the ancestors

  lemma LinksOneLess(txs: Entries, ids: set<Hash>, q: Hash)
    requires q in ids && q in txs
    ensures Links(txs, ids) == Links(txs, ids - {q}) + |txs[q].deps|
  {
    var m, m' := map x | x in ids && x in txs :: txs[x], map x | x in ids - {q} && x in txs :: txs[x];
    assert m == m'[q := txs[q]];
    MapSumInsert(m', q, txs[q], DepCount);
  }

  lemma LinksOfNone(txs: Entries)
    ensures Links(txs, {}) == 0
  {
  }

  ghost predicate Pending(deps: set<Hash>, visited: set<Hash>, stack: seq<Hash>) {
    && visited <= deps
    && (forall i :: 0 <= i < |stack| ==> stack[i] in deps)
    && (forall d :: d in deps ==> d in visited || d in stack)
  }

  lemma TopIsPending(deps: set<Hash>, visited: set<Hash>, stack: seq<Hash>)
    requires Pending(deps, visited, stack) && stack != []
    ensures var top := stack[|stack| - 1];
            top in deps && Pending(deps, visited + {top}, stack[..|stack| - 1])
  {
    var n := |stack| - 1;
    assert stack == stack[..n] + [stack[n]];
  }

  lemma MorePending(deps: set<Hash>, visited: set<Hash>, stack: seq<Hash>, more: seq<Hash>)
    requires Pending(deps, visited, stack) && forall q :: q in more ==> q in deps
    ensures Pending(deps, visited, stack + more)
  {
  }

  lemma NothingPending(deps: set<Hash>, visited: set<Hash>)
    requires Pending(deps, visited, [])
    ensures visited == deps
  {
  }

  lemma AllPending(deps: set<Hash>, stack: seq<Hash>)
    requires forall q :: q in stack <==> q in deps
    ensures Pending(deps, {}, stack)
  {
  }

  // ----- the order inside a package

  /** No transaction stands in front of one it depends on. */
  ghost predicate Ordered(txs: Entries, package: seq<Tx>) {
    forall i, j :: 0 <= i < j < |package| && package[i].id in txs ==> package[j].id !in txs[package[i].id].deps
  }

  lemma PrependOrdered(txs: Entries, package: seq<Tx>, parent: Hash)
    requires parent in txs && txs[parent].tx.id == parent
    ensures Ordered(txs, [txs[parent].tx] + package)
            <==> Ordered(txs, package) && forall d :: d in txs[parent].deps ==> !Holds(package, d)
  {
    var more := [txs[parent].tx] + package;
    assert more[0].id == parent;
    assert forall k :: 0 < k < |more| ==> more[k] == package[k - 1];
    if Ordered(txs, more) {
      forall i, j | 0 <= i < j < |package| && package[i].id in txs
        ensures package[j].id !in txs[package[i].id].deps
      {
        assert more[i + 1] == package[i] && more[j + 1] == package[j];
      }
      forall d | d in txs[parent].deps
        ensures !Holds(package, d)
      {
        assert forall k :: 0 <= k < |package| ==> more[k + 1].id == package[k].id;
      }
    }
  }

  /** From position `m` on, the listing names no transaction before one of its
      ancestors. */
  ghost predicate AncestorsFirst(txs: Entries, order: seq<Hash>, m: nat) {
    forall a, k :: m <= a < k < |order| && order[a] in txs ==> order[k] !in txs[order[a]].deps
  }

  /** `y` is listed from position `m` on, or an ancestor of one that is. */
  ghost predicate SeenFrom(txs: Entries, order: seq<Hash>, m: nat, y: Hash) {
    exists k :: m <= k < |order| && (y == order[k] || (order[k] in txs && y in txs[order[k]].deps))
  }

  /** The ancestors of `id`, each listed once. */
  ghost predicate Lists(txs: Entries, id: Hash, order: seq<Hash>)
    requires id in txs
  {
    && (forall q :: q in order <==> q in txs[id].deps)
    && (forall i, j :: 0 <= i < j < |order| ==> order[i] != order[j])
  }

  /** The walk has popped the listing down to position `m`; what those led to has
      been visited or is still on top of the stack. */
  ghost predicate Tracks(txs: Entries, order: seq<Hash>, m: nat, tail: seq<Hash>, visited: set<Hash>) {
    && m <= |order|
    && (forall t :: t in tail ==> t in txs && txs[t].deps == {})
    && (forall y :: y in visited || y in tail <==> SeenFrom(txs, order, m, y))
  }

  lemma TailPop(txs: Entries, order: seq<Hash>, m: nat, tail: seq<Hash>, visited: set<Hash>)
    requires Tracks(txs, order, m, tail, visited) && tail != []
    ensures var n := |tail| - 1;
            && tail[n] in txs && txs[tail[n]].deps == {}
            && Tracks(txs, order, m, tail[..n], visited + {tail[n]})
  {
    hide SeenFrom;
    var n := |tail| - 1;
    assert tail == tail[..n] + [tail[n]];
    assert tail[n] in tail;
  }

  lemma SeenStep(txs: Entries, order: seq<Hash>, m: nat, y: Hash)
    requires 0 < m <= |order| && order[m - 1] in txs
    ensures SeenFrom(txs, order, m - 1, y)
            <==> SeenFrom(txs, order, m, y) || y == order[m - 1] || y in txs[order[m - 1]].deps
  {
    if SeenFrom(txs, order, m - 1, y) {
      var k :| m - 1 <= k < |order| && (y == order[k] || (order[k] in txs && y in txs[order[k]].deps));
    }
  }

  lemma FirstStep(txs: Entries, order: seq<Hash>, m: nat)
    requires 0 < m <= |order| && order[m - 1] in txs
    ensures AncestorsFirst(txs, order, m - 1)
            <==> AncestorsFirst(txs, order, m) && forall k :: m <= k < |order| ==> order[k] !in txs[order[m - 1]].deps
  {
  }

  /** A listed transaction that has been visited already is an ancestor of one
      listed behind it, and has no ancestors itself. */
  lemma VisitedPop(txs: Entries, id: Hash, order: seq<Hash>, m: nat, visited: set<Hash>)
    requires Shaped(txs) && id in txs && Lists(txs, id, order) && 0 < m
    requires Tracks(txs, order, m, [], visited) && order[m - 1] in visited
    ensures Tracks(txs, order, m - 1, [], visited)
    ensures AncestorsFirst(txs, order, m - 1) <==> AncestorsFirst(txs, order, m)
  {
    hide Shaped, Lists, SeenFrom, AncestorsFirst;
    SeenAgain(txs, order, m, visited);
    VisitedIsFlat(txs, id, order, m);
    hide Tracks;
    FirstStep(txs, order, m);
    forall y
      ensures SeenFrom(txs, order, m - 1, y) <==> SeenFrom(txs, order, m, y)
    {
      SeenStep(txs, order, m, y);
    }
    TracksSame(txs, order, m, visited);
  }

  lemma SeenAgain(txs: Entries, order: seq<Hash>, m: nat, visited: set<Hash>)
    requires 0 < m && Tracks(txs, order, m, [], visited) && order[m - 1] in visited
    ensures SeenFrom(txs, order, m, order[m - 1])
  {
    hide SeenFrom;
  }

  lemma TracksSame(txs: Entries, order: seq<Hash>, m: nat, visited: set<Hash>)
    requires 0 < m && Tracks(txs, order, m, [], visited)
    requires forall y :: SeenFrom(txs, order, m - 1, y) <==> SeenFrom(txs, order, m, y)
    ensures Tracks(txs, order, m - 1, [], visited)
  {
    hide SeenFrom;
  }

  lemma VisitedIsFlat(txs: Entries, id: Hash, order: seq<Hash>, m: nat)
    requires Shaped(txs) && id in txs && Lists(txs, id, order) && 0 < m <= |order|
    requires SeenFrom(txs, order, m, order[m - 1])
    ensures order[m - 1] in txs && txs[order[m - 1]].deps == {}
  {
    var x := order[m - 1];
    assert x in order;
    var k :| m <= k < |order| && (x == order[k] || (order[k] in txs && x in txs[order[k]].deps));
    assert order[k] in order;
  }

  lemma FreshPop(txs: Entries, id: Hash, order: seq<Hash>, m: nat, visited: set<Hash>, more: seq<Hash>)
    requires Shaped(txs) && SingleRoute(txs) && id in txs && Lists(txs, id, order) && 0 < m
    requires Tracks(txs, order, m, [], visited) && order[m - 1] !in visited && order[m - 1] in txs
    requires forall q :: q in more <==> q in txs[order[m - 1]].deps
    ensures Tracks(txs, order, m - 1, more, visited + {order[m - 1]})
    ensures AncestorsFirst(txs, order, m - 1)
            <==> AncestorsFirst(txs, order, m) && forall d :: d in txs[order[m - 1]].deps ==> d !in visited
  {
    hide Shaped, SingleRoute, Lists, SeenFrom, AncestorsFirst;
    MoreIsFlat(txs, id, order, m, more);
    MoreIsSeen(txs, order, m, visited, more);
    hide Tracks;
    FirstStep(txs, order, m);
    NoneSeenIff(txs, id, order, m, visited);
  }

  lemma MoreIsFlat(txs: Entries, id: Hash, order: seq<Hash>, m: nat, more: seq<Hash>)
    requires Shaped(txs) && id in txs && Lists(txs, id, order) && 0 < m <= |order| && order[m - 1] in txs
    requires forall q :: q in more <==> q in txs[order[m - 1]].deps
    ensures forall t :: t in more ==> t in txs && txs[t].deps == {}
  {
    assert order[m - 1] in order;
  }

  lemma MoreIsSeen(txs: Entries, order: seq<Hash>, m: nat, visited: set<Hash>, more: seq<Hash>)
    requires 0 < m && Tracks(txs, order, m, [], visited) && order[m - 1] in txs
    requires forall q :: q in more <==> q in txs[order[m - 1]].deps
    requires forall t :: t in more ==> t in txs && txs[t].deps == {}
    ensures Tracks(txs, order, m - 1, more, visited + {order[m - 1]})
  {
    hide SeenFrom;
    forall y
      ensures y in visited + {order[m - 1]} || y in more <==> SeenFrom(txs, order, m - 1, y)
    {
      SeenStep(txs, order, m, y);
    }
  }

  lemma NoneSeenIff(txs: Entries, id: Hash, order: seq<Hash>, m: nat, visited: set<Hash>)
    requires Shaped(txs) && SingleRoute(txs) && id in txs && Lists(txs, id, order) && 0 < m
    requires Tracks(txs, order, m, [], visited) && order[m - 1] in txs
    ensures (forall k :: m <= k < |order| ==> order[k] !in txs[order[m - 1]].deps)
            <==> forall d :: d in txs[order[m - 1]].deps ==> d !in visited
  {
    hide Shaped, SingleRoute, Lists, SeenFrom;
    var deps := txs[order[m - 1]].deps;
    forall d | d in deps
      ensures d in visited <==> exists k :: m <= k < |order| && order[k] == d
    {
      OnlyListed(txs, id, order, m, d);
    }
  }

  /** On single routes an ancestor of the next listed transaction has been seen
      exactly when it is listed itself. */
  lemma OnlyListed(txs: Entries, id: Hash, order: seq<Hash>, m: nat, d: Hash)
    requires Shaped(txs) && SingleRoute(txs) && id in txs && Lists(txs, id, order) && 0 < m <= |order|
    requires order[m - 1] in txs && d in txs[order[m - 1]].deps
    ensures SeenFrom(txs, order, m, d) <==> exists k :: m <= k < |order| && order[k] == d
  {
    assert order[m - 1] in order;
    forall k | m <= k < |order| && order[k] in txs
      ensures d !in txs[order[k]].deps
    {
      assert order[k] in order && order[k] != order[m - 1];
    }
  }

  /** The package so far: the transaction behind the visited ancestors. */
  ghost predicate Collected(txs: Entries, id: Hash, package: seq<Tx>, size: nat, visited: set<Hash>)
    requires id in txs
  {
    && package != [] && package[|package| - 1] == txs[id].tx
    && AllFrom(txs, package) && Distinct(package)
    && (forall q :: Holds(package, q) <==> q == id || q in visited)
    && size == TotalSize(package) == txs[id].tx.size + SizeOf(txs, visited)
  }

  lemma CollectMore(txs: Entries, id: Hash, package: seq<Tx>, size: nat, visited: set<Hash>, parent: Hash)
    requires Shaped(txs) && AllWellAdmitted(txs) && id in txs && parent in txs[id].deps
    requires Collected(txs, id, package, size, visited) && parent !in visited
    ensures parent in txs && txs[parent].deps <= txs[id].deps
    ensures Collected(txs, id, [txs[parent].tx] + package, size + txs[parent].tx.size, visited + {parent})
    ensures Ordered(txs, [txs[parent].tx] + package)
            <==> Ordered(txs, package) && forall d :: d in txs[parent].deps ==> d !in visited
  {
    hide SizeOf, Shaped, Holds, Distinct, AllFrom, AllWellAdmitted, TotalSize, Ordered;
    DepsOfDep(txs, id, parent);
    SizeOfOneMore(txs, visited, parent);
    IdOf(txs, parent);
    Prepend(txs, package, parent);
    PrependHolds(txs[parent].tx, package);
    PrependOrdered(txs, package, parent);
    NotAncestorOf(txs, id, parent);
  }

  /** The stack is the unpopped listing with a tail on top, and the order so far
      is right exactly when the popped listing is. */
  ghost predicate Walking(txs: Entries, order: seq<Hash>, m: nat, tail: seq<Hash>, stack: seq<Hash>,
                          visited: set<Hash>, package: seq<Tx>) {
    && m <= |order| && stack == order[..m] + tail && Tracks(txs, order, m, tail, visited)
    && (Ordered(txs, package) <==> AncestorsFirst(txs, order, m))
  }

  /** The turns taken, those on the stack and those still hidden behind it. */
  ghost predicate OnTime(txs: Entries, id: Hash, depth: nat, stack: seq<Hash>, visited: set<Hash>)
    requires id in txs
  {
    depth + |stack| + Links(txs, txs[id].deps - visited) == Turns(txs, id)
  }

  /** Collects the ancestors in front of the transaction, starting from any
      listing of them. The walk is cut off exactly when it needs more than fifty
      turns; otherwise the package is ordered exactly when the listing names
      ancestors first. */
  method WalkPackage(txs: Entries, id: Hash, order: seq<Hash>)
    returns (package: seq<Tx>, size: nat, visited: set<Hash>, ghost cut: bool)
    requires Shaped(txs) && SingleRoute(txs) && AllWellAdmitted(txs) && id in txs && Lists(txs, id, order)
    ensures Collected(txs, id, package, size, visited) && visited <= txs[id].deps
    ensures cut <==> Turns(txs, id) > MAX_PACKAGE_DEPTH
    ensures !cut ==> visited == txs[id].deps
    ensures !cut ==> (Ordered(txs, package) <==> AncestorsFirst(txs, order, 0))
  {
    hide Shaped, SingleRoute, AllWellAdmitted, Lists, Pending, Collected, Ordered, AncestorsFirst, Walking;
    hide OnTime, Turns;
    package := [txs[id].tx];
    size := txs[id].tx.size;
    visited := {};
    var stack := order;
    var depth := 0;
    cut := false;
    ghost var m: nat, tail: seq<Hash> := |order|, [];
    StartPackage(txs, id);
    StartWalking(txs, id, order);
    while stack != []
      invariant Collected(txs, id, package, size, visited)
      invariant visited <= txs[id].deps && Pending(txs[id].deps, visited, stack)
      invariant OnTime(txs, id, depth, stack, visited) && Walking(txs, order, m, tail, stack, visited, package)
      invariant depth <= MAX_PACKAGE_DEPTH && !cut
      decreases MAX_PACKAGE_DEPTH - depth
    {
      var parent := stack[|stack| - 1];
      TopIsPending(txs[id].deps, visited, stack);
      depth := depth + 1;
      if depth > MAX_PACKAGE_DEPTH {
        Late(txs, id, depth - 1, stack, visited);
        cut := true;
        break;
      }
      ghost var full := stack;
      stack := stack[..|stack| - 1];
      if parent in visited {
        assert visited + {parent} == visited;
        TurnOver(txs, id, depth - 1, full, visited);
        m, tail := PopVisited(txs, id, order, m, tail, full, visited, package);
      } else {
        CollectMore(txs, id, package, size, visited, parent);
        var more := ListOf(txs[parent].deps);
        TurnAndPush(txs, id, depth - 1, full, visited, more);
        m, tail := PopFresh(txs, id, order, m, tail, full, visited, package, more);
        visited := visited + {parent};
        package := [txs[parent].tx] + package;
        size := size + txs[parent].tx.size;
        MorePending(txs[id].deps, visited, stack, more);
        stack := stack + more;
      }
    }
    if !cut {
      NothingPending(txs[id].deps, visited);
      InTime(txs, id, depth);
      WalkEnds(txs, order, m, tail, visited, package);
    }
  }

  lemma StartWalking(txs: Entries, id: Hash, order: seq<Hash>)
    requires id in txs && Lists(txs, id, order)
    ensures Walking(txs, order, |order|, [], order, {}, [txs[id].tx])
    ensures Pending(txs[id].deps, {}, order) && OnTime(txs, id, 0, order, {})
  {
    StartTracking(txs, id, order);
    AllPending(txs[id].deps, order);
    ListsSize(order, txs[id].deps);
    assert txs[id].deps - {} == txs[id].deps;
  }

  lemma WalkEnds(txs: Entries, order: seq<Hash>, m: nat, tail: seq<Hash>, visited: set<Hash>, package: seq<Tx>)
    requires Walking(txs, order, m, tail, [], visited, package)
    ensures Ordered(txs, package) <==> AncestorsFirst(txs, order, 0)
  {
    assert m == 0;
  }

  lemma Late(txs: Entries, id: Hash, depth: nat, stack: seq<Hash>, visited: set<Hash>)
    requires id in txs && OnTime(txs, id, depth, stack, visited) && stack != []
    ensures Turns(txs, id) > depth
  {
  }

  lemma InTime(txs: Entries, id: Hash, depth: nat)
    requires id in txs && OnTime(txs, id, depth, [], txs[id].deps)
    ensures Turns(txs, id) == depth
  {
    assert txs[id].deps - txs[id].deps == {};
    LinksOfNone(txs);
  }

  lemma TurnOver(txs: Entries, id: Hash, depth: nat, stack: seq<Hash>, visited: set<Hash>)
    requires id in txs && OnTime(txs, id, depth, stack, visited) && stack != []
    ensures OnTime(txs, id, depth + 1, stack[..|stack| - 1], visited)
  {
  }

  lemma TurnAndPush(txs: Entries, id: Hash, depth: nat, stack: seq<Hash>, visited: set<Hash>, more: seq<Hash>)
    requires id in txs && OnTime(txs, id, depth, stack, visited) && stack != []
    requires var parent := stack[|stack| - 1];
             parent in txs[id].deps && parent !in visited && parent in txs && |more| == |txs[parent].deps|
    ensures OnTime(txs, id, depth + 1, stack[..|stack| - 1] + more, visited + {stack[|stack| - 1]})
  {
    hide Links;
    var deps, parent := txs[id].deps, stack[|stack| - 1];
    LinksOneLess(txs, deps - visited, parent);
    assert deps - visited - {parent} == deps - (visited + {parent});
  }

  lemma NotAncestorOf(txs: Entries, id: Hash, parent: Hash)
    requires Shaped(txs) && id in txs && parent in txs[id].deps && parent in txs
    ensures id !in txs[parent].deps
  {
  }

  lemma StartTracking(txs: Entries, id: Hash, order: seq<Hash>)
    requires id in txs && Lists(txs, id, order)
    ensures Tracks(txs, order, |order|, [], {}) && order[..|order|] + [] == order
    ensures Ordered(txs, [txs[id].tx]) && AncestorsFirst(txs, order, |order|)
  {
  }

  lemma {:induction false} ListsSize(order: seq<Hash>, s: set<Hash>)
    requires forall q :: q in order <==> q in s
    requires forall i, j :: 0 <= i < j < |order| ==> order[i] != order[j]
    ensures |order| == |s|
  {
    if order == [] {
      assert s == {};
    } else {
      var n := |order| - 1;
      assert order == order[..n] + [order[n]] && order[n] !in order[..n];
      ListsSize(order[..n], s - {order[n]});
    }
  }

  /** Popping a visited transaction off the listing or off its top. */
  lemma PopVisited(txs: Entries, id: Hash, order: seq<Hash>, m: nat, tail: seq<Hash>, stack: seq<Hash>,
                   visited: set<Hash>, package: seq<Tx>)
    returns (m': nat, tail': seq<Hash>)
    requires Shaped(txs) && id in txs && Lists(txs, id, order)
    requires Walking(txs, order, m, tail, stack, visited, package) && stack != [] && stack[|stack| - 1] in visited
    ensures Walking(txs, order, m', tail', stack[..|stack| - 1], visited, package)
  {
    hide Shaped, Lists, AncestorsFirst, Tracks, Ordered;
    if tail != [] {
      TailPop(txs, order, m, tail, visited);
      m', tail' := m, tail[..|tail| - 1];
      assert visited + {tail[|tail| - 1]} == visited;
    } else {
      VisitedPop(txs, id, order, m, visited);
      m', tail' := m - 1, [];
    }
  }

  /** Popping a new transaction and pushing its ancestors. */
  lemma PopFresh(txs: Entries, id: Hash, order: seq<Hash>, m: nat, tail: seq<Hash>, stack: seq<Hash>,
                 visited: set<Hash>, package: seq<Tx>, more: seq<Hash>)
    returns (m': nat, tail': seq<Hash>)
    requires Shaped(txs) && SingleRoute(txs) && id in txs && Lists(txs, id, order)
    requires Walking(txs, order, m, tail, stack, visited, package) && stack != []
    requires var x := stack[|stack| - 1];
             && x !in visited && x in txs && (forall q :: q in more <==> q in txs[x].deps)
             && (Ordered(txs, [txs[x].tx] + package)
                 <==> Ordered(txs, package) && forall d :: d in txs[x].deps ==> d !in visited)
    ensures var x := stack[|stack| - 1];
            Walking(txs, order, m', tail', stack[..|stack| - 1] + more, visited + {x}, [txs[x].tx] + package)
  {
    hide Shaped, SingleRoute, Lists, AncestorsFirst, Tracks, Ordered;
    if tail != [] {
      TailPop(txs, order, m, tail, visited);
      NoMembers(more);
      m', tail' := m, tail[..|tail| - 1];
    } else {
      FreshPop(txs, id, order, m, visited, more);
      m', tail' := m - 1, more;
    }
  }

  lemma NoMembers(s: seq<Hash>)
    ensures s == [] || s[0] in s
  {
  }

  // ----- which packages are always ordered

  /** Whatever the listing, the package of a transaction is ordered if and only if
      no ancestor of it has ancestors. */
  lemma AlwaysOrderedIff(txs: Entries, id: Hash)
    requires Shaped(txs) && id in txs
    ensures (forall order :: Lists(txs, id, order) ==> AncestorsFirst(txs, order, 0)) <==> Flat(txs, id)
  {
    if Flat(txs, id) {
      forall order | Lists(txs, id, order)
        ensures AncestorsFirst(txs, order, 0)
      {
        FlatIsOrdered(txs, id, order);
      }
    } else {
      var d :| d in txs[id].deps && d in txs && txs[d].deps != {};
      var g :| g in txs[d].deps;
      NotOwnAncestor(txs, d);
      var order := WrongWayRound(txs, id, d, g);
      assert order[0] == d && order[1] == g;
      assert !AncestorsFirst(txs, order, 0);
    }
  }

  lemma FlatIsOrdered(txs: Entries, id: Hash, order: seq<Hash>)
    requires id in txs && Flat(txs, id) && Lists(txs, id, order)
    ensures AncestorsFirst(txs, order, 0)
  {
    forall a | 0 <= a < |order| && order[a] in txs
      ensures txs[order[a]].deps == {}
    {
      assert order[a] in order;
    }
  }

  lemma WrongWayRound(txs: Entries, id: Hash, d: Hash, g: Hash) returns (order: seq<Hash>)
    requires Shaped(txs) && id in txs && d in txs[id].deps && d in txs && g in txs[d].deps && g != d
    ensures Lists(txs, id, order) && |order| >= 2 && order[0] == d && order[1] == g
  {
    assert g in txs[id].deps;
    var rest := Listing(txs[id].deps - {d, g});
    order := [d, g] + rest;
  }

  /** Some listing of a set. */
  lemma {:induction false} Listing(s: set<Hash>) returns (listing: seq<Hash>)
    ensures forall q :: q in listing <==> q in s
    ensures forall i, j :: 0 <= i < j < |listing| ==> listing[i] != listing[j]
  {
    if s == {} {
      listing := [];
    } else {
      var q :| q in s;
      var rest := Listing(s - {q});
      listing := [q] + rest;
    }
  }

  lemma StartPackage(txs: Entries, id: Hash)
    requires AllWellAdmitted(txs) && id in txs
    ensures Collected(txs, id, [txs[id].tx], txs[id].tx.size, {})
  {
    hide AllWellAdmitted, SizeOf;
    IdOf(txs, id);
    SizeOfNone(txs);
    var package := [txs[id].tx];
    assert package[0].id == id && package[1..] == [];
    assert TotalSize(package) == txs[id].tx.size;
    assert AllFrom(txs, package) && Distinct(package);
    assert forall q :: Holds(package, q) <==> q == id;
  }

  lemma DepsOfDep(txs: Entries, id: Hash, parent: Hash)
    requires Shaped(txs) && id in txs && parent in txs[id].deps
    ensures parent in txs && txs[parent].deps <= txs[id].deps && parent != id
  {
  }

  lemma Prepend(txs: Entries, package: seq<Tx>, parent: Hash)
    requires parent in txs && txs[parent].tx.id == parent
    requires AllFrom(txs, package) && Distinct(package) && !Holds(package, parent)
    ensures var more := [txs[parent].tx] + package;
            && AllFrom(txs, more) && Distinct(more)
            && TotalSize(more) == txs[parent].tx.size + TotalSize(package)
  {
    var more := [txs[parent].tx] + package;
    assert more[1..] == package;
    assert forall k :: 0 < k < |more| ==> more[k] == package[k - 1];
  }

  lemma PrependHolds(tx: Tx, package: seq<Tx>)
    ensures forall q :: Holds([tx] + package, q) <==> q == tx.id || Holds(package, q)
  {
    var more := [tx] + package;
    forall q
      ensures Holds(more, q) <==> q == tx.id || Holds(package, q)
    {
      if Holds(package, q) {
        var k :| 0 <= k < |package| && package[k].id == q;
        assert more[k + 1].id == q;
      }
      assert more[0].id == tx.id;
      assert forall k :: 0 < k < |more| ==> more[k] == package[k - 1];
    }
  }

  lemma IdOf(txs: Entries, id: Hash)
    requires AllWellAdmitted(txs) && id in txs
    ensures txs[id].tx.id == id
  {
    assert WellAdmitted(txs, id);
  }

  // ----- when the walk over the ancestors is not cut off

  ghost function Grandparents(txs: Entries, deps: set<Hash>, ids: set<Hash>): set<Hash> {
    set a | a in deps && exists q :: q in ids && q in txs && a in txs[q].deps
  }

  /** On single routes, each ancestor is recorded once below the transaction. */
  lemma {:induction false} LinksAreDistinct(txs: Entries, id: Hash, ids: set<Hash>)
    requires Shaped(txs) && SingleRoute(txs) && id in txs && ids <= txs[id].deps
    ensures Links(txs, ids) == |Grandparents(txs, txs[id].deps, ids)|
  {
    hide Links;
    var deps := txs[id].deps;
    if ids == {} {
      LinksOfNone(txs);
      assert Grandparents(txs, deps, ids) == {};
    } else {
      var q :| q in ids;
      DepsOfDep(txs, id, q);
      LinksAreDistinct(txs, id, ids - {q});
      LinksOneLess(txs, ids, q);
      GrandparentsSplit(txs, id, ids, q);
    }
  }

  lemma GrandparentsSplit(txs: Entries, id: Hash, ids: set<Hash>, q: Hash)
    requires Shaped(txs) && SingleRoute(txs) && id in txs && ids <= txs[id].deps && q in ids && q in txs
    ensures var deps := txs[id].deps;
            && Grandparents(txs, deps, ids) == Grandparents(txs, deps, ids - {q}) + txs[q].deps
            && Grandparents(txs, deps, ids - {q}) !! txs[q].deps
  {
    assert txs[q].deps <= txs[id].deps;
  }

  /** Up to twenty-five ancestors are always collected in full. */
  lemma SmallFamilyIsWhole(st: State, id: Hash)
    requires Valid(st) && id in st.txs && |st.txs[id].deps| <= 25
    ensures Turns(st.txs, id) <= MAX_PACKAGE_DEPTH
  {
    hide Consistent, AllWellAdmitted, Links;
    var deps := st.txs[id].deps;
    LinksAreDistinct(st.txs, id, deps);
    SubsetSize(Grandparents(st.txs, deps, deps), deps);
  }
}
