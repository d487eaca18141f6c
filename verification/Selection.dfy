/** Choosing pooled transactions for a block: packages of a transaction and its
    ancestors, by descending fee rate, while they fit. */
module Selection {
  import opened Basics
  import opened Sums
  import opened HashOrder
  import opened Dependencies
  import opened Mempool
  import opened Packages

  function Flatten(packages: seq<seq<Tx>>): seq<Tx> {
    if packages == [] then [] else Flatten(packages[..|packages| - 1]) + packages[|packages| - 1]
  }

  // ----- what has been chosen so far

  datatype Progress = Progress(selected: seq<Tx>, size: nat, included: set<Hash>, visited: set<Hash>)

  predicate InSome(packages: seq<seq<Tx>>, id: Hash) {
    exists k :: 0 <= k < |packages| && Holds(packages[k], id)
  }

  ghost predicate AllPackages(txs: Entries, packages: seq<seq<Tx>>) {
    forall k :: 0 <= k < |packages| ==> IsPackage(txs, packages[k])
  }

  /** No package is headed by a transaction of an earlier one. */
  ghost predicate FreshHeads(packages: seq<seq<Tx>>) {
    forall j :: 0 <= j < |packages| ==> packages[j] != [] && !InSome(packages[..j], HeadOf(packages[j]))
  }

  ghost predicate Chosen(txs: Entries, maxSize: nat, pr: Progress, packages: seq<seq<Tx>>) {
    && pr.selected == Flatten(packages)
    && pr.size == TotalSize(pr.selected) <= maxSize
    && AllPackages(txs, packages) && FreshHeads(packages)
    && forall id :: id in pr.included <==> InSome(packages, id)
  }

  lemma InSomeMore(packages: seq<seq<Tx>>, package: seq<Tx>)
    ensures forall id :: InSome(packages + [package], id) <==> InSome(packages, id) || Holds(package, id)
  {
    hide Holds;
    var more := packages + [package];
    forall id
      ensures InSome(more, id) <==> InSome(packages, id) || Holds(package, id)
    {
      if InSome(packages, id) {
        var k :| 0 <= k < |packages| && Holds(packages[k], id);
        assert more[k] == packages[k];
      }
      assert more[|packages|] == package;
    }
  }

  /** A package that fits extends the choice. */
  lemma ChosenMore(txs: Entries, maxSize: nat, pr: Progress, packages: seq<seq<Tx>>, package: seq<Tx>, pr': Progress)
    requires Chosen(txs, maxSize, pr, packages) && IsPackage(txs, package)
    requires !InSome(packages, HeadOf(package))
    requires pr'.selected == pr.selected + package
    requires pr'.size == pr.size + TotalSize(package) <= maxSize
    requires forall id :: id in pr'.included <==> id in pr.included || Holds(package, id)
    ensures Chosen(txs, maxSize, pr', packages + [package])
  {
    hide IsPackage, Holds, InSome;
    var more := packages + [package];
    InSomeMore(packages, package);
    TotalSizeConcat(pr.selected, package);
    assert more[..|packages|] == packages;
    forall j | 0 <= j < |more|
      ensures more[j] != [] && !InSome(more[..j], HeadOf(more[j]))
    {
      if j < |packages| {
        assert more[..j] == packages[..j];
      } else {
        PackageNonempty(txs, package);
      }
    }
  }

  lemma PackageNonempty(txs: Entries, package: seq<Tx>)
    requires IsPackage(txs, package)
    ensures package != [] && HeadOf(package) in txs
  {
  }

  // ----- the order of the packages

  /** Candidates come by descending fee rate, and by identifier among equals. */
  ghost predicate Precedes(txs: Entries, a: Hash, b: Hash)
    requires a in txs && b in txs
  {
    txs[a].feeRate > txs[b].feeRate || (txs[a].feeRate == txs[b].feeRate && Less(a, b))
  }

  lemma PrecedesIsOneWay(txs: Entries, a: Hash, b: Hash)
    requires a in txs && b in txs && Precedes(txs, a, b)
    ensures !Precedes(txs, b, a) && a != b
  {
    if Less(a, b) {
      LessIsOneWay(a, b);
    }
  }

  lemma PrecedesIsTransitive(txs: Entries, a: Hash, b: Hash, c: Hash)
    requires a in txs && b in txs && c in txs && Precedes(txs, a, b) && Precedes(txs, b, c)
    ensures Precedes(txs, a, c)
  {
    if Less(a, b) && Less(b, c) {
      LessIsTransitive(a, b, c);
    }
  }

  lemma PrecedesIsTotal(txs: Entries, a: Hash, b: Hash)
    requires a in txs && b in txs && a != b
    ensures Precedes(txs, a, b) || Precedes(txs, b, a)
  {
    LessIsTotal(a, b);
  }

  /** The heads come in that order, and are candidates tried so far. */
  ghost predicate Ranked(txs: Entries, packages: seq<seq<Tx>>, done: set<Hash>) {
    && done <= txs.Keys
    && (forall k :: 0 <= k < |packages| ==> packages[k] != [] && HeadOf(packages[k]) in done)
    && (forall i, j :: 0 <= i < j < |packages| ==> Precedes(txs, HeadOf(packages[i]), HeadOf(packages[j])))
  }

  ghost predicate Follows(txs: Entries, done: set<Hash>, id: Hash)
    requires done <= txs.Keys && id in txs
  {
    forall d :: d in done ==> Precedes(txs, d, id)
  }

  lemma RankedWithout(txs: Entries, packages: seq<seq<Tx>>, done: set<Hash>, more: set<Hash>)
    requires Ranked(txs, packages, done) && done <= more <= txs.Keys
    ensures Ranked(txs, packages, more)
  {
    hide Precedes;
  }

  lemma RankedMore(txs: Entries, packages: seq<seq<Tx>>, done: set<Hash>, package: seq<Tx>)
    requires Ranked(txs, packages, done) && package != [] && HeadOf(package) in txs
    requires Follows(txs, done, HeadOf(package))
    ensures Ranked(txs, packages + [package], done + {HeadOf(package)})
  {
    hide Precedes;
    var more := packages + [package];
    assert forall k :: 0 <= k < |packages| ==> more[k] == packages[k];
  }

  // ----- when there is room for everything

  function Same(n: nat): nat {
    n
  }

  ghost function Weight(txs: Entries, id: Hash): nat
    requires id in txs
  {
    txs[id].tx.size + SizeOf(txs, txs[id].deps)
  }

  ghost function Weights(txs: Entries, ids: set<Hash>): map<Hash, nat> {
    map id | id in ids && id in txs :: Weight(txs, id)
  }

  /** The summed sizes of the full packages of all members of a set. */
  ghost function Demand(txs: Entries, ids: set<Hash>): nat {
    MapSum(Weights(txs, ids), Same)
  }

  lemma WeightsOneMore(txs: Entries, ids: set<Hash>, id: Hash)
    requires id !in ids && id in txs
    ensures id !in Weights(txs, ids) && Weights(txs, ids + {id}) == Weights(txs, ids)[id := Weight(txs, id)]
  {
    hide SizeOf;
  }

  lemma DemandOneMore(txs: Entries, ids: set<Hash>, id: Hash)
    requires id !in ids && id in txs
    ensures Demand(txs, ids + {id}) == Demand(txs, ids) + Weight(txs, id)
  {
    WeightsOneMore(txs, ids, id);
    hide Weights, Weight, MapSum;
    MapSumInsert(Weights(txs, ids), id, Weight(txs, id), Same);
  }

  lemma {:induction false} DemandMonotone(txs: Entries, a: set<Hash>, b: set<Hash>)
    requires a <= b <= txs.Keys
    ensures Demand(txs, a) <= Demand(txs, b)
    decreases |b - a|
  {
    hide Demand;
    if !(b <= a) {
      var d :| d in b && d !in a;
      DemandOneMore(txs, a, d);
      assert b - (a + {d}) == (b - a) - {d};
      DemandMonotone(txs, a + {d}, b);
    } else {
      assert a == b;
    }
  }

  /** The `k`-th package holds `id`, and was headed by it or by a candidate that
      came before it. */
  ghost predicate CoveredBy(txs: Entries, packages: seq<seq<Tx>>, id: Hash, k: nat)
    requires id in txs
  {
    && k < |packages| && Holds(packages[k], id) && packages[k] != [] && HeadOf(packages[k]) in txs
    && (HeadOf(packages[k]) == id || Precedes(txs, HeadOf(packages[k]), id))
  }

  ghost predicate Covered(txs: Entries, packages: seq<seq<Tx>>, id: Hash) {
    id in txs && exists k: nat :: CoveredBy(txs, packages, id, k)
  }

  ghost predicate Complete(txs: Entries, maxSize: nat, pr: Progress, packages: seq<seq<Tx>>, done: set<Hash>) {
    Demand(txs, txs.Keys) <= maxSize ==>
      && pr.size <= Demand(txs, done)
      && pr.visited <= pr.included
      && forall id :: id in done ==> Covered(txs, packages, id)
  }

  /** A processed transaction that was skipped, because some package holds it. */
  lemma SkippedIsComplete(txs: Entries, maxSize: nat, pr: Progress, packages: seq<seq<Tx>>, done: set<Hash>, id: Hash)
    requires Chosen(txs, maxSize, pr, packages) && Complete(txs, maxSize, pr, packages, done)
    requires id in txs && id !in done && Ranked(txs, packages, done) && Follows(txs, done, id)
    requires id in pr.included || id in pr.visited
    ensures Complete(txs, maxSize, pr, packages, done + {id})
  {
    hide Demand, AllPackages, FreshHeads, Flatten, TotalSize, Weight, Covered, InSome, Ranked, Follows;
    DemandOneMore(txs, done, id);
    if Demand(txs, txs.Keys) <= maxSize {
      HeldIsCovered(txs, packages, done, id);
    }
  }

  lemma HeldIsCovered(txs: Entries, packages: seq<seq<Tx>>, done: set<Hash>, id: Hash)
    requires Ranked(txs, packages, done) && id in txs && Follows(txs, done, id) && InSome(packages, id)
    ensures Covered(txs, packages, id)
  {
    hide Holds, Precedes;
    var k :| 0 <= k < |packages| && Holds(packages[k], id);
    assert CoveredBy(txs, packages, id, k);
  }

  /** With room for everything, the package of a new transaction fits. */
  lemma RoomForOne(txs: Entries, maxSize: nat, pr: Progress, packages: seq<seq<Tx>>, done: set<Hash>, id: Hash)
    requires Complete(txs, maxSize, pr, packages, done)
    requires id in txs && id !in done && done <= txs.Keys
    ensures Demand(txs, txs.Keys) <= maxSize ==> pr.size + Weight(txs, id) <= Demand(txs, done + {id}) <= maxSize
  {
    hide Demand, Weight, Covered;
    DemandOneMore(txs, done, id);
    DemandMonotone(txs, done + {id}, txs.Keys);
  }

  lemma CoveredStays(txs: Entries, packages: seq<seq<Tx>>, package: seq<Tx>, id: Hash)
    requires Covered(txs, packages, id)
    ensures Covered(txs, packages + [package], id)
  {
    hide Holds, Precedes;
    var more := packages + [package];
    var k: nat :| CoveredBy(txs, packages, id, k);
    assert more[k] == packages[k];
    assert CoveredBy(txs, more, id, k);
  }

  lemma TakenIsComplete(txs: Entries, maxSize: nat, pr: Progress, packages: seq<seq<Tx>>, done: set<Hash>, id: Hash,
                        package: seq<Tx>, pr': Progress)
    requires Complete(txs, maxSize, pr, packages, done) && id in txs && id !in done && done <= txs.Keys
    requires package != [] && HeadOf(package) == id && TotalSize(package) <= Weight(txs, id)
    requires pr'.size == pr.size + TotalSize(package)
    requires pr'.visited <= pr.visited + pr'.included && pr.included <= pr'.included
    ensures Complete(txs, maxSize, pr', packages + [package], done + {id})
  {
    RoomForOne(txs, maxSize, pr, packages, done, id);
    hide Demand, Weight, Covered, TotalSize;
    if Demand(txs, txs.Keys) <= maxSize {
      forall x | x in done
        ensures Covered(txs, packages + [package], x)
      {
        CoveredStays(txs, packages, package, x);
      }
      HeadIsCovered(txs, packages, package);
    }
  }

  lemma HeadIsCovered(txs: Entries, packages: seq<seq<Tx>>, package: seq<Tx>)
    requires package != [] && HeadOf(package) in txs
    ensures Covered(txs, packages + [package], HeadOf(package))
  {
    var more, k := packages + [package], |packages|;
    assert more[k] == package;
    assert package[|package| - 1].id == HeadOf(package);
    assert CoveredBy(txs, more, HeadOf(package), k);
  }

  /** Nothing is left once the block is full. */
  lemma FullIsDone(txs: Entries, maxSize: nat, pr: Progress, packages: seq<seq<Tx>>, done: set<Hash>)
    requires AllWellAdmitted(txs) && Complete(txs, maxSize, pr, packages, done) && done <= txs.Keys
    requires pr.size >= maxSize && Demand(txs, txs.Keys) <= maxSize
    ensures done == txs.Keys
  {
    hide Demand, Covered, SizeOf;
    forall id | id in txs
      ensures id in done
    {
      if id !in done {
        assert WellAdmitted(txs, id);
        RoomForOne(txs, maxSize, pr, packages, done, id);
      }
    }
  }

  // ----- why a transaction is not taken

  /** The first `k` packages are headed by candidates before `id`, the others by
      candidates after it. */
  ghost predicate TurnIs(txs: Entries, packages: seq<seq<Tx>>, id: Hash, k: nat)
    requires id in txs
  {
    && k <= |packages|
    && forall j :: 0 <= j < |packages| ==>
         && packages[j] != [] && HeadOf(packages[j]) in txs
         && (j < k ==> Precedes(txs, HeadOf(packages[j]), id))
         && (k <= j ==> Precedes(txs, id, HeadOf(packages[j])))
  }

  /** At its turn, the `s` bytes of the transaction and of its ancestors no longer fit;
      all ancestors count, unless the walk over them is cut off. */
  ghost predicate NoRoomAt(txs: Entries, maxSize: nat, packages: seq<seq<Tx>>, id: Hash, k: nat, s: nat)
    requires id in txs
  {
    && TurnIs(txs, packages, id, k)
    && txs[id].tx.size <= s <= Weight(txs, id) && (Turns(txs, id) <= MAX_PACKAGE_DEPTH ==> s == Weight(txs, id))
    && TotalSize(Flatten(packages[..k])) + s > maxSize
  }

  ghost predicate NoRoom(txs: Entries, maxSize: nat, packages: seq<seq<Tx>>, id: Hash) {
    id in txs && exists k: nat, s: nat :: NoRoomAt(txs, maxSize, packages, id, k, s)
  }

  /** Something that depends on `id` came before it and found no room. */
  ghost predicate PassedBy(txs: Entries, maxSize: nat, packages: seq<seq<Tx>>, id: Hash, d: Hash) {
    && id in txs && d in txs && id in txs[d].deps && Precedes(txs, d, id)
    && NoRoom(txs, maxSize, packages, d)
  }

  ghost predicate PassedOver(txs: Entries, maxSize: nat, packages: seq<seq<Tx>>, id: Hash) {
    exists d :: PassedBy(txs, maxSize, packages, id, d)
  }

  /** What became of a candidate: it heads a package or is held by an earlier one, or
      there was no room for it, or it was passed over. */
  ghost predicate Decided(txs: Entries, maxSize: nat, packages: seq<seq<Tx>>, id: Hash) {
    || Covered(txs, packages, id)
    || NoRoom(txs, maxSize, packages, id)
    || PassedOver(txs, maxSize, packages, id)
  }

  ghost predicate LookedAt(txs: Entries, maxSize: nat, packages: seq<seq<Tx>>, done: set<Hash>, q: Hash) {
    exists d :: d in done && d in txs && q in txs[d].deps && NoRoom(txs, maxSize, packages, d)
  }

  /** Every candidate so far is decided; what has been visited is included or an
      ancestor of a candidate without room, and without cut-offs all such ancestors are,
      and no head was passed over. */
  ghost predicate Fair(txs: Entries, maxSize: nat, pr: Progress, packages: seq<seq<Tx>>, done: set<Hash>) {
    && (forall id :: id in done ==> Decided(txs, maxSize, packages, id))
    && (forall q :: q in pr.visited ==> q in pr.included || LookedAt(txs, maxSize, packages, done, q))
    && (Uncut(txs) ==> AllLookedAt(txs, maxSize, pr, packages, done) && NonePassed(txs, maxSize, packages))
  }

  ghost predicate AllLookedAt(txs: Entries, maxSize: nat, pr: Progress, packages: seq<seq<Tx>>, done: set<Hash>) {
    forall d :: d in done && d in txs && NoRoom(txs, maxSize, packages, d) ==> txs[d].deps <= pr.visited + pr.included
  }

  ghost predicate NonePassed(txs: Entries, maxSize: nat, packages: seq<seq<Tx>>) {
    forall k :: 0 <= k < |packages| ==> packages[k] != [] && !PassedOver(txs, maxSize, packages, HeadOf(packages[k]))
  }

  /** A package headed by a later candidate changes nothing for an earlier one. */
  lemma NoRoomStays(txs: Entries, maxSize: nat, packages: seq<seq<Tx>>, package: seq<Tx>, id: Hash)
    requires id in txs && package != [] && HeadOf(package) in txs && Precedes(txs, id, HeadOf(package))
    ensures NoRoom(txs, maxSize, packages + [package], id) <==> NoRoom(txs, maxSize, packages, id)
  {
    hide Precedes, Weight, Flatten, TotalSize, Turns;
    var more, n := packages + [package], |packages|;
    assert more[n] == package && forall j :: 0 <= j < n ==> more[j] == packages[j];
    if NoRoom(txs, maxSize, packages, id) {
      var k: nat, s: nat :| NoRoomAt(txs, maxSize, packages, id, k, s);
      assert more[..k] == packages[..k];
      assert NoRoomAt(txs, maxSize, more, id, k, s);
    }
    if NoRoom(txs, maxSize, more, id) {
      var k: nat, s: nat :| NoRoomAt(txs, maxSize, more, id, k, s);
      PrecedesIsOneWay(txs, id, HeadOf(package));
      assert more[..k] == packages[..k];
      assert NoRoomAt(txs, maxSize, packages, id, k, s);
    }
  }

  lemma PassedStays(txs: Entries, maxSize: nat, packages: seq<seq<Tx>>, package: seq<Tx>, id: Hash)
    requires id in txs && package != [] && HeadOf(package) in txs && Precedes(txs, id, HeadOf(package))
    ensures PassedOver(txs, maxSize, packages + [package], id) <==> PassedOver(txs, maxSize, packages, id)
  {
    hide Precedes, NoRoom;
    forall d | d in txs && Precedes(txs, d, id)
      ensures NoRoom(txs, maxSize, packages + [package], d) <==> NoRoom(txs, maxSize, packages, d)
    {
      PrecedesIsTransitive(txs, d, id, HeadOf(package));
      NoRoomStays(txs, maxSize, packages, package, d);
    }
    if d :| PassedBy(txs, maxSize, packages, id, d) {
      assert PassedBy(txs, maxSize, packages + [package], id, d);
    }
    if d :| PassedBy(txs, maxSize, packages + [package], id, d) {
      assert PassedBy(txs, maxSize, packages, id, d);
    }
  }

  lemma DecidedStays(txs: Entries, maxSize: nat, packages: seq<seq<Tx>>, package: seq<Tx>, id: Hash)
    requires id in txs && package != [] && HeadOf(package) in txs && Precedes(txs, id, HeadOf(package))
    requires Decided(txs, maxSize, packages, id)
    ensures Decided(txs, maxSize, packages + [package], id)
  {
    hide Precedes, NoRoom, PassedOver, Covered;
    NoRoomStays(txs, maxSize, packages, package, id);
    PassedStays(txs, maxSize, packages, package, id);
    if Covered(txs, packages, id) {
      CoveredStays(txs, packages, package, id);
    }
  }

  lemma LookedAtStays(txs: Entries, maxSize: nat, packages: seq<seq<Tx>>, package: seq<Tx>, done: set<Hash>,
                      done': set<Hash>, q: Hash)
    requires done <= txs.Keys && done <= done' && package != [] && HeadOf(package) in txs
    requires Follows(txs, done, HeadOf(package)) && LookedAt(txs, maxSize, packages, done, q)
    ensures LookedAt(txs, maxSize, packages + [package], done', q)
  {
    hide Precedes, NoRoom;
    var d :| d in done && d in txs && q in txs[d].deps && NoRoom(txs, maxSize, packages, d);
    NoRoomStays(txs, maxSize, packages, package, d);
  }

  lemma LookedAtMore(txs: Entries, maxSize: nat, packages: seq<seq<Tx>>, done: set<Hash>, done': set<Hash>, q: Hash)
    requires done <= done' && LookedAt(txs, maxSize, packages, done, q)
    ensures LookedAt(txs, maxSize, packages, done', q)
  {
    hide NoRoom;
  }

  /** A candidate that was skipped. */
  lemma SkippedIsFair(txs: Entries, maxSize: nat, pr: Progress, packages: seq<seq<Tx>>, done: set<Hash>, id: Hash)
    requires Shaped(txs) && Chosen(txs, maxSize, pr, packages) && Fair(txs, maxSize, pr, packages, done)
    requires id in txs && done <= txs.Keys && Ranked(txs, packages, done) && Follows(txs, done, id)
    requires id in pr.included || id in pr.visited
    ensures Fair(txs, maxSize, pr, packages, done + {id})
  {
    hide Shaped, FreshHeads, Flatten, TotalSize, InSome, Ranked, Precedes, Uncut, IsPackage;
    hide NoRoom, Covered, PassedOver, NonePassed, LookedAt;
    if id in pr.included {
      HeldIsCovered(txs, packages, done, id);
    } else {
      LookedAtIsPassed(txs, maxSize, packages, done, id);
    }
    forall q | q in pr.visited && q !in pr.included
      ensures LookedAt(txs, maxSize, packages, done + {id}, q)
    {
      LookedAtMore(txs, maxSize, packages, done, done + {id}, q);
    }
    if Uncut(txs) {
      if id in pr.included {
        HeldWithDeps(txs, packages, id);
      } else {
        LookedAtWithDeps(txs, maxSize, pr, packages, done, id);
      }
    }
  }

  lemma LookedAtIsPassed(txs: Entries, maxSize: nat, packages: seq<seq<Tx>>, done: set<Hash>, id: Hash)
    requires done <= txs.Keys && id in txs && Follows(txs, done, id) && LookedAt(txs, maxSize, packages, done, id)
    ensures PassedOver(txs, maxSize, packages, id)
  {
    hide NoRoom, Precedes;
    var d :| d in done && d in txs && id in txs[d].deps && NoRoom(txs, maxSize, packages, d);
    assert PassedBy(txs, maxSize, packages, id, d);
  }

  /** Without cut-offs, a package holds the ancestors of all it holds. */
  lemma HeldWithDeps(txs: Entries, packages: seq<seq<Tx>>, id: Hash)
    requires Shaped(txs) && Uncut(txs) && AllPackages(txs, packages) && id in txs && InSome(packages, id)
    ensures forall q :: q in txs[id].deps ==> InSome(packages, q)
  {
    hide Shaped, Uncut, Holds;
    var k :| 0 <= k < |packages| && Holds(packages[k], id);
    hide IsPackage;
    var head := HeadOf(packages[k]);
    WholePackage(txs, packages[k], id);
    ClosedClosure(txs, head, id);
    forall q | q in txs[id].deps
      ensures InSome(packages, q)
    {
      WholePackage(txs, packages[k], q);
    }
  }

  lemma LookedAtWithDeps(txs: Entries, maxSize: nat, pr: Progress, packages: seq<seq<Tx>>, done: set<Hash>, id: Hash)
    requires Shaped(txs) && AllLookedAt(txs, maxSize, pr, packages, done) && id in txs
    requires LookedAt(txs, maxSize, packages, done, id)
    ensures txs[id].deps <= pr.visited + pr.included
  {
    hide NoRoom;
    var d :| d in done && d in txs && id in txs[d].deps && NoRoom(txs, maxSize, packages, d);
    assert txs[id].deps <= txs[d].deps;
  }

  /** A candidate that did not fit. */
  lemma RefusedIsFair(txs: Entries, maxSize: nat, pr: Progress, packages: seq<seq<Tx>>, done: set<Hash>, id: Hash,
                      visited: set<Hash>)
    requires Fair(txs, maxSize, pr, packages, done) && id in txs && NoRoom(txs, maxSize, packages, id)
    requires visited <= txs[id].deps && (Uncut(txs) ==> visited == txs[id].deps)
    ensures Fair(txs, maxSize, pr.(visited := pr.visited + visited), packages, done + {id})
  {
    hide NoRoom, Covered, PassedOver, NonePassed, LookedAt, Uncut;
    forall q | q in pr.visited + visited && q !in pr.included
      ensures LookedAt(txs, maxSize, packages, done + {id}, q)
    {
      if q in visited {
        LookedAtNow(txs, maxSize, packages, done + {id}, id, q);
      } else {
        LookedAtMore(txs, maxSize, packages, done, done + {id}, q);
      }
    }
  }

  lemma LookedAtNow(txs: Entries, maxSize: nat, packages: seq<seq<Tx>>, done: set<Hash>, id: Hash, q: Hash)
    requires id in done && id in txs && q in txs[id].deps && NoRoom(txs, maxSize, packages, id)
    ensures LookedAt(txs, maxSize, packages, done, q)
  {
    hide NoRoom;
  }

  /** Every candidate before `id` has been tried. */
  ghost predicate AllBefore(txs: Entries, done: set<Hash>, id: Hash)
    requires id in txs
  {
    forall d :: d in txs && Precedes(txs, d, id) ==> d in done
  }

  /** A candidate that was taken. */
  lemma TakenIsFair(txs: Entries, maxSize: nat, pr: Progress, packages: seq<seq<Tx>>, done: set<Hash>, id: Hash,
                    package: seq<Tx>, pr': Progress)
    requires Fair(txs, maxSize, pr, packages, done) && Ranked(txs, packages, done)
    requires id in txs && Follows(txs, done, id) && AllBefore(txs, done, id)
    requires id !in pr.included && id !in pr.visited && package != [] && HeadOf(package) == id
    requires pr.included <= pr'.included && pr.visited <= pr'.visited <= pr.visited + pr'.included
    ensures Fair(txs, maxSize, pr', packages + [package], done + {id})
  {
    hide Precedes, NoRoom, PassedOver, Covered, Decided, LookedAt, Uncut;
    var more := packages + [package];
    HeadIsCovered(txs, packages, package);
    HeadIsDecided(txs, maxSize, more, id);
    forall x | x in done
      ensures Decided(txs, maxSize, more, x)
    {
      DecidedStays(txs, maxSize, packages, package, x);
    }
    forall q | q in pr'.visited && q !in pr'.included
      ensures LookedAt(txs, maxSize, more, done + {id}, q)
    {
      LookedAtStays(txs, maxSize, packages, package, done, done + {id}, q);
    }
    if Uncut(txs) {
      TakenLooks(txs, maxSize, pr, packages, done, id, package, pr');
      TakenIsNotPassed(txs, maxSize, pr, packages, done, id, package);
    }
  }

  lemma HeadIsDecided(txs: Entries, maxSize: nat, packages: seq<seq<Tx>>, id: Hash)
    requires Covered(txs, packages, id)
    ensures Decided(txs, maxSize, packages, id)
  {
  }

  lemma TakenLooks(txs: Entries, maxSize: nat, pr: Progress, packages: seq<seq<Tx>>, done: set<Hash>, id: Hash,
                   package: seq<Tx>, pr': Progress)
    requires AllLookedAt(txs, maxSize, pr, packages, done) && done <= txs.Keys
    requires id in txs && Follows(txs, done, id) && package != [] && HeadOf(package) == id
    requires pr.included <= pr'.included && pr.visited <= pr'.visited
    ensures AllLookedAt(txs, maxSize, pr', packages + [package], done + {id})
  {
    hide Precedes, NoRoom;
    HeadHasRoom(txs, maxSize, packages + [package], |packages|);
    forall d | d in done && NoRoom(txs, maxSize, packages + [package], d)
      ensures txs[d].deps <= pr'.visited + pr'.included
    {
      NoRoomStays(txs, maxSize, packages, package, d);
    }
  }

  lemma HeadHasRoom(txs: Entries, maxSize: nat, packages: seq<seq<Tx>>, j: nat)
    requires j < |packages| && packages[j] != []
    ensures !NoRoom(txs, maxSize, packages, HeadOf(packages[j]))
  {
    hide Precedes, Weight, Turns, Flatten, TotalSize;
    var id := HeadOf(packages[j]);
    if NoRoom(txs, maxSize, packages, id) {
      var k: nat, s: nat :| NoRoomAt(txs, maxSize, packages, id, k, s);
      assert Precedes(txs, id, id);
      PrecedesIsOneWay(txs, id, id);
    }
  }

  lemma TakenIsNotPassed(txs: Entries, maxSize: nat, pr: Progress, packages: seq<seq<Tx>>, done: set<Hash>, id: Hash,
                         package: seq<Tx>)
    requires AllLookedAt(txs, maxSize, pr, packages, done) && NonePassed(txs, maxSize, packages)
    requires Ranked(txs, packages, done) && id in txs && Follows(txs, done, id) && AllBefore(txs, done, id)
    requires id !in pr.included && id !in pr.visited && package != [] && HeadOf(package) == id
    ensures NonePassed(txs, maxSize, packages + [package])
  {
    hide Precedes, NoRoom;
    var more := packages + [package];
    forall d
      ensures !PassedBy(txs, maxSize, more, id, d)
    {
      if d in txs && Precedes(txs, d, id) {
        NoRoomStays(txs, maxSize, packages, package, d);
      }
    }
    hide PassedOver;
    forall k | 0 <= k < |packages|
      ensures more[k] == packages[k] && !PassedOver(txs, maxSize, more, HeadOf(packages[k]))
    {
      PassedStays(txs, maxSize, packages, package, HeadOf(packages[k]));
    }
    assert more[|packages|] == package;
    NotPassed(txs, maxSize, more, id);
  }

  lemma NotPassed(txs: Entries, maxSize: nat, packages: seq<seq<Tx>>, id: Hash)
    requires forall d :: !PassedBy(txs, maxSize, packages, id, d)
    ensures !PassedOver(txs, maxSize, packages, id)
  {
  }

  /** A candidate whose turn comes last, and which does not fit. */
  lemma LastHasNoRoom(txs: Entries, maxSize: nat, pr: Progress, packages: seq<seq<Tx>>, done: set<Hash>, id: Hash,
                      s: nat)
    requires Chosen(txs, maxSize, pr, packages) && Ranked(txs, packages, done) && id in txs && Follows(txs, done, id)
    requires txs[id].tx.size <= s <= Weight(txs, id) && (Turns(txs, id) <= MAX_PACKAGE_DEPTH ==> s == Weight(txs, id))
    requires pr.size + s > maxSize
    ensures NoRoom(txs, maxSize, packages, id)
  {
    hide Precedes, Weight, Turns, Flatten, TotalSize, AllPackages, FreshHeads, InSome;
    assert packages[..|packages|] == packages;
    assert NoRoomAt(txs, maxSize, packages, id, |packages|, s);
  }

  // ----- the choice

  /** The keys of the fee index, highest first. */
  method RatesDescending(keys: set<nat>) returns (rates: seq<nat>)
    ensures forall r :: r in rates <==> r in keys
    ensures Sorted(rates)
  {
    rates := [];
    var rest := keys;
    while rest != {}
      invariant rest <= keys
      invariant forall r :: r in rates <==> r in keys - rest
      invariant forall i, j :: 0 <= i < j < |rates| ==> rates[i] > rates[j]
      invariant forall r, i :: r in rest && 0 <= i < |rates| ==> r < rates[i]
      decreases |rest|
    {
      var top := Highest(rest);
      rates := rates + [top];
      rest := rest - {top};
    }
  }

  method Highest(s: set<nat>) returns (top: nat)
    requires s != {}
    ensures top in s && forall r :: r in s ==> r <= top
  {
    top :| top in s;
    var rest := s - {top};
    while rest != {}
      invariant rest <= s && top in s
      invariant forall r :: r in s ==> r in rest || r <= top
      decreases |rest|
    {
      var r :| r in rest;
      top := if r > top then r else top;
      rest := rest - {r};
    }
  }

  /** One candidate: skipped if some package holds it or looked at it, otherwise
      taken with its ancestors if they fit. */
  method TryPackage(txs: Entries, id: Hash, maxSize: nat, pr: Progress,
                    ghost packages: seq<seq<Tx>>, ghost done: set<Hash>)
    returns (pr': Progress, ghost packages': seq<seq<Tx>>)
    requires Shaped(txs) && SingleRoute(txs) && AllWellAdmitted(txs) && id in txs && id !in done
    requires Chosen(txs, maxSize, pr, packages) && Complete(txs, maxSize, pr, packages, done)
    requires Ranked(txs, packages, done) && Follows(txs, done, id)
    requires Fair(txs, maxSize, pr, packages, done) && AllBefore(txs, done, id)
    ensures Chosen(txs, maxSize, pr', packages') && Complete(txs, maxSize, pr', packages', done + {id})
    ensures Ranked(txs, packages', done + {id}) && Fair(txs, maxSize, pr', packages', done + {id})
  {
    hide Shaped, SingleRoute, AllWellAdmitted, Complete, Demand, Flatten, TotalSize, AllPackages, FreshHeads;
    hide SizeOf, Links, Turns, Follows, Precedes, Ordered, AncestorsFirst, Fair, AllBefore, NoRoom, Uncut;
    RankedWithout(txs, packages, done, done + {id});
    if id in pr.included || id in pr.visited {
      SkippedIsComplete(txs, maxSize, pr, packages, done, id);
      SkippedIsFair(txs, maxSize, pr, packages, done, id);
      return pr, packages;
    }
    var order := ListOf(txs[id].deps);
    var package, size, visited, cut := WalkPackage(txs, id, order);
    ShapedIsPooled(txs, id);
    WalkedPackage(txs, id, package, size, visited);
    UncutWalk(txs, id);
    RoomForOne(txs, maxSize, pr, packages, done, id);
    pr' := pr.(visited := pr.visited + visited);
    packages' := packages;
    if size <= maxSize - pr.size && size <= MAX_PACKAGE_SIZE {
      pr' := Progress(pr.selected + package, pr.size + size, pr.included + visited + {id}, pr'.visited);
      packages' := packages + [package];
      ChosenMore(txs, maxSize, pr, packages, package, pr');
      TakenIsComplete(txs, maxSize, pr, packages, done, id, package, pr');
      TakenIsFair(txs, maxSize, pr, packages, done, id, package, pr');
      RankedMore(txs, packages, done, package);
    } else {
      LastHasNoRoom(txs, maxSize, pr, packages, done, id, size);
      RefusedIsFair(txs, maxSize, pr, packages, done, id, visited);
      NoRoomIsComplete(txs, maxSize, pr', packages, done + {id});
    }
  }

  lemma UncutWalk(txs: Entries, id: Hash)
    requires id in txs
    ensures Uncut(txs) ==> Turns(txs, id) <= MAX_PACKAGE_DEPTH
  {
    hide Turns;
  }

  lemma ShapedIsPooled(txs: Entries, id: Hash)
    requires Shaped(txs) && id in txs
    ensures txs[id].deps <= txs.Keys
  {
  }

  lemma NoRoomIsComplete(txs: Entries, maxSize: nat, pr: Progress, packages: seq<seq<Tx>>, done: set<Hash>)
    requires Demand(txs, txs.Keys) > maxSize
    ensures Complete(txs, maxSize, pr, packages, done)
  {
  }

  /** What the walk returns is a package, and never too large. */
  lemma WalkedPackage(txs: Entries, id: Hash, package: seq<Tx>, size: nat, visited: set<Hash>)
    requires AllWellAdmitted(txs) && id in txs && txs[id].deps <= txs.Keys
    requires Collected(txs, id, package, size, visited) && visited <= txs[id].deps
    requires Turns(txs, id) <= MAX_PACKAGE_DEPTH ==> visited == txs[id].deps
    ensures IsPackage(txs, package) && HeadOf(package) == id
    ensures txs[id].tx.size <= size == TotalSize(package) <= Weight(txs, id) <= MAX_PACKAGE_SIZE
    ensures visited == txs[id].deps ==> size == Weight(txs, id)
    ensures forall q :: Holds(package, q) <==> q == id || q in visited
  {
    hide SizeOf, Turns, TotalSize, Holds, Distinct;
    assert WellAdmitted(txs, id);
    SizeOfMonotone(txs, visited, txs[id].deps);
  }

  /** All candidates of one fee rate, in order of their identifiers. */
  method TryAll(txs: Entries, ids: seq<Hash>, rate: nat, maxSize: nat, pr0: Progress,
                ghost packages0: seq<seq<Tx>>, ghost done: set<Hash>)
    returns (pr: Progress, ghost packages: seq<seq<Tx>>)
    requires Shaped(txs) && SingleRoute(txs) && AllWellAdmitted(txs) && Ascending(ids)
    requires Chosen(txs, maxSize, pr0, packages0) && Complete(txs, maxSize, pr0, packages0, done)
    requires Ranked(txs, packages0, done)
    requires forall i :: 0 <= i < |ids| ==> ids[i] in txs && txs[ids[i]].feeRate == rate && ids[i] !in done
    requires forall d :: d in done ==> txs[d].feeRate > rate
    requires forall d :: d in txs && txs[d].feeRate >= rate ==> d in done || d in ids
    requires Fair(txs, maxSize, pr0, packages0, done)
    ensures Chosen(txs, maxSize, pr, packages) && Complete(txs, maxSize, pr, packages, done + Members(ids))
    ensures Ranked(txs, packages, done + Members(ids)) && Fair(txs, maxSize, pr, packages, done + Members(ids))
  {
    hide Shaped, SingleRoute, AllWellAdmitted, Chosen, Complete, Ascending, Less, Fair, Precedes;
    pr, packages := pr0, packages0;
    ghost var tried: set<Hash> := {};
    assert done + tried == done;
    for i := 0 to |ids|
      invariant forall id :: id in tried <==> id in ids[..i]
      invariant Chosen(txs, maxSize, pr, packages) && Complete(txs, maxSize, pr, packages, done + tried)
      invariant Ranked(txs, packages, done + tried) && Fair(txs, maxSize, pr, packages, done + tried)
    {
      NextInLine(txs, ids, i, done, tried);
      pr, packages := TryPackage(txs, ids[i], maxSize, pr, packages, done + tried);
      assert ids[..i + 1] == ids[..i] + [ids[i]];
      assert done + tried + {ids[i]} == done + (tried + {ids[i]});
      tried := tried + {ids[i]};
    }
    assert ids[..|ids|] == ids;
    assert tried == Members(ids);
  }

  lemma NextInLine(txs: Entries, ids: seq<Hash>, i: nat, done: set<Hash>, tried: set<Hash>)
    requires Ascending(ids) && i < |ids| && done + tried <= txs.Keys && ids[i] in txs
    requires forall j :: 0 <= j < |ids| ==> ids[j] in txs && txs[ids[j]].feeRate == txs[ids[i]].feeRate
    requires ids[i] !in done && forall d :: d in done ==> txs[d].feeRate > txs[ids[i]].feeRate
    requires forall id :: id in tried <==> id in ids[..i]
    requires forall d :: d in txs && txs[d].feeRate >= txs[ids[i]].feeRate ==> d in done || d in ids
    ensures ids[i] !in done + tried && Follows(txs, done + tried, ids[i]) && AllBefore(txs, done + tried, ids[i])
  {
    hide Less;
    forall d | d in tried
      ensures Less(d, ids[i]) && d != ids[i]
    {
      var j :| 0 <= j < i && ids[..i][j] == d;
      assert Less(ids[j], ids[i]);
      LessIsOneWay(d, ids[i]);
    }
    assert forall j :: i < j < |ids| ==> Less(ids[i], ids[j]);
    forall d | d in txs && Precedes(txs, d, ids[i])
      ensures d in done + tried
    {
      if d !in done {
        var j :| 0 <= j < |ids| && ids[j] == d;
        PrecedesIsOneWay(txs, d, ids[i]);
        assert j < i && ids[..i][j] == d;
      }
    }
  }

  /** Returns pooled transactions, in packages in order of their heads, that fit the
      block together, and leaves out none without a reason: each is in a package, or had
      no room at its turn, or is an ancestor of one that had none before. If no walk is cut
      off, these reasons decide exactly which transactions head a package. With room for
      every package, every pooled transaction is among them; if moreover no walk is cut
      off, the heads are the transactions that come before everything depending on them,
      and nothing is returned twice if and only if no two heads share an ancestor or are
      ancestors of each other. */
  method SelectTxs(st: State, maxSize: nat) returns (selected: seq<Tx>, ghost packages: seq<seq<Tx>>)
    requires Valid(st)
    ensures selected == Flatten(packages) && AllFrom(st.txs, selected) && TotalSize(selected) <= maxSize
    ensures AllPackages(st.txs, packages) && FreshHeads(packages) && Ranked(st.txs, packages, st.txs.Keys)
    ensures FeesDescend(st.txs, packages) && AllDecided(st.txs, maxSize, packages)
    ensures Uncut(st.txs) ==> forall h :: h in st.txs ==> (Leads(packages, h) <==> Picked(st.txs, maxSize, packages, h))
    ensures Roomy(st.txs, maxSize) ==> AllCovered(st.txs, packages)
    ensures Roomy(st.txs, maxSize) && Uncut(st.txs) ==>
              forall h :: h in st.txs ==> (Leads(packages, h) <==> IsHead(st.txs, h))
    ensures Roomy(st.txs, maxSize) && Uncut(st.txs) ==> (Distinct(selected) <==> HeadsApart(st.txs))
  {
    hide Valid, Shaped, SingleRoute, AllWellAdmitted, FeeIndexed, Roomy, Underway, Sorted, Uncut, IsHead, Leads;
    hide AllPackages, FreshHeads, Flatten, TotalSize, AllFrom, Ranked, AllCovered, Distinct, HeadsApart, FeesDescend;
    hide AllDecided, NonePassed, Picked;
    IndexParts(st);
    var rates := RatesDescending(st.feeIndex.Keys);
    var pr := Progress([], 0, {}, {});
    packages := [];
    NothingYet(st.txs, maxSize, rates);
    var r := 0;
    while r < |rates| && pr.size < maxSize
      invariant 0 <= r <= |rates|
      invariant Underway(st.txs, maxSize, rates, r, pr, packages)
    {
      pr, packages := TryRate(st, maxSize, rates, r, pr, packages);
      r := r + 1;
    }
    UnderwayEnds(st, maxSize, rates, r, pr, packages);
    RankedByFees(st.txs, packages);
    if Uncut(st.txs) {
      LeadsIffPicked(st.txs, maxSize, packages);
    }
    if Roomy(st.txs, maxSize) && Uncut(st.txs) {
      HeadsAndRepeats(st.txs, packages);
    }
    return pr.selected, packages;
  }

  /** The heads come by descending fee per byte, in whole units. */
  ghost predicate FeesDescend(txs: Entries, packages: seq<seq<Tx>>) {
    forall i, j :: 0 <= i < j < |packages| ==>
      && packages[i] != [] && packages[j] != [] && HeadOf(packages[i]) in txs && HeadOf(packages[j]) in txs
      && PaysAtLeast(txs[HeadOf(packages[i])], txs[HeadOf(packages[j])])
  }

  /** The whole units per byte of `a` reach those of `b`. */
  predicate PaysAtLeast(a: Entry, b: Entry) {
    a.tx.size > 0 && b.tx.size > 0 && a.fee / a.tx.size >= b.fee / b.tx.size
  }

  lemma RankedByFees(txs: Entries, packages: seq<seq<Tx>>)
    requires AllWellAdmitted(txs) && Ranked(txs, packages, txs.Keys)
    ensures FeesDescend(txs, packages)
  {
    hide AllWellAdmitted, PaysAtLeast, Precedes;
    forall i, j | 0 <= i < j < |packages|
      ensures packages[i] != [] && packages[j] != [] && HeadOf(packages[i]) in txs && HeadOf(packages[j]) in txs
      ensures PaysAtLeast(txs[HeadOf(packages[i])], txs[HeadOf(packages[j])])
    {
      var a, b := HeadOf(packages[i]), HeadOf(packages[j]);
      assert Precedes(txs, a, b);
      PrecedesPays(txs, a, b);
    }
  }

  lemma PrecedesPays(txs: Entries, a: Hash, b: Hash)
    requires AllWellAdmitted(txs) && a in txs && b in txs && Precedes(txs, a, b)
    ensures PaysAtLeast(txs[a], txs[b])
  {
    hide SizeOf, Rated;
    assert WellAdmitted(txs, a) && WellAdmitted(txs, b);
    RateIsQuotient(txs[a]);
    RateIsQuotient(txs[b]);
  }

  lemma RateIsQuotient(e: Entry)
    requires Rated(e) && e.tx.size > 0
    ensures e.fee / e.tx.size == e.feeRate
  {
    var n, q := e.tx.size, e.fee / e.tx.size;
    assert q * n <= e.fee < (q + 1) * n;
    Between(q, e.feeRate, n);
    Between(e.feeRate, q, n);
  }

  lemma Between(x: nat, y: nat, n: nat)
    requires x * n < (y + 1) * n
    ensures x <= y
  {
  }

  /** No earlier package holds the transaction, there is room for it at its turn, and
      nothing that depends on it found no room before. */
  ghost predicate Picked(txs: Entries, maxSize: nat, packages: seq<seq<Tx>>, h: Hash) {
    && h in txs && !HeldBefore(txs, packages, h)
    && !NoRoom(txs, maxSize, packages, h) && !PassedOver(txs, maxSize, packages, h)
  }

  ghost predicate HeldBefore(txs: Entries, packages: seq<seq<Tx>>, h: Hash)
    requires h in txs
  {
    exists k: nat :: CoveredBy(txs, packages, h, k) && HeadOf(packages[k]) != h
  }

  lemma LeadsIffPicked(txs: Entries, maxSize: nat, packages: seq<seq<Tx>>)
    requires FreshHeads(packages) && Ranked(txs, packages, txs.Keys)
    requires AllDecided(txs, maxSize, packages) && NonePassed(txs, maxSize, packages)
    ensures forall h :: h in txs ==> (Leads(packages, h) <==> Picked(txs, maxSize, packages, h))
  {
    hide NoRoom, PassedOver, FreshHeads, Ranked, Precedes, HeldBefore;
    forall h | h in txs
      ensures Leads(packages, h) <==> Picked(txs, maxSize, packages, h)
    {
      if j: nat :| LeadsAt(packages, h, j) {
        HeadHasRoom(txs, maxSize, packages, j);
        HeadIsNotHeld(txs, packages, j);
      } else {
        assert Decided(txs, maxSize, packages, h);
        if Covered(txs, packages, h) {
          CoveredIsHeld(txs, packages, h);
        }
      }
    }
  }

  lemma CoveredIsHeld(txs: Entries, packages: seq<seq<Tx>>, h: Hash)
    requires Covered(txs, packages, h) && !Leads(packages, h)
    ensures HeldBefore(txs, packages, h)
  {
    hide Precedes, Holds;
    var k: nat :| CoveredBy(txs, packages, h, k);
    assert !LeadsAt(packages, h, k);
  }

  lemma HeadIsNotHeld(txs: Entries, packages: seq<seq<Tx>>, j: nat)
    requires FreshHeads(packages) && Ranked(txs, packages, txs.Keys) && j < |packages|
    ensures packages[j] != [] && HeadOf(packages[j]) in txs && !HeldBefore(txs, packages, HeadOf(packages[j]))
  {
    hide Precedes, Holds;
    var h := HeadOf(packages[j]);
    forall k: nat | CoveredBy(txs, packages, h, k)
      ensures HeadOf(packages[k]) == h
    {
      if HeadOf(packages[k]) != h {
        HeldInFront(txs, packages, j, k);
      }
    }
  }

  lemma HeldInFront(txs: Entries, packages: seq<seq<Tx>>, j: nat, k: nat)
    requires Ranked(txs, packages, txs.Keys) && j < |packages| && k < |packages|
    requires Holds(packages[k], HeadOf(packages[j])) && Precedes(txs, HeadOf(packages[k]), HeadOf(packages[j]))
    ensures InSome(packages[..j], HeadOf(packages[j]))
  {
    hide Precedes, Holds;
    PrecedesIsOneWay(txs, HeadOf(packages[k]), HeadOf(packages[j]));
    assert k < j;
    assert packages[..j][k] == packages[k];
  }

  /** There is room for the full packages of all transactions. */
  ghost predicate Roomy(txs: Entries, maxSize: nat) {
    Demand(txs, txs.Keys) <= maxSize
  }

  ghost predicate AllCovered(txs: Entries, packages: seq<seq<Tx>>) {
    forall id :: id in txs ==> Covered(txs, packages, id)
  }

  ghost function Paying(txs: Entries, rates: seq<nat>): set<Hash> {
    set id | id in txs && txs[id].feeRate in rates
  }

  /** The candidates of the first `r` rates have been tried. */
  ghost predicate Underway(txs: Entries, maxSize: nat, rates: seq<nat>, r: nat, pr: Progress, packages: seq<seq<Tx>>)
    requires r <= |rates|
  {
    && Chosen(txs, maxSize, pr, packages) && Complete(txs, maxSize, pr, packages, Paying(txs, rates[..r]))
    && Ranked(txs, packages, Paying(txs, rates[..r])) && Fair(txs, maxSize, pr, packages, Paying(txs, rates[..r]))
  }

  ghost predicate Sorted(rates: seq<nat>) {
    forall i, j :: 0 <= i < j < |rates| ==> rates[i] > rates[j]
  }

  method TryRate(st: State, maxSize: nat, rates: seq<nat>, r: nat, pr0: Progress, ghost packages0: seq<seq<Tx>>)
    returns (pr: Progress, ghost packages: seq<seq<Tx>>)
    requires Shaped(st.txs) && SingleRoute(st.txs) && AllWellAdmitted(st.txs) && FeeIndexed(st.feeIndex, st.txs)
    requires r < |rates| && Sorted(rates) && forall rate :: rate in rates <==> rate in st.feeIndex
    requires Underway(st.txs, maxSize, rates, r, pr0, packages0)
    ensures Underway(st.txs, maxSize, rates, r + 1, pr, packages)
  {
    hide Shaped, SingleRoute, AllWellAdmitted, FeeIndexed, Sorted, Chosen, Complete, Ranked, Paying, Ascending, Fair;
    assert rates[r] in rates;
    var ids := SortedIds(st.feeIndex[rates[r]]);
    ghost var done := Paying(st.txs, rates[..r]);
    Candidates(st, rates, r, ids);
    pr, packages := TryAll(st.txs, ids, rates[r], maxSize, pr0, packages0, done);
  }

  lemma IndexParts(st: State)
    requires Valid(st)
    ensures Shaped(st.txs) && SingleRoute(st.txs) && AllWellAdmitted(st.txs) && FeeIndexed(st.feeIndex, st.txs)
  {
    PlusNothing(st.txs);
    hide Listed, Shaped, ImagesOwned, FeeIndexed, AllWellAdmitted, SingleRoute;
  }

  lemma NothingYet(txs: Entries, maxSize: nat, rates: seq<nat>)
    ensures Underway(txs, maxSize, rates, 0, Progress([], 0, {}, {}), [])
  {
    assert Paying(txs, rates[..0]) == {};
  }

  /** The index entry of a rate lists exactly the pooled transactions paying it. */
  lemma Candidates(st: State, rates: seq<nat>, r: nat, ids: seq<Hash>)
    requires r < |rates| && Sorted(rates) && FeeIndexed(st.feeIndex, st.txs)
    requires rates[r] in st.feeIndex && forall rate :: rate in rates <==> rate in st.feeIndex
    requires forall q :: q in ids <==> q in st.feeIndex[rates[r]]
    ensures forall i :: 0 <= i < |ids| ==>
              ids[i] in st.txs && st.txs[ids[i]].feeRate == rates[r] && ids[i] !in Paying(st.txs, rates[..r])
    ensures Paying(st.txs, rates[..r]) <= st.txs.Keys
    ensures forall d :: d in Paying(st.txs, rates[..r]) ==> st.txs[d].feeRate > rates[r]
    ensures Paying(st.txs, rates[..r + 1]) == Paying(st.txs, rates[..r]) + Members(ids)
    ensures forall d :: d in st.txs && st.txs[d].feeRate >= rates[r] ==> d in Paying(st.txs, rates[..r]) || d in ids
  {
    assert rates[..r + 1] == rates[..r] + [rates[r]];
    assert rates[r] !in rates[..r];
    forall d | d in st.txs && st.txs[d].feeRate >= rates[r]
      ensures d in Paying(st.txs, rates[..r]) || d in ids
    {
      RateIsListed(st, rates, d);
      var k :| 0 <= k < |rates| && rates[k] == st.txs[d].feeRate;
      assert k < r ==> rates[..r][k] == rates[k];
    }
  }

  lemma RateIsListed(st: State, rates: seq<nat>, d: Hash)
    requires FeeIndexed(st.feeIndex, st.txs) && d in st.txs
    requires forall rate :: rate in rates <==> rate in st.feeIndex
    ensures st.txs[d].feeRate in rates
  {
  }

  lemma UnderwayEnds(st: State, maxSize: nat, rates: seq<nat>, r: nat, pr: Progress, packages: seq<seq<Tx>>)
    requires AllWellAdmitted(st.txs) && FeeIndexed(st.feeIndex, st.txs) && r <= |rates|
    requires Underway(st.txs, maxSize, rates, r, pr, packages)
    requires Sorted(rates) && forall rate :: rate in rates <==> rate in st.feeIndex
    requires r == |rates| || pr.size >= maxSize
    ensures AllDecided(st.txs, maxSize, packages) && (Uncut(st.txs) ==> NonePassed(st.txs, maxSize, packages))
    ensures pr.selected == Flatten(packages) && AllFrom(st.txs, pr.selected) && TotalSize(pr.selected) <= maxSize
    ensures AllPackages(st.txs, packages) && FreshHeads(packages) && Ranked(st.txs, packages, st.txs.Keys)
    ensures Roomy(st.txs, maxSize) ==> AllCovered(st.txs, packages)
  {
    hide AllWellAdmitted, Ranked, Demand, Covered, AllPackages, FreshHeads, Flatten, TotalSize, AllFrom, Sorted;
    hide Decided, NonePassed, LookedAt, AllLookedAt, Uncut, FeeIndexed;
    EndIsDecided(st, maxSize, rates, r, pr, packages);
    var done := Paying(st.txs, rates[..r]);
    RankedWithout(st.txs, packages, done, st.txs.Keys);
    FlattenIsPooled(st.txs, packages);
    if Demand(st.txs, st.txs.Keys) <= maxSize {
      if r == |rates| {
        assert rates[..r] == rates;
        forall id | id in st.txs
          ensures id in done
        {
          RateIsListed(st, rates, id);
        }
      } else {
        FullIsDone(st.txs, maxSize, pr, packages, done);
      }
      assert forall id :: id in st.txs ==> id in done;
    }
  }

  ghost predicate AllDecided(txs: Entries, maxSize: nat, packages: seq<seq<Tx>>) {
    forall id :: id in txs ==> Decided(txs, maxSize, packages, id)
  }

  /** A full block leaves no room for those who have not been tried. */
  lemma EndIsDecided(st: State, maxSize: nat, rates: seq<nat>, r: nat, pr: Progress, packages: seq<seq<Tx>>)
    requires AllWellAdmitted(st.txs) && FeeIndexed(st.feeIndex, st.txs) && r <= |rates|
    requires Underway(st.txs, maxSize, rates, r, pr, packages)
    requires Sorted(rates) && forall rate :: rate in rates <==> rate in st.feeIndex
    requires r == |rates| || pr.size >= maxSize
    ensures AllDecided(st.txs, maxSize, packages)
  {
    hide AllWellAdmitted, Ranked, Decided, LookedAt, AllLookedAt, NonePassed, Uncut, Chosen, Complete, Sorted, Paying;
    hide FeeIndexed;
    var done := Paying(st.txs, rates[..r]);
    forall id | id in st.txs
      ensures Decided(st.txs, maxSize, packages, id)
    {
      if id !in done {
        UntriedIsLast(st, rates, r, id);
        UntriedHasNoRoom(st.txs, maxSize, pr, packages, done, id);
      }
    }
  }

  lemma UntriedIsLast(st: State, rates: seq<nat>, r: nat, id: Hash)
    requires FeeIndexed(st.feeIndex, st.txs) && r <= |rates| && Sorted(rates) && id in st.txs
    requires forall rate :: rate in rates <==> rate in st.feeIndex
    requires id !in Paying(st.txs, rates[..r])
    ensures r < |rates| && Paying(st.txs, rates[..r]) <= st.txs.Keys && Follows(st.txs, Paying(st.txs, rates[..r]), id)
  {
    RateIsListed(st, rates, id);
    var k :| 0 <= k < |rates| && rates[k] == st.txs[id].feeRate;
    assert forall i :: 0 <= i < r ==> rates[..r][i] == rates[i];
  }

  lemma UntriedHasNoRoom(txs: Entries, maxSize: nat, pr: Progress, packages: seq<seq<Tx>>, done: set<Hash>, id: Hash)
    requires AllWellAdmitted(txs) && Chosen(txs, maxSize, pr, packages) && Ranked(txs, packages, done)
    requires id in txs && done <= txs.Keys && Follows(txs, done, id) && pr.size >= maxSize
    ensures Decided(txs, maxSize, packages, id)
  {
    hide SizeOf, Chosen, Ranked, Follows, Rated, NoRoom, Covered, PassedOver, Turns;
    assert WellAdmitted(txs, id);
    LastHasNoRoom(txs, maxSize, pr, packages, done, id, Weight(txs, id));
  }

  lemma {:induction false} FlattenIsPooled(txs: Entries, packages: seq<seq<Tx>>)
    requires AllPackages(txs, packages)
    ensures AllFrom(txs, Flatten(packages))
  {
    hide IsPackage, AllFrom;
    if packages != [] {
      var n := |packages| - 1;
      assert forall k :: 0 <= k < n ==> packages[..n][k] == packages[k];
      FlattenIsPooled(txs, packages[..n]);
      PackageIsPooled(txs, packages[n]);
      BothPooled(txs, Flatten(packages[..n]), packages[n]);
    } else {
      NonePooled(txs);
    }
  }

  lemma PackageIsPooled(txs: Entries, package: seq<Tx>)
    requires IsPackage(txs, package)
    ensures AllFrom(txs, package)
  {
    hide AllFrom;
  }

  lemma BothPooled(txs: Entries, s: seq<Tx>, t: seq<Tx>)
    requires AllFrom(txs, s) && AllFrom(txs, t)
    ensures AllFrom(txs, s + t)
  {
  }

  lemma NonePooled(txs: Entries)
    ensures AllFrom(txs, [])
  {
  }

  // ----- which transactions head a package, and when nothing repeats

  ghost predicate Uncut(txs: Entries) {
    forall id :: id in txs ==> Turns(txs, id) <= MAX_PACKAGE_DEPTH
  }

  ghost predicate LeadsAt(packages: seq<seq<Tx>>, h: Hash, k: nat) {
    k < |packages| && packages[k] != [] && HeadOf(packages[k]) == h
  }

  ghost predicate Leads(packages: seq<seq<Tx>>, h: Hash) {
    exists k: nat :: LeadsAt(packages, h, k)
  }

  /** The transaction comes before everything that depends on it. */
  ghost predicate IsHead(txs: Entries, h: Hash) {
    h in txs && forall d :: d in txs && h in txs[d].deps ==> Precedes(txs, h, d)
  }

  /** The families of different heads have nothing in common. */
  ghost predicate HeadsApart(txs: Entries) {
    forall h, h' :: h in txs && h' in txs && IsHead(txs, h) && IsHead(txs, h') && h != h' ==>
      Closure(txs, h) !! Closure(txs, h')
  }

  /** Without a cut-off a package holds exactly the head and its ancestors. */
  lemma WholePackage(txs: Entries, package: seq<Tx>, id: Hash)
    requires Uncut(txs) && IsPackage(txs, package)
    ensures HeadOf(package) in txs && (Holds(package, id) <==> id in Closure(txs, HeadOf(package)))
  {
    hide Turns, SizeOf, TotalSize, Distinct;
    assert package[|package| - 1].id == HeadOf(package);
  }

  lemma HeadsAndRepeats(txs: Entries, packages: seq<seq<Tx>>)
    requires Shaped(txs) && Uncut(txs) && AllPackages(txs, packages) && FreshHeads(packages)
    requires Ranked(txs, packages, txs.Keys) && AllCovered(txs, packages)
    ensures forall h :: h in txs ==> (Leads(packages, h) <==> IsHead(txs, h))
    ensures Distinct(Flatten(packages)) <==> HeadsApart(txs)
  {
    hide Shaped, Uncut, AllPackages, FreshHeads, AllCovered, Leads, IsHead, Ranked, Distinct, HeadsApart;
    forall h | h in txs
      ensures Leads(packages, h) <==> IsHead(txs, h)
    {
      LeadsIff(txs, packages, h);
    }
    FlattenIsDistinctIff(txs, packages);
    ApartIff(txs, packages);
  }

  lemma LeadsIff(txs: Entries, packages: seq<seq<Tx>>, h: Hash)
    requires Shaped(txs) && Uncut(txs) && AllPackages(txs, packages) && FreshHeads(packages)
    requires Ranked(txs, packages, txs.Keys) && AllCovered(txs, packages) && h in txs
    ensures Leads(packages, h) <==> IsHead(txs, h)
  {
    hide Uncut, AllPackages, FreshHeads, Ranked, Precedes, Shaped;
    if Leads(packages, h) {
      var j: nat :| LeadsAt(packages, h, j);
      forall d | d in txs && h in txs[d].deps
        ensures Precedes(txs, h, d)
      {
        HeadIsFirst(txs, packages, h, j, d);
      }
    }
    if IsHead(txs, h) {
      assert Covered(txs, packages, h);
      var k: nat :| CoveredBy(txs, packages, h, k);
      OwnPackage(txs, packages, h, k);
      assert LeadsAt(packages, h, k);
    }
  }

  lemma OwnPackage(txs: Entries, packages: seq<seq<Tx>>, h: Hash, k: nat)
    requires Uncut(txs) && AllPackages(txs, packages) && IsHead(txs, h) && CoveredBy(txs, packages, h, k)
    ensures HeadOf(packages[k]) == h
  {
    hide Precedes, Uncut, IsPackage, Holds;
    assert IsPackage(txs, packages[k]);
    WholePackage(txs, packages[k], h);
    var head := HeadOf(packages[k]);
    if Precedes(txs, head, h) {
      PrecedesIsOneWay(txs, head, h);
    }
  }

  /** If something that depends on a head came before it, an earlier package would
      already hold the head. */
  lemma HeadIsFirst(txs: Entries, packages: seq<seq<Tx>>, h: Hash, j: nat, d: Hash)
    requires Shaped(txs) && Uncut(txs) && AllPackages(txs, packages) && FreshHeads(packages)
    requires Ranked(txs, packages, txs.Keys) && AllCovered(txs, packages)
    requires LeadsAt(packages, h, j) && h in txs && d in txs && h in txs[d].deps
    ensures Precedes(txs, h, d)
  {
    hide Uncut, AllPackages, FreshHeads, Ranked, Precedes, Shaped;
    DepsOfDep(txs, d, h);
    if !Precedes(txs, h, d) {
      PrecedesIsTotal(txs, h, d);
      assert Covered(txs, packages, d);
      var k: nat :| CoveredBy(txs, packages, d, k);
      HeldEarlier(txs, packages, h, j, d, k);
    }
  }

  lemma HeldEarlier(txs: Entries, packages: seq<seq<Tx>>, h: Hash, j: nat, d: Hash, k: nat)
    requires Shaped(txs) && Uncut(txs) && AllPackages(txs, packages) && Ranked(txs, packages, txs.Keys)
    requires LeadsAt(packages, h, j) && h in txs && d in txs && h in txs[d].deps
    requires Precedes(txs, d, h) && CoveredBy(txs, packages, d, k)
    ensures !FreshHeads(packages)
  {
    hide Uncut, IsPackage, Holds, Precedes;
    var head := HeadOf(packages[k]);
    if head != d {
      PrecedesIsTransitive(txs, head, d, h);
    }
    PrecedesIsOneWay(txs, head, h);
    assert k < j;
    assert IsPackage(txs, packages[k]);
    WholePackage(txs, packages[k], d);
    WholePackage(txs, packages[k], h);
    assert packages[..j][k] == packages[k];
    assert InSome(packages[..j], h);
  }

  // ----- repeats

  ghost predicate PackagesApart(packages: seq<seq<Tx>>) {
    forall i, j, id :: 0 <= i < |packages| && 0 <= j < |packages| && i != j ==>
      !(Holds(packages[i], id) && Holds(packages[j], id))
  }

  lemma {:induction false} FlattenHolds(packages: seq<seq<Tx>>, id: Hash)
    ensures Holds(Flatten(packages), id) <==> InSome(packages, id)
  {
    if packages != [] {
      var n := |packages| - 1;
      var front, last := packages[..n], packages[n];
      FlattenHolds(front, id);
      InSomeMore(front, last);
      assert packages == front + [last];
      HoldsConcat(Flatten(front), last, id);
    }
  }

  lemma HoldsConcat(s: seq<Tx>, t: seq<Tx>, id: Hash)
    ensures Holds(s + t, id) <==> Holds(s, id) || Holds(t, id)
  {
    var both := s + t;
    if Holds(s, id) {
      var k :| 0 <= k < |s| && s[k].id == id;
      assert both[k].id == id;
    }
    if Holds(t, id) {
      var k :| 0 <= k < |t| && t[k].id == id;
      assert both[|s| + k].id == id;
    }
  }

  lemma DistinctConcat(s: seq<Tx>, t: seq<Tx>)
    ensures Distinct(s + t) <==> Distinct(s) && Distinct(t) && forall id :: !(Holds(s, id) && Holds(t, id))
  {
    var both := s + t;
    assert forall k :: 0 <= k < |s| ==> both[k] == s[k];
    assert forall k :: 0 <= k < |t| ==> both[|s| + k] == t[k];
    if Distinct(both) {
      forall i, j | 0 <= i < j < |t|
        ensures t[i].id != t[j].id
      {
        assert both[|s| + i].id != both[|s| + j].id;
      }
      forall i, j | 0 <= i < |s| && 0 <= j < |t|
        ensures s[i].id != t[j].id
      {
        assert both[i].id != both[|s| + j].id;
      }
    }
    if Distinct(s) && Distinct(t) && forall id :: !(Holds(s, id) && Holds(t, id)) {
      forall i, j | 0 <= i < j < |both|
        ensures both[i].id != both[j].id
      {
        if i < |s| <= j {
          assert Holds(s, s[i].id) && both[j] == t[j - |s|];
          assert j - |s| < |t| ==> Holds(t, t[j - |s|].id);
        }
      }
    }
  }

  lemma {:induction false} FlattenIsDistinctIff(txs: Entries, packages: seq<seq<Tx>>)
    requires AllPackages(txs, packages)
    ensures Distinct(Flatten(packages)) <==> PackagesApart(packages)
  {
    hide IsPackage, Distinct, Holds;
    if packages == [] {
      NoneIsDistinct();
    } else {
      var n := |packages| - 1;
      var front, last := packages[..n], packages[n];
      assert forall k :: 0 <= k < n ==> front[k] == packages[k];
      FlattenIsDistinctIff(txs, front);
      PackageIsDistinct(txs, last);
      DistinctConcat(Flatten(front), last);
      forall id
        ensures Holds(Flatten(front), id) <==> InSome(front, id)
      {
        FlattenHolds(front, id);
      }
      ApartStep(packages);
    }
  }

  lemma NoneIsDistinct()
    ensures Distinct([])
  {
  }

  lemma PackageIsDistinct(txs: Entries, package: seq<Tx>)
    requires IsPackage(txs, package)
    ensures Distinct(package)
  {
    hide Distinct;
  }

  lemma ApartStep(packages: seq<seq<Tx>>)
    requires packages != []
    ensures var n := |packages| - 1;
            PackagesApart(packages)
            <==> PackagesApart(packages[..n]) && forall id :: !(InSome(packages[..n], id) && Holds(packages[n], id))
  {
    hide Holds;
    var n := |packages| - 1;
    var front := packages[..n];
    assert forall k :: 0 <= k < n ==> front[k] == packages[k];
    if PackagesApart(packages) {
      forall id | InSome(front, id)
        ensures !Holds(packages[n], id)
      {
        var k :| 0 <= k < |front| && Holds(front[k], id);
      }
    }
    if PackagesApart(front) && forall id :: !(InSome(front, id) && Holds(packages[n], id)) {
      forall i, j, id | 0 <= i < |packages| && 0 <= j < |packages| && i != j
        ensures !(Holds(packages[i], id) && Holds(packages[j], id))
      {
        if j == n && Holds(packages[i], id) {
          assert Holds(front[i], id);
        }
        if i == n && Holds(packages[j], id) {
          assert Holds(front[j], id);
        }
      }
    }
  }

  /** The packages are apart exactly when the families of the heads are. */
  lemma ApartIff(txs: Entries, packages: seq<seq<Tx>>)
    requires Uncut(txs) && AllPackages(txs, packages) && Ranked(txs, packages, txs.Keys)
    requires forall h :: h in txs ==> (Leads(packages, h) <==> IsHead(txs, h))
    ensures PackagesApart(packages) <==> HeadsApart(txs)
  {
    hide Uncut, IsPackage, Holds, Precedes, IsHead;
    if PackagesApart(packages) {
      forall h, h' | h in txs && h' in txs && IsHead(txs, h) && IsHead(txs, h') && h != h'
        ensures Closure(txs, h) !! Closure(txs, h')
      {
        TwoHeadsApart(txs, packages, h, h');
      }
    }
    if HeadsApart(txs) {
      forall i, j, id | 0 <= i < |packages| && 0 <= j < |packages| && i != j
        ensures !(Holds(packages[i], id) && Holds(packages[j], id))
      {
        TwoPackagesApart(txs, packages, if i < j then i else j, if i < j then j else i, id);
      }
    }
  }

  lemma TwoHeadsApart(txs: Entries, packages: seq<seq<Tx>>, h: Hash, h': Hash)
    requires Uncut(txs) && AllPackages(txs, packages) && PackagesApart(packages)
    requires h in txs && h' in txs && h != h' && Leads(packages, h) && Leads(packages, h')
    ensures Closure(txs, h) !! Closure(txs, h')
  {
    hide Uncut, IsPackage, Holds;
    var i: nat :| LeadsAt(packages, h, i);
    var j: nat :| LeadsAt(packages, h', j);
    assert IsPackage(txs, packages[i]) && IsPackage(txs, packages[j]);
    forall id | id in Closure(txs, h)
      ensures id !in Closure(txs, h')
    {
      WholePackage(txs, packages[i], id);
      WholePackage(txs, packages[j], id);
    }
  }

  lemma TwoPackagesApart(txs: Entries, packages: seq<seq<Tx>>, i: nat, j: nat, id: Hash)
    requires Uncut(txs) && AllPackages(txs, packages) && Ranked(txs, packages, txs.Keys) && i < j < |packages|
    requires forall h :: h in txs ==> (Leads(packages, h) <==> IsHead(txs, h))
    requires HeadsApart(txs)
    ensures !(Holds(packages[i], id) && Holds(packages[j], id))
  {
    hide Uncut, IsPackage, Holds, Precedes, IsHead;
    assert IsPackage(txs, packages[i]) && IsPackage(txs, packages[j]);
    WholePackage(txs, packages[i], id);
    WholePackage(txs, packages[j], id);
    var h, h' := HeadOf(packages[i]), HeadOf(packages[j]);
    PrecedesIsOneWay(txs, h, h');
    assert LeadsAt(packages, h, i) && LeadsAt(packages, h', j);
  }
}
