/** The memory pool: pooled transactions with their transitive dependencies, and
    the indexes that must agree with them. */
module Mempool {
  import opened Basics
  import opened Sums
  import opened Dependencies
  import Ledger
  import Validation

  const MAX_PACKAGE_SIZE: nat := 1_000_000
  const MAX_TX_SIZE: nat := 500_000

  type Children = map<Hash, seq<Hash>>

  function EntrySize(e: Entry): nat {
    e.tx.size
  }

  /** The key images an anonymous transaction occupies. */
  function ImagesOf(tx: Tx): set<seq<bv8>> {
    if !tx.anonymous then {} else
      set vin | vin in tx.inputs && |vin.scriptSig| >= 32 :: vin.scriptSig[..32]
  }

  /** The pool and its indexes. `totalBytes` is the sum of the pooled sizes. */
  datatype State = State(
    txs: Entries,
    byParent: Children,
    feeIndex: map<nat, set<Hash>>,
    totalBytes: nat,
    keyImages: map<seq<bv8>, Hash>
  )

  // ----- how the indexes relate to the pool

  /** Every dependency is listed in `byParent`, unless it is being removed. */
  ghost predicate Listed(txs: Entries, byParent: Children, inflight: Entries) {
    forall id, d :: id in txs && d in txs[id].deps ==> d in inflight || (d in byParent && id in byParent[d])
  }

  /** The fee index holds each transaction under exactly its own rate. */
  ghost predicate FeeIndexed(feeIndex: map<nat, set<Hash>>, txs: Entries) {
    forall rate, id :: (rate in feeIndex && id in feeIndex[rate]) <==> (id in txs && txs[id].feeRate == rate)
  }

  /** The key image map holds exactly the pooled images, with their owners. */
  ghost predicate ImagesOwned(keyImages: map<seq<bv8>, Hash>, txs: Entries) {
    forall image, id :: (image in keyImages && keyImages[image] == id) <==> (id in txs && image in ImagesOf(txs[id].tx))
  }

  /** The invariant in the middle of a removal: `inflight` has left the pool but
      not yet the fee index, and may still be depended on. */
  ghost predicate Consistent(st: State, inflight: Entries) {
    && inflight.Keys !! st.txs.Keys
    && st.byParent.Keys <= st.txs.Keys
    && Listed(st.txs, st.byParent, inflight)
    && st.totalBytes == MapSum(st.txs, EntrySize)
    && FeeIndexed(st.feeIndex, st.txs + inflight)
    && ImagesOwned(st.keyImages, st.txs)
  }

  /** The summed size of the pooled members of a set. */
  ghost function SizeOf(txs: Entries, ids: set<Hash>): nat {
    MapSum(map id | id in ids && id in txs :: txs[id], EntrySize)
  }

  /** The fee rate is the fee per byte, rounded down. */
  predicate Rated(e: Entry) {
    e.feeRate * e.tx.size <= e.fee < (e.feeRate + 1) * e.tx.size
  }

  /** What admission promises about every pooled transaction. */
  ghost predicate WellAdmitted(txs: Entries, id: Hash)
    requires id in txs
  {
    var e := txs[id];
    && e.tx.id == id
    && 0 < e.tx.size <= MAX_TX_SIZE
    && Rated(e)
    && |e.deps| < MAX_PACKAGE_DEPTH
    && e.tx.size + SizeOf(txs, e.deps) <= MAX_PACKAGE_SIZE
  }

  /** The invariant between operations. */
  ghost predicate Valid(st: State) {
    && Consistent(st, map[])
    && Shaped(st.txs) && SingleRoute(st.txs)
    && AllWellAdmitted(st.txs)
  }

  ghost predicate AllWellAdmitted(txs: Entries) {
    forall id :: id in txs ==> WellAdmitted(txs, id)
  }

  lemma SizeUnchanged(txs: Entries, txs': Entries, ids: set<Hash>)
    requires forall d :: d in ids ==> d in txs && d in txs' && txs[d] == txs'[d]
    ensures SizeOf(txs', ids) == SizeOf(txs, ids)
  {
    assert (map d | d in ids && d in txs :: txs[d]) == (map d | d in ids && d in txs' :: txs'[d]);
  }

  lemma StillWellAdmitted(txs: Entries, txs': Entries, id: Hash)
    requires id in txs && id in txs' && txs[id] == txs'[id] && WellAdmitted(txs, id)
    requires forall d :: d in txs[id].deps ==> d in txs && d in txs' && txs[d] == txs'[d]
    ensures WellAdmitted(txs', id)
  {
    SizeUnchanged(txs, txs', txs[id].deps);
  }

  lemma PlusNothing(txs: Entries)
    ensures txs + map[] == txs
  {
  }

  // ----- what a cascading removal removes

  /** Removing a member of `s` takes all pooled children of it along. */
  ghost predicate Closed(txs: Entries, byParent: Children, s: set<Hash>) {
    forall p, c :: p in s && p in byParent && c in byParent[p] && c in txs ==> c in s
  }

  function Gone(txs0: Entries, txs: Entries): set<Hash> {
    txs0.Keys - txs.Keys
  }

  /** From `txs0` exactly the least closed set around `x` has been removed. */
  ghost predicate Cascaded(txs0: Entries, byParent0: Children, x: Hash, txs: Entries, byParent: Children) {
    var gone := Gone(txs0, txs);
    && txs == txs0 - gone
    && byParent == byParent0 - gone
    && x !in txs
    && (x !in txs0 ==> gone == {})
    && Closed(txs0, byParent0, gone)
    && forall s :: x in s && Closed(txs0, byParent0, s) ==> gone <= s
  }

  /** The same for several removals, one after the other. */
  ghost predicate CascadedAll(txs0: Entries, byParent0: Children, roots: set<Hash>, txs: Entries, byParent: Children) {
    var gone := Gone(txs0, txs);
    && txs == txs0 - gone
    && byParent == byParent0 - gone
    && roots !! txs.Keys
    && Closed(txs0, byParent0, gone)
    && forall s :: roots <= s && Closed(txs0, byParent0, s) ==> gone <= s
  }

  function Members(ids: seq<Hash>): set<Hash> {
    set id | id in ids
  }

  lemma NothingCascadesYet(txs: Entries, byParent: Children)
    ensures CascadedAll(txs, byParent, {}, txs, byParent)
  {
    assert Gone(txs, txs) == {};
    assert txs - {} == txs && byParent - {} == byParent;
  }

  lemma CascadeOneMore(txs0: Entries, byParent0: Children, roots: set<Hash>, txs1: Entries, byParent1: Children,
                       x: Hash, txs2: Entries, byParent2: Children)
    requires CascadedAll(txs0, byParent0, roots, txs1, byParent1) && Cascaded(txs1, byParent1, x, txs2, byParent2)
    ensures CascadedAll(txs0, byParent0, roots + {x}, txs2, byParent2)
  {
    var gone1, gone2 := Gone(txs0, txs1), Gone(txs1, txs2);
    assert Gone(txs0, txs2) == gone1 + gone2;
    forall s | roots + {x} <= s && Closed(txs0, byParent0, s)
      ensures Gone(txs0, txs2) <= s
    {
      assert gone1 <= s;
      assert Closed(txs1, byParent1, s);
    }
  }

  function ChildrenOf(byParent: Children, x: Hash): seq<Hash> {
    if x in byParent then byParent[x] else []
  }

  /** `x` itself and the cascades of its first `n` children are gone. */
  ghost predicate PartlyCascaded(txs0: Entries, byParent0: Children, x: Hash, n: nat,
                                 txs: Entries, byParent: Children) {
    var gone := Gone(txs0, txs);
    && x in txs0 && x !in txs
    && txs == txs0 - gone
    && byParent == byParent0 - gone
    && n <= |ChildrenOf(byParent0, x)|
    && (forall i :: 0 <= i < n ==> ChildrenOf(byParent0, x)[i] !in txs)
    && (forall p, c :: p in gone && p != x && p in byParent0 && c in byParent0[p] && c in txs0 ==> c in gone)
    && forall s :: x in s && Closed(txs0, byParent0, s) ==> gone <= s
  }

  lemma CascadeStarts(txs0: Entries, byParent0: Children, x: Hash)
    requires x in txs0
    ensures PartlyCascaded(txs0, byParent0, x, 0, txs0 - {x}, byParent0 - {x})
  {
    assert Gone(txs0, txs0 - {x}) == {x};
  }

  lemma CascadeStep(txs0: Entries, byParent0: Children, x: Hash, n: nat,
                    txs1: Entries, byParent1: Children, txs2: Entries, byParent2: Children)
    requires PartlyCascaded(txs0, byParent0, x, n, txs1, byParent1)
    requires n < |ChildrenOf(byParent0, x)|
    requires Cascaded(txs1, byParent1, ChildrenOf(byParent0, x)[n], txs2, byParent2)
    ensures PartlyCascaded(txs0, byParent0, x, n + 1, txs2, byParent2)
  {
    var child := ChildrenOf(byParent0, x)[n];
    var gone1, gone2 := Gone(txs0, txs1), Gone(txs1, txs2);
    assert Gone(txs0, txs2) == gone1 + gone2;
    forall s | x in s && Closed(txs0, byParent0, s)
      ensures Gone(txs0, txs2) <= s
    {
      assert gone1 <= s;
      if child in txs1 {
        assert child in s;
        assert Closed(txs1, byParent1, s);
      }
    }
  }

  lemma CascadeEnds(txs0: Entries, byParent0: Children, x: Hash, txs: Entries, byParent: Children)
    requires PartlyCascaded(txs0, byParent0, x, |ChildrenOf(byParent0, x)|, txs, byParent)
    ensures Cascaded(txs0, byParent0, x, txs, byParent)
  {
  }

  lemma NothingCascades(txs: Entries, byParent: Children, x: Hash)
    requires x !in txs
    ensures Cascaded(txs, byParent, x, txs, byParent)
  {
    assert Gone(txs, txs) == {};
    assert txs - {} == txs && byParent - {} == byParent;
  }

  lemma CascadeShrinks(txs0: Entries, byParent0: Children, x: Hash, txs: Entries, byParent: Children)
    requires Cascaded(txs0, byParent0, x, txs, byParent)
    ensures |txs| <= |txs0|
  {
    assert txs.Keys <= txs0.Keys;
    SubsetSize(txs.Keys, txs0.Keys);
  }

  /** A removal that leaves every remaining dependency listed took along every
      transaction that depended on what it removed. */
  lemma NoSurvivorDepends(txs0: Entries, byParent0: Children, x: Hash, txs: Entries, byParent: Children, id: Hash)
    requires Listed(txs0, byParent0, map[]) && byParent0.Keys <= txs0.Keys
    requires Cascaded(txs0, byParent0, x, txs, byParent) && id in txs
    ensures txs[id].deps !! Gone(txs0, txs)
  {
  }

  lemma SubpoolKeepsShape(txs0: Entries, txs: Entries)
    requires Shaped(txs0) && SingleRoute(txs0) && DepsPooled(txs)
    requires forall id :: id in txs ==> id in txs0 && txs[id] == txs0[id]
    ensures Shaped(txs) && SingleRoute(txs)
  {
    assert Transitive(txs) by {
      hide SingleRoute, Shallow;
    }
    assert Shallow(txs) by {
      hide SingleRoute, Transitive;
    }
    hide Transitive, Shallow, DepsPooled;
  }

  lemma SubpoolIsWellAdmitted(txs0: Entries, txs: Entries)
    requires AllWellAdmitted(txs0) && DepsPooled(txs)
    requires forall id :: id in txs ==> id in txs0 && txs[id] == txs0[id]
    ensures AllWellAdmitted(txs)
  {
    hide WellAdmitted;
    forall id | id in txs
      ensures WellAdmitted(txs, id)
    {
      assert WellAdmitted(txs0, id);
      StillWellAdmitted(txs0, txs, id);
    }
  }

  lemma ConsistentIsPooled(st: State)
    requires Consistent(st, map[])
    ensures DepsPooled(st.txs)
  {
  }

  lemma CascadedIsSubpool(txs0: Entries, byParent0: Children, x: Hash, txs: Entries, byParent: Children)
    requires Cascaded(txs0, byParent0, x, txs, byParent)
    ensures forall id :: id in txs ==> id in txs0 && txs[id] == txs0[id]
  {
  }

  /** A removal keeps the whole invariant. */
  lemma RemovedIsValid(st0: State, x: Hash, st: State)
    requires Valid(st0) && Consistent(st, map[])
    requires Cascaded(st0.txs, st0.byParent, x, st.txs, st.byParent)
    ensures Valid(st)
  {
    hide Consistent, Cascaded, Shaped, SingleRoute, AllWellAdmitted;
    ConsistentIsPooled(st);
    CascadedIsSubpool(st0.txs, st0.byParent, x, st.txs, st.byParent);
    SubpoolKeepsShape(st0.txs, st.txs);
    SubpoolIsWellAdmitted(st0.txs, st.txs);
  }

  // ----- taking one transaction out of each index

  function Unlist(feeIndex: map<nat, set<Hash>>, rate: nat, id: Hash): map<nat, set<Hash>> {
    if rate in feeIndex then feeIndex[rate := feeIndex[rate] - {id}] else feeIndex
  }

  lemma UnlistKeepsOthers(feeIndex: map<nat, set<Hash>>, txs: Entries, inflight: Entries, id: Hash, e: Entry)
    requires FeeIndexed(feeIndex, txs + inflight[id := e]) && id !in txs && id !in inflight
    ensures FeeIndexed(Unlist(feeIndex, e.feeRate, id), txs + inflight)
  {
    var all, rest := txs + inflight[id := e], txs + inflight;
    assert rest == all - {id} && all[id] == e;
  }

  lemma ForgetKeepsOthers(keyImages: map<seq<bv8>, Hash>, txs: Entries, id: Hash)
    requires ImagesOwned(keyImages, txs) && id in txs
    ensures ImagesOwned(keyImages - ImagesOf(txs[id].tx), txs - {id})
  {
  }

  lemma MoveInflight(txs: Entries, inflight: Entries, id: Hash)
    requires id in txs && id !in inflight
    ensures (txs - {id}) + inflight[id := txs[id]] == txs + inflight
  {
    var moved, all := (txs - {id}) + inflight[id := txs[id]], txs + inflight;
    assert moved.Keys == all.Keys;
  }

  lemma ListedWhileRemoving(txs: Entries, byParent: Children, inflight: Entries, id: Hash)
    requires Listed(txs, byParent, inflight) && id in txs
    ensures Listed(txs - {id}, byParent - {id}, inflight[id := txs[id]])
  {
  }

  lemma ListedAfterRemoval(txs0: Entries, byParent0: Children, inflight: Entries, id: Hash,
                           txs: Entries, byParent: Children)
    requires Listed(txs0, byParent0, inflight) && id in txs0 && id !in inflight
    requires Cascaded(txs0, byParent0, id, txs, byParent)
    requires Listed(txs, byParent, inflight[id := txs0[id]])
    ensures Listed(txs, byParent, inflight)
  {
    forall y, d | y in txs && d in txs[y].deps
      ensures d in inflight || (d in byParent && y in byParent[d])
    {
      if d == id {
        assert id in Gone(txs0, txs);
      }
    }
  }

  /** The first half of a removal: the transaction leaves the pool with its key
      images, its bytes and its list of children. */
  function Detached(st: State, id: Hash): State
    requires id in st.txs
  {
    State(st.txs - {id}, st.byParent - {id}, st.feeIndex,
          Max(0, st.totalBytes - st.txs[id].tx.size), st.keyImages - ImagesOf(st.txs[id].tx))
  }

  lemma DetachedIsConsistent(st: State, inflight: Entries, id: Hash)
    requires Consistent(st, inflight) && id in st.txs
    ensures Consistent(Detached(st, id), inflight[id := st.txs[id]])
    ensures st.txs[id].tx.size <= st.totalBytes
    ensures |st.txs - {id}| < |st.txs|
  {
    hide Listed, FeeIndexed, ImagesOwned, MapSum, ImagesOf;
    MapSumRemove(st.txs, id, EntrySize);
    ForgetKeepsOthers(st.keyImages, st.txs, id);
    ListedWhileRemoving(st.txs, st.byParent, inflight, id);
    MoveInflight(st.txs, inflight, id);
  }

  /** The second half: once the cascade is over, the transaction leaves the fee
      index. */
  lemma FinishedIsConsistent(st0: State, inflight: Entries, id: Hash, st: State)
    requires Consistent(st0, inflight) && id in st0.txs
    requires Consistent(st, inflight[id := st0.txs[id]])
    requires Cascaded(st0.txs, st0.byParent, id, st.txs, st.byParent)
    ensures Consistent(st.(feeIndex := Unlist(st.feeIndex, st0.txs[id].feeRate, id)), inflight)
  {
    hide Listed, FeeIndexed, ImagesOwned, MapSum;
    var entry := st0.txs[id];
    ListedAfterRemoval(st0.txs, st0.byParent, inflight, id, st.txs, st.byParent);
    UnlistKeepsOthers(st.feeIndex, st.txs, inflight, id, entry);
    assert inflight[id := entry].Keys == inflight.Keys + {id};
  }

  // ----- admission

  /** The pooled transactions that the first `n` inputs refer to, in order. */
  function DirectParents(txs: Entries, tx: Tx, n: nat): (direct: seq<Hash>)
    requires n <= |tx.inputs|
    ensures AllPooled(txs, direct)
    ensures forall i :: 0 <= i < n && tx.inputs[i].prev.txid in txs ==> tx.inputs[i].prev.txid in direct
  {
    if n == 0 then [] else
      var before, parent := DirectParents(txs, tx, n - 1), tx.inputs[n - 1].prev.txid;
      if parent in txs then before + [parent] else before
  }

  /** Every input is a stored output or an output of a pooled transaction. */
  predicate Funded(txs: Entries, store: Ledger.Store, tx: Tx) {
    forall i :: 0 <= i < |tx.inputs| ==>
      var key := Ledger.OutKey(tx.anonymous, tx.inputs[i].prev);
      if key in store then store[key].OutValue? else tx.inputs[i].prev.txid in txs
  }

  /** The key images of an anonymous transaction are readable and unclaimed. */
  predicate ImagesFree(keyImages: map<seq<bv8>, Hash>, tx: Tx) {
    tx.anonymous ==> forall i :: 0 <= i < |tx.inputs| ==>
      |tx.inputs[i].scriptSig| >= 32 && tx.inputs[i].scriptSig[..32] !in keyImages
  }

  /** Everything admission checks. Only stored outputs count towards the fee. */
  ghost predicate Admissible(st: State, store: Ledger.Store, tx: Tx) {
    var direct := DirectParents(st.txs, tx, |tx.inputs|);
    var ins := Validation.InputSum(store, tx, |tx.inputs|);
    var outs := Validation.OutputSum(tx, |tx.outputs|);
    && 0 < tx.size <= MAX_TX_SIZE
    && Clear(st.txs, direct, {}) && |Ancestors(st.txs, direct)| < MAX_PACKAGE_DEPTH
    && tx.size + SizeOf(st.txs, Ancestors(st.txs, direct)) <= MAX_PACKAGE_SIZE
    && Funded(st.txs, store, tx)
    && ins < U64_BOUND && outs <= ins
    && ImagesFree(st.keyImages, tx)
  }

  function NewEntry(st: State, store: Ledger.Store, tx: Tx): Entry
    requires tx.size > 0
    requires Validation.OutputSum(tx, |tx.outputs|) <= Validation.InputSum(store, tx, |tx.inputs|)
  {
    var fee := Validation.InputSum(store, tx, |tx.inputs|) - Validation.OutputSum(tx, |tx.outputs|);
    Entry(tx, fee / tx.size, Ancestors(st.txs, DirectParents(st.txs, tx, |tx.inputs|)), fee)
  }

  function ListUnder(byParent: Children, parents: set<Hash>, id: Hash): Children {
    map p | p in byParent.Keys + parents :: ChildrenOf(byParent, p) + if p in parents then [id] else []
  }

  function FileUnder(feeIndex: map<nat, set<Hash>>, rate: nat, id: Hash): map<nat, set<Hash>> {
    feeIndex[rate := (if rate in feeIndex then feeIndex[rate] else {}) + {id}]
  }

  function Claim(keyImages: map<seq<bv8>, Hash>, images: set<seq<bv8>>, id: Hash): map<seq<bv8>, Hash> {
    keyImages + map image | image in images :: id
  }

  /** The pool with a new transaction entered in every index. */
  function Added(st: State, e: Entry): State {
    State(st.txs[e.tx.id := e], ListUnder(st.byParent, e.deps, e.tx.id), FileUnder(st.feeIndex, e.feeRate, e.tx.id),
          st.totalBytes + e.tx.size, Claim(st.keyImages, ImagesOf(e.tx), e.tx.id))
  }

  lemma AddedIsListed(st: State, e: Entry)
    requires Listed(st.txs, st.byParent, map[]) && st.byParent.Keys <= st.txs.Keys
    requires e.tx.id !in st.txs && e.deps <= st.txs.Keys
    ensures Listed(Added(st, e).txs, Added(st, e).byParent, map[])
    ensures Added(st, e).byParent.Keys <= Added(st, e).txs.Keys
  {
  }

  lemma AddedIsFiled(feeIndex: map<nat, set<Hash>>, txs: Entries, e: Entry)
    requires FeeIndexed(feeIndex, txs) && e.tx.id !in txs
    ensures FeeIndexed(FileUnder(feeIndex, e.feeRate, e.tx.id), txs[e.tx.id := e])
  {
  }

  lemma AddedOwnsImages(keyImages: map<seq<bv8>, Hash>, txs: Entries, e: Entry)
    requires ImagesOwned(keyImages, txs) && e.tx.id !in txs
    requires ImagesOf(e.tx) !! keyImages.Keys
    ensures ImagesOwned(Claim(keyImages, ImagesOf(e.tx), e.tx.id), txs[e.tx.id := e])
  {
  }

  lemma AddedIsConsistent(st: State, e: Entry)
    requires Consistent(st, map[]) && e.tx.id !in st.txs && e.deps <= st.txs.Keys
    requires ImagesOf(e.tx) !! st.keyImages.Keys
    ensures Consistent(Added(st, e), map[])
  {
    hide Listed, FeeIndexed, ImagesOwned, MapSum, ImagesOf, FileUnder, Claim, ListUnder;
    PlusNothing(st.txs);
    PlusNothing(Added(st, e).txs);
    AddedIsListed(st, e);
    AddedIsFiled(st.feeIndex, st.txs, e);
    AddedOwnsImages(st.keyImages, st.txs, e);
    MapSumInsert(st.txs, e.tx.id, e, EntrySize);
  }

  lemma AddedIsWellAdmitted(txs: Entries, id: Hash, e: Entry)
    requires DepsPooled(txs) && id !in txs && e.deps <= txs.Keys && AllWellAdmitted(txs)
    requires e.tx.id == id && 0 < e.tx.size <= MAX_TX_SIZE && |e.deps| < MAX_PACKAGE_DEPTH
    requires e.tx.size + SizeOf(txs, e.deps) <= MAX_PACKAGE_SIZE && Rated(e)
    ensures AllWellAdmitted(txs[id := e])
  {
    hide SizeOf, Rated;
    var txs' := txs[id := e];
    forall x | x in txs'
      ensures WellAdmitted(txs', x)
    {
      if x == id {
        SizeUnchanged(txs, txs', e.deps);
      } else {
        assert WellAdmitted(txs, x);
        StillWellAdmitted(txs, txs', x);
      }
    }
  }

  /** Input `i` spends a pooled transaction that is `d` or depends on `d`. */
  ghost predicate ReachesAt(txs: Entries, tx: Tx, i: nat, d: Hash) {
    && i < |tx.inputs| && tx.inputs[i].prev.txid in txs
    && (d == tx.inputs[i].prev.txid || d in txs[tx.inputs[i].prev.txid].deps)
  }

  ghost predicate Reaches(txs: Entries, tx: Tx, d: Hash) {
    exists i :: ReachesAt(txs, tx, i, d)
  }

  /** The new entry is the transaction itself, pays what its stored inputs are worth
      beyond its outputs, and depends on the pooled transactions it spends and on all
      they depend on. */
  lemma NewEntryIs(st: State, store: Ledger.Store, tx: Tx)
    requires Admissible(st, store, tx)
    ensures var e := NewEntry(st, store, tx);
            && e.tx == tx && Rated(e)
            && e.fee + Validation.OutputSum(tx, |tx.outputs|) == Validation.InputSum(store, tx, |tx.inputs|)
            && forall d :: d in e.deps <==> Reaches(st.txs, tx, d)
    ensures forall i :: 0 <= i < |tx.inputs| ==>
              || Validation.Present(store, Ledger.OutKey(tx.anonymous, tx.inputs[i].prev))
              || tx.inputs[i].prev.txid in st.txs
  {
    hide Validation.InputSum, Validation.OutputSum, Clear, SizeOf, Funded, ImagesFree, Ancestors, DirectParents;
    hide Reaches, Rated;
    InputsAreFunded(st.txs, store, tx);
    var e := NewEntry(st, store, tx);
    QuotientIsRate(e);
    forall d
      ensures d in e.deps <==> Reaches(st.txs, tx, d)
    {
      SpentAncestors(st.txs, tx, d);
    }
  }

  lemma InputsAreFunded(txs: Entries, store: Ledger.Store, tx: Tx)
    requires Funded(txs, store, tx)
    ensures forall i :: 0 <= i < |tx.inputs| ==>
              || Validation.Present(store, Ledger.OutKey(tx.anonymous, tx.inputs[i].prev))
              || tx.inputs[i].prev.txid in txs
  {
  }

  /** The quotient of fee and size is the rate. */
  lemma QuotientIsRate(e: Entry)
    requires e.tx.size > 0 && e.feeRate == e.fee / e.tx.size
    ensures Rated(e)
  {
  }

  lemma SpentAncestors(txs: Entries, tx: Tx, d: Hash)
    ensures d in Ancestors(txs, DirectParents(txs, tx, |tx.inputs|)) <==> Reaches(txs, tx, d)
  {
    SpentFirst(txs, tx, |tx.inputs|, d);
  }

  lemma {:induction false} SpentFirst(txs: Entries, tx: Tx, n: nat, d: Hash)
    requires n <= |tx.inputs|
    ensures d in Ancestors(txs, DirectParents(txs, tx, n)) <==> exists i :: 0 <= i < n && ReachesAt(txs, tx, i, d)
  {
    if n > 0 {
      SpentFirst(txs, tx, n - 1, d);
      var direct := DirectParents(txs, tx, n);
      if tx.inputs[n - 1].prev.txid in txs {
        assert direct[..|direct| - 1] == DirectParents(txs, tx, n - 1);
      }
      assert ReachesAt(txs, tx, n - 1, d) <==> tx.inputs[n - 1].prev.txid in txs
                                               && d in Closure(txs, tx.inputs[n - 1].prev.txid);
    }
  }

  /** Admitting a transaction keeps the whole invariant. */
  lemma AdmittedIsValid(st: State, store: Ledger.Store, tx: Tx)
    requires Valid(st) && tx.id !in st.txs && Admissible(st, store, tx)
    ensures Valid(Added(st, NewEntry(st, store, tx)))
  {
    hide Ancestors, Clear, DirectParents, Consistent, ImagesOf, ImagesFree, Funded, SizeOf, AllWellAdmitted,
         SingleRoute, ListUnder, FileUnder, Claim, Rated, Reaches, Validation.InputSum, Validation.OutputSum;
    NewEntryIs(st, store, tx);
    var e := NewEntry(st, store, tx);
    var direct := DirectParents(st.txs, tx, |tx.inputs|);
    ConsistentIsPooled(st);
    AncestorsAreClosed(st.txs, direct);
    ImagesUnclaimed(st.keyImages, tx);
    AddedIsConsistent(st, e);
    AddedKeepsShape(st.txs, direct, tx.id, e);
    AddedIsWellAdmitted(st.txs, tx.id, e);
  }

  lemma ImagesUnclaimed(keyImages: map<seq<bv8>, Hash>, tx: Tx)
    requires ImagesFree(keyImages, tx)
    ensures ImagesOf(tx) !! keyImages.Keys
  {
    forall image | image in ImagesOf(tx)
      ensures image !in keyImages
    {
      var vin :| vin in tx.inputs && |vin.scriptSig| >= 32 && vin.scriptSig[..32] == image;
      var i :| 0 <= i < |tx.inputs| && tx.inputs[i] == vin;
    }
  }

  // ----- the pool

  datatype PoolOp = InsertOp(store: Ledger.Store, tx: Tx, evictions: seq<Hash>) | RemoveOp(id: Hash) | EvictOp(id: Hash)

  class Pool {
    var txs: Entries
    var byParent: Children
    var feeIndex: map<nat, set<Hash>>
    var totalBytes: nat
    var keyImages: map<seq<bv8>, Hash>

    ghost function View(): State
      reads this
    {
      State(txs, byParent, feeIndex, totalBytes, keyImages)
    }

    /** Removes a transaction and, through `byParent`, everything below it. */
    method Remove(id: Hash, ghost inflight: Entries := map[])
      requires Consistent(View(), inflight)
      modifies this
      ensures Consistent(View(), inflight)
      ensures Cascaded(old(txs), old(byParent), id, txs, byParent)
      ensures inflight == map[] && Valid(old(View())) ==> Valid(View())
      decreases |txs|
    {
      hide Cascaded, PartlyCascaded, Consistent, Valid, ImagesOf, Unlist, ChildrenOf;
      if id !in txs {
        NothingCascades(txs, byParent, id);
        return;
      }
      ghost var st0 := View();
      var entry := txs[id];
      ghost var inflight' := inflight[id := entry];
      DetachedIsConsistent(st0, inflight, id);
      CascadeStarts(txs, byParent, id);
      var children := Detach(id);
      for i := 0 to |children|
        invariant Consistent(View(), inflight')
        invariant PartlyCascaded(st0.txs, st0.byParent, id, i, txs, byParent)
        invariant |txs| < |st0.txs|
      {
        ghost var st1 := View();
        Remove(children[i], inflight');
        CascadeStep(st0.txs, st0.byParent, id, i, st1.txs, st1.byParent, txs, byParent);
        CascadeShrinks(st1.txs, st1.byParent, children[i], txs, byParent);
      }
      CascadeEnds(st0.txs, st0.byParent, id, txs, byParent);
      FinishedIsConsistent(st0, inflight, id, View());
      feeIndex := Unlist(feeIndex, entry.feeRate, id);
      if inflight == map[] && Valid(st0) {
        RemovedIsValid(st0, id, View());
      }
    }

    method Detach(id: Hash) returns (children: seq<Hash>)
      requires id in txs && txs[id].tx.size <= totalBytes
      modifies this
      ensures View() == Detached(old(View()), id)
      ensures children == ChildrenOf(old(byParent), id)
    {
      hide ImagesOf;
      var entry := txs[id];
      txs := txs - {id};
      keyImages := Forget(keyImages, entry.tx);
      totalBytes := totalBytes - entry.tx.size;
      children := ChildrenOf(byParent, id);
      byParent := byParent - {id};
    }

    /** Drops the key images of a transaction, input by input. */
    static method Forget(keyImages: map<seq<bv8>, Hash>, tx: Tx) returns (rest: map<seq<bv8>, Hash>)
      ensures rest == keyImages - ImagesOf(tx)
    {
      rest := keyImages;
      if !tx.anonymous {
        return;
      }
      for i := 0 to |tx.inputs|
        invariant forall image :: image in rest ==> image in keyImages && rest[image] == keyImages[image]
        invariant forall image :: image in keyImages && image !in rest ==> image in ImagesOf(tx)
        invariant forall j :: 0 <= j < i && |tx.inputs[j].scriptSig| >= 32 ==> tx.inputs[j].scriptSig[..32] !in rest
      {
        if |tx.inputs[i].scriptSig| >= 32 {
          rest := rest - {tx.inputs[i].scriptSig[..32]};
        }
      }
    }

    constructor ()
      ensures Valid(View()) && View() == State(map[], map[], map[], 0, map[])
    {
      txs, byParent, feeIndex, totalBytes, keyImages := map[], map[], map[], 0, map[];
    }

    /** Adds up a package and gives up as soon as it is too large. */
    static method PackageFits(txs: Entries, size: nat, deps: set<Hash>) returns (fits: bool)
      requires deps <= txs.Keys && size <= MAX_TX_SIZE
      ensures fits <==> size + SizeOf(txs, deps) <= MAX_PACKAGE_SIZE
    {
      var total, rest := size, deps;
      SizeOfNone(txs);
      assert deps - rest == {};
      while rest != {}
        invariant rest <= deps
        invariant total == size + SizeOf(txs, deps - rest) <= MAX_PACKAGE_SIZE
        decreases |rest|
      {
        var d :| d in rest;
        SizeOfOneMore(txs, deps - rest, d);
        assert deps - (rest - {d}) == (deps - rest) + {d};
        total := total + txs[d].tx.size;
        rest := rest - {d};
        if total > MAX_PACKAGE_SIZE {
          SizeOfMonotone(txs, deps - rest, deps);
          return false;
        }
      }
      assert deps - rest == deps;
      return true;
    }

    /** Sums up the stored outputs that are spent; an input without one must
        come from the pool, and is added to the dependencies, where it already
        is. */
    static method SumFunding(txs: Entries, store: Ledger.Store, tx: Tx, deps: set<Hash>)
      returns (r: Result<nat>, all: set<Hash>)
      requires forall i :: 0 <= i < |tx.inputs| && tx.inputs[i].prev.txid in txs ==> tx.inputs[i].prev.txid in deps
      ensures all == deps
      ensures r.Ok? <==> Funded(txs, store, tx) && Validation.InputSum(store, tx, |tx.inputs|) < U64_BOUND
      ensures r.Ok? ==> r.value == Validation.InputSum(store, tx, |tx.inputs|)
    {
      var sum := 0;
      all := deps;
      for i := 0 to |tx.inputs|
        invariant all == deps
        invariant sum == Validation.InputSum(store, tx, i) < U64_BOUND
        invariant forall j :: 0 <= j < i ==>
                    var key := Ledger.OutKey(tx.anonymous, tx.inputs[j].prev);
                    if key in store then store[key].OutValue? else tx.inputs[j].prev.txid in txs
      {
        var key := Ledger.OutKey(tx.anonymous, tx.inputs[i].prev);
        if key in store {
          if !store[key].OutValue? {
            return Err(InvalidUtxo), all;
          }
          var next := CheckedAdd(sum, store[key].out.value);
          if next.None? {
            Validation.InputSumMonotone(store, tx, i + 1, |tx.inputs|);
            return Err(ValueOverflow), all;
          }
          sum := next.value;
        } else if tx.inputs[i].prev.txid in txs {
          all := all + {tx.inputs[i].prev.txid};
        } else {
          return Err(MissingUtxo), all;
        }
      }
      return Ok(sum), all;
    }

    static method CheckImages(keyImages: map<seq<bv8>, Hash>, tx: Tx) returns (failure: Option<ChainError>)
      ensures failure.None? <==> ImagesFree(keyImages, tx)
    {
      if !tx.anonymous {
        return None;
      }
      for i := 0 to |tx.inputs|
        invariant forall j :: 0 <= j < i ==>
                    |tx.inputs[j].scriptSig| >= 32 && tx.inputs[j].scriptSig[..32] !in keyImages
      {
        if |tx.inputs[i].scriptSig| < 32 {
          return Some(InvalidScript);
        }
        if tx.inputs[i].scriptSig[..32] in keyImages {
          return Some(DoubleSpend);
        }
      }
      return None;
    }

    /** All the checks of an insertion, none of its changes. */
    method Admit(store: Ledger.Store, tx: Tx) returns (r: Result<Entry>)
      requires Valid(View())
      ensures r.Ok? <==> Admissible(View(), store, tx)
      ensures r.Ok? ==> r.value == NewEntry(View(), store, tx)
    {
      hide Valid, Listed, ImagesOwned, Clear, Ancestors, SizeOf, Funded, ImagesFree, DirectParents, Shaped;
      hide Validation.InputSum, Validation.OutputSum;
      if tx.size == 0 || tx.size > MAX_TX_SIZE {
        return Err(InvalidSize);
      }
      ValidParts(View());
      var direct := DirectParents(txs, tx, |tx.inputs|);
      var walk := Walk(txs, direct);
      if walk.Err? {
        return Err(walk.error);
      }
      var deps := walk.value;
      AncestorsAreClosed(txs, direct);
      var fits := PackageFits(txs, tx.size, deps);
      if !fits {
        return Err(PackageSizeExceeded);
      }
      DirectAreAncestors(txs, tx);
      var funding, all := SumFunding(txs, store, tx, deps);
      if funding.Err? {
        return Err(funding.error);
      }
      var outputs := Validation.SumOutputs(tx);
      if outputs.Err? {
        return Err(outputs.error);
      }
      if outputs.value > funding.value {
        return Err(ValueOverflow);
      }
      var fee := funding.value - outputs.value;
      var images := CheckImages(keyImages, tx);
      if images.Some? {
        return Err(images.value);
      }
      return Ok(Entry(tx, fee / tx.size, all, fee));
    }

    /** Enters an admitted transaction in every index. */
    method Add(e: Entry)
      modifies this
      ensures View() == Added(old(View()), e)
    {
      hide ListUnder, FileUnder, Claim;
      keyImages := ClaimImages(keyImages, e.tx);
      txs := txs[e.tx.id := e];
      totalBytes := totalBytes + e.tx.size;
      byParent := ListChild(byParent, e.deps, e.tx.id);
      feeIndex := FileUnder(feeIndex, e.feeRate, e.tx.id);
    }

    /** Ends with the transaction admitted, entered and possibly evicted again,
        or with nothing changed. `evictions` are the transactions the eviction
        loop takes out of the fee heap. */
    method Insert(store: Ledger.Store, tx: Tx, evictions: seq<Hash>) returns (r: Result<bool>)
      requires Valid(View())
      modifies this
      ensures Valid(View())
      ensures r == Ok(false) <==> tx.id in old(txs)
      ensures r == Ok(true) <==> tx.id !in old(txs) && Admissible(old(View()), store, tx)
      ensures r != Ok(true) ==> View() == old(View())
      ensures r == Ok(true) && evictions == [] ==> View() == Added(old(View()), NewEntry(old(View()), store, tx))
      ensures r == Ok(true) ==>
                var added := Added(old(View()), NewEntry(old(View()), store, tx));
                CascadedAll(added.txs, added.byParent, Members(evictions), txs, byParent)
    {
      hide Valid, Admissible, NewEntry, Added, Cascaded, CascadedAll;
      if tx.id in txs {
        return Ok(false);
      }
      ghost var st0 := View();
      var admitted := Admit(store, tx);
      if admitted.Err? {
        return Err(admitted.error);
      }
      AdmittedIsValid(st0, store, tx);
      Add(admitted.value);
      ghost var st1 := View();
      ghost var evicted: set<Hash> := {};
      NothingCascadesYet(txs, byParent);
      for i := 0 to |evictions|
        invariant Valid(View())
        invariant i == 0 ==> View() == st1
        invariant evicted == Members(evictions[..i])
        invariant CascadedAll(st1.txs, st1.byParent, evicted, txs, byParent)
      {
        ghost var st2 := View();
        Evict(evictions[i]);
        CascadeOneMore(st1.txs, st1.byParent, evicted, st2.txs, st2.byParent, evictions[i], txs, byParent);
        assert evictions[..i + 1] == evictions[..i] + [evictions[i]];
        evicted := evicted + {evictions[i]};
      }
      assert evictions[..|evictions|] == evictions;
      RemoveOrphaned();
      return Ok(true);
    }

    /** Takes one transaction out, if it is still pooled. The children that are
        looked up once more afterwards have all gone with it. */
    method Evict(id: Hash)
      requires Valid(View())
      modifies this
      ensures Valid(View())
      ensures Cascaded(old(txs), old(byParent), id, txs, byParent)
      ensures forall x :: x in txs ==> x in old(txs)
    {
      Remove(id);
      CascadedIsSubpool(old(txs), old(byParent), id, txs, byParent);
      var leftover := ChildrenOf(byParent, id);
      RemoveAll(leftover);
    }

    method RemoveAll(ids: seq<Hash>)
      requires Valid(View())
      modifies this
      ensures Valid(View())
      ensures ids == [] ==> View() == old(View())
      ensures CascadedAll(old(txs), old(byParent), Members(ids), txs, byParent)
    {
      hide Valid, Consistent, Cascaded, CascadedAll;
      ghost var st0 := View();
      ghost var removed: set<Hash> := {};
      NothingCascadesYet(txs, byParent);
      for i := 0 to |ids|
        invariant Valid(View())
        invariant i == 0 ==> View() == old(View())
        invariant removed == Members(ids[..i])
        invariant CascadedAll(st0.txs, st0.byParent, removed, txs, byParent)
      {
        ghost var st1 := View();
        ValidIsConsistent(View());
        Remove(ids[i]);
        CascadeOneMore(st0.txs, st0.byParent, removed, st1.txs, st1.byParent, ids[i], txs, byParent);
        assert ids[..i + 1] == ids[..i] + [ids[i]];
        removed := removed + {ids[i]};
      }
      assert ids[..|ids|] == ids;
    }

    /** The pooled transactions with a dependency that is not pooled. */
    method Orphans() returns (orphans: seq<Hash>)
      ensures forall id :: id in orphans <==> id in txs && !(txs[id].deps <= txs.Keys)
    {
      var ids := ListOf(txs.Keys);
      orphans := [];
      for i := 0 to |ids|
        invariant forall id :: id in orphans <==> id in ids[..i] && !(txs[id].deps <= txs.Keys)
      {
        if exists d :: d in txs[ids[i]].deps && d !in txs {
          orphans := orphans + [ids[i]];
        }
        assert ids[..i + 1] == ids[..i] + [ids[i]];
      }
      assert ids[..|ids|] == ids;
    }

    /** Removes what depends on something that is not pooled: nothing. */
    method RemoveOrphaned()
      requires Valid(View())
      modifies this
      ensures View() == old(View())
    {
      var orphans := Orphans();
      NoOrphans(View(), orphans);
      RemoveAll(orphans);
    }

    /** Any sequence of operations keeps the invariant. */
    method Run(ops: seq<PoolOp>)
      requires Valid(View())
      modifies this
      ensures Valid(View())
    {
      hide Valid, Admissible, Consistent, Cascaded;
      for i := 0 to |ops|
        invariant Valid(View())
      {
        ValidIsConsistent(View());
        match ops[i]
        case InsertOp(store, tx, evictions) =>
          var r := Insert(store, tx, evictions);
        case RemoveOp(id) =>
          Remove(id);
        case EvictOp(id) =>
          Evict(id);
      }
    }

    static method ClaimImages(keyImages: map<seq<bv8>, Hash>, tx: Tx) returns (claimed: map<seq<bv8>, Hash>)
      ensures claimed == Claim(keyImages, ImagesOf(tx), tx.id)
    {
      claimed := keyImages;
      if !tx.anonymous {
        return;
      }
      hide ImagesOf, Claim;
      ClaimNone(keyImages, tx.id);
      for i := 0 to |tx.inputs|
        invariant claimed == Claim(keyImages, FirstImages(tx, i), tx.id)
      {
        if |tx.inputs[i].scriptSig| >= 32 {
          ClaimOne(keyImages, FirstImages(tx, i), tx.inputs[i].scriptSig[..32], tx.id);
          claimed := claimed[tx.inputs[i].scriptSig[..32] := tx.id];
        }
      }
      FirstImagesAll(tx);
    }

    static method ListChild(byParent: Children, parents: set<Hash>, id: Hash) returns (listed: Children)
      ensures listed == ListUnder(byParent, parents, id)
    {
      hide ListUnder;
      listed := byParent;
      var rest := parents;
      assert parents - rest == {};
      ListUnderNone(byParent, id);
      while rest != {}
        invariant rest <= parents
        invariant listed == ListUnder(byParent, parents - rest, id)
        decreases |rest|
      {
        var p :| p in rest;
        ListUnderOneMore(byParent, parents - rest, p, id);
        assert parents - (rest - {p}) == (parents - rest) + {p};
        listed := listed[p := ChildrenOf(listed, p) + [id]];
        rest := rest - {p};
      }
      assert parents - rest == parents;
    }
  }

  lemma ValidIsConsistent(st: State)
    requires Valid(st)
    ensures Consistent(st, map[])
  {
  }

  lemma NoOrphans(st: State, orphans: seq<Hash>)
    requires Valid(st)
    requires forall id :: id in orphans <==> id in st.txs && !(st.txs[id].deps <= st.txs.Keys)
    ensures orphans == []
  {
    ConsistentIsPooled(st);
    hide Valid;
    assert forall id :: id in st.txs ==> st.txs[id].deps <= st.txs.Keys;
    FirstIsMember(orphans);
  }

  lemma FirstIsMember(s: seq<Hash>)
    ensures s == [] || s[0] in s
  {
  }

  // ----- what else holds between operations

  lemma ValidParts(st: State)
    requires Valid(st)
    ensures Listed(st.txs, st.byParent, map[]) && st.byParent.Keys <= st.txs.Keys && Shaped(st.txs)
    ensures ImagesOwned(st.keyImages, st.txs)
  {
    hide Listed, Shaped, ImagesOwned, FeeIndexed, AllWellAdmitted, SingleRoute;
  }

  /** No two pooled transactions occupy the same key image. */
  lemma ImagesUnshared(st: State, id: Hash, id': Hash)
    requires Valid(st) && id in st.txs && id' in st.txs && id != id'
    ensures ImagesOf(st.txs[id].tx) !! ImagesOf(st.txs[id'].tx)
  {
    ValidParts(st);
    hide Valid, Listed, Shaped, ImagesOwned, ImagesOf;
    OneOwner(st.keyImages, st.txs, id, id');
  }

  /** So no input of one carries the first 32 script bytes of an input of the other. */
  lemma ScriptsUnshared(st: State, id: Hash, id': Hash, i: nat, j: nat)
    requires Valid(st) && id in st.txs && id' in st.txs && id != id'
    requires st.txs[id].tx.anonymous && st.txs[id'].tx.anonymous
    requires i < |st.txs[id].tx.inputs| && j < |st.txs[id'].tx.inputs|
    requires |st.txs[id].tx.inputs[i].scriptSig| >= 32 && |st.txs[id'].tx.inputs[j].scriptSig| >= 32
    ensures st.txs[id].tx.inputs[i].scriptSig[..32] != st.txs[id'].tx.inputs[j].scriptSig[..32]
  {
    hide Valid;
    ImagesUnshared(st, id, id');
    var tx, tx' := st.txs[id].tx, st.txs[id'].tx;
    assert tx.inputs[i] in tx.inputs && tx'.inputs[j] in tx'.inputs;
    assert tx.inputs[i].scriptSig[..32] in ImagesOf(tx) && tx'.inputs[j].scriptSig[..32] in ImagesOf(tx');
  }

  lemma OneOwner(keyImages: map<seq<bv8>, Hash>, txs: Entries, id: Hash, id': Hash)
    requires ImagesOwned(keyImages, txs) && id in txs && id' in txs && id != id'
    ensures ImagesOf(txs[id].tx) !! ImagesOf(txs[id'].tx)
  {
    hide ImagesOf;
    var images, images' := ImagesOf(txs[id].tx), ImagesOf(txs[id'].tx);
    assert forall image :: image in images ==> image in keyImages && keyImages[image] == id;
    assert forall image :: image in images' ==> image in keyImages && keyImages[image] == id';
  }

  /** A transaction and everything that depends on it. */
  function Family(txs: Entries, x: Hash): set<Hash> {
    set id | id in txs && (id == x || x in txs[id].deps)
  }

  /** Every pooled transaction that is listed as a child really depends on the
      parent. */
  ghost predicate Precise(txs: Entries, byParent: Children) {
    forall p, c :: p in byParent && c in byParent[p] && c in txs ==> c == p || p in txs[c].deps
  }

  lemma FamilyIsGone(txs0: Entries, byParent0: Children, x: Hash, txs: Entries, byParent: Children)
    requires Listed(txs0, byParent0, map[]) && byParent0.Keys <= txs0.Keys && x in txs0
    requires Cascaded(txs0, byParent0, x, txs, byParent)
    ensures Family(txs0, x) <= Gone(txs0, txs)
  {
  }

  /** A removal takes at least the dependents along, and nothing else exactly
      when no family member lists an outsider. */
  lemma CascadeIsFamily(st: State, x: Hash, txs: Entries, byParent: Children)
    requires Valid(st) && x in st.txs && Cascaded(st.txs, st.byParent, x, txs, byParent)
    ensures Family(st.txs, x) <= Gone(st.txs, txs)
    ensures Gone(st.txs, txs) == Family(st.txs, x) <==> Closed(st.txs, st.byParent, Family(st.txs, x))
  {
    ValidParts(st);
    hide Valid, Listed, Shaped, ImagesOwned, Closed;
    FamilyIsGone(st.txs, st.byParent, x, txs, byParent);
    assert x in Family(st.txs, x);
  }

  /** Every removal takes exactly the dependents along if and only if the lists
      of children are precise. */
  lemma PreciseIffExact(st: State)
    requires Valid(st)
    ensures Precise(st.txs, st.byParent) <==> forall x :: x in st.txs ==> Closed(st.txs, st.byParent, Family(st.txs, x))
  {
    ValidParts(st);
    hide Valid, Listed, ImagesOwned;
    if Precise(st.txs, st.byParent) {
      forall x | x in st.txs
        ensures Closed(st.txs, st.byParent, Family(st.txs, x))
      {
        PreciseIsClosed(st.txs, st.byParent, x);
      }
    }
    if forall x :: x in st.txs ==> Closed(st.txs, st.byParent, Family(st.txs, x)) {
      hide Shaped;
      forall p, c | p in st.byParent && c in st.byParent[p] && c in st.txs
        ensures c == p || p in st.txs[c].deps
      {
        assert p in Family(st.txs, p);
        assert c in Family(st.txs, p);
      }
    }
  }

  lemma PreciseIsClosed(txs: Entries, byParent: Children, x: Hash)
    requires Precise(txs, byParent) && Transitive(txs)
    ensures Closed(txs, byParent, Family(txs, x))
  {
    forall p, c | p in Family(txs, x) && p in byParent && c in byParent[p] && c in txs
      ensures c in Family(txs, x)
    {
      assert c == p || txs[p].deps <= txs[c].deps;
    }
  }

  /** A removal keeps the lists precise; an insertion does exactly when no other
      parent still lists the transaction from an earlier stay. */
  lemma RemovalKeepsPrecise(st: State, x: Hash, st': State)
    requires Precise(st.txs, st.byParent) && Cascaded(st.txs, st.byParent, x, st'.txs, st'.byParent)
    ensures Precise(st'.txs, st'.byParent)
  {
  }

  lemma InsertionKeepsPreciseIff(st: State, e: Entry)
    requires Valid(st) && Precise(st.txs, st.byParent) && e.tx.id !in st.txs && e.deps <= st.txs.Keys
    ensures Precise(Added(st, e).txs, Added(st, e).byParent)
            <==> forall p :: p in st.byParent && p !in e.deps ==> e.tx.id !in st.byParent[p]
  {
    ValidParts(st);
    hide Valid, Listed, Shaped, ImagesOwned, ImagesOf, FileUnder, Claim;
    ListingPreciseIff(st.txs, st.byParent, e);
  }

  lemma ListingPreciseIff(txs: Entries, byParent: Children, e: Entry)
    requires Precise(txs, byParent) && byParent.Keys <= txs.Keys && e.tx.id !in txs && e.deps <= txs.Keys
    ensures Precise(txs[e.tx.id := e], ListUnder(byParent, e.deps, e.tx.id))
            <==> forall p :: p in byParent && p !in e.deps ==> e.tx.id !in byParent[p]
  {
    var listed := ListUnder(byParent, e.deps, e.tx.id);
    if Precise(txs[e.tx.id := e], listed) {
      forall p | p in byParent && p !in e.deps
        ensures e.tx.id !in byParent[p]
      {
        assert listed[p] == byParent[p];
        assert e.tx.id in txs[e.tx.id := e] && p != e.tx.id;
      }
    }
  }

  // ----- a run in which a removal sweeps too far

  /** A transparent transaction that spends the first output of `source` and has
      one output of its own. */
  function Spender(id: Hash, source: Hash): Tx {
    Tx(id, false, [TxIn(Outpoint(source, 0), [], 0)], [NOTHING], 0, 1)
  }

  const NOTHING: TxOut := TxOut(0, [], None)

  function SourceKey(source: Hash): Ledger.DbKey {
    Ledger.OutKey(false, Outpoint(source, 0))
  }

  /** Spending a stored output of a transaction that is not pooled. */
  lemma StoredSpender(st: State, store: Ledger.Store, id: Hash, source: Hash)
    requires source !in st.txs && SourceKey(source) in store && store[SourceKey(source)].OutValue?
    ensures var tx := Spender(id, source);
            Admissible(st, store, tx) && NewEntry(st, store, tx).deps == {} && NewEntry(st, store, tx).tx == tx
  {
    var tx := Spender(id, source);
    assert DirectParents(st.txs, tx, 0) == [] && DirectParents(st.txs, tx, 1) == [];
    assert Validation.InputSum(store, tx, 0) == 0;
    assert Validation.OutputSum(tx, 0) == 0 && Validation.OutputSum(tx, 1) == 0;
    EmptyStack(st.txs, {});
    SizeOfNone(st.txs);
  }

  /** Spending an output of a pooled transaction. */
  lemma PooledSpender(st: State, store: Ledger.Store, id: Hash, source: Hash)
    requires source in st.txs && SourceKey(source) !in store && Flat(st.txs, source)
    requires |Closure(st.txs, source)| < MAX_PACKAGE_DEPTH
    requires 1 + SizeOf(st.txs, Closure(st.txs, source)) <= MAX_PACKAGE_SIZE
    ensures var tx := Spender(id, source);
            && Admissible(st, store, tx) && NewEntry(st, store, tx).tx == tx
            && NewEntry(st, store, tx).deps == Closure(st.txs, source)
  {
    hide SizeOf;
    var tx, direct := Spender(id, source), [source];
    assert DirectParents(st.txs, tx, 0) == [] && DirectParents(st.txs, tx, 1) == direct;
    assert Validation.InputSum(store, tx, 0) == 0;
    assert Validation.OutputSum(tx, 0) == 0 && Validation.OutputSum(tx, 1) == 0;
    assert direct[..0] == [] && Ancestors(st.txs, []) == {};
    assert Ancestors(st.txs, direct) == Closure(st.txs, source);
  }

  /** Entering, removing and entering again in this order leaves `c` listed under
      a transaction it no longer depends on: `u`, which stays throughout; `p`; `q`
      spending `p`; `c` spending `q`; `q` is removed, and `c` with it; `c` comes
      back when the output of `q` is stored. Removing `p` now removes `c` too,
      although it depended on nothing. */
  method StaleListingSweeps(v: Hash, o: Hash, u: Hash, p: Hash, q: Hash, c: Hash)
    returns (deps: set<Hash>, left: Entries)
    requires DistinctIds([v, o, u, p, q, c])
    ensures deps == {} && left.Keys == {u}
  {
    hide Valid, Consistent, Admissible, NewEntry, Cascaded, Chained, Added, DistinctIds;
    var store: Ledger.Store := map[SourceKey(v) := Ledger.OutValue(NOTHING), SourceKey(o) := Ledger.OutValue(NOTHING)];
    ApartIds(v, o, u, p, q, c);
    var pool := InsertFour(store, v, o, u, p, q, c);
    ghost var st := pool.View();
    ValidIsConsistent(st);
    pool.Remove(q);
    MiddleLeaves(st, u, p, q, c, pool.txs, pool.byParent);
    store := store[SourceKey(q) := Ledger.OutValue(Spender(q, p).outputs[0])];
    st := pool.View();
    StoredSpender(st, store, c, q);
    var r := pool.Insert(store, Spender(c, q), []);
    BackAgain(st, NewEntry(st, store, Spender(c, q)));
    deps := pool.txs[c].deps;
    st := pool.View();
    ValidIsConsistent(st);
    pool.Remove(p);
    FirstLeaves(st.txs, st.byParent, u, p, q, c, pool.txs, pool.byParent);
    left := pool.txs;
  }

  ghost predicate DistinctIds(ids: seq<Hash>) {
    forall i, j :: 0 <= i < j < |ids| ==> ids[i] != ids[j]
  }

  lemma ApartIds(v: Hash, o: Hash, u: Hash, p: Hash, q: Hash, c: Hash)
    requires DistinctIds([v, o, u, p, q, c])
    ensures v != u && v != p && v != q && v != c && o != u && o != p && o != q && o != c
    ensures u != p && u != q && u != c && p != q && p != c && q != c && v != o
  {
    var ids := [v, o, u, p, q, c];
    assert forall i, j :: 0 <= i < j < 6 ==> ids[i] != ids[j];
    assert ids[0] == v && ids[1] == o && ids[2] == u && ids[3] == p && ids[4] == q && ids[5] == c;
  }

  method InsertFour(store: Ledger.Store, v: Hash, o: Hash, u: Hash, p: Hash, q: Hash, c: Hash) returns (pool: Pool)
    requires DistinctIds([v, o, u, p, q, c]) && store.Keys == {SourceKey(v), SourceKey(o)}
    requires store[SourceKey(v)].OutValue? && store[SourceKey(o)].OutValue?
    ensures fresh(pool) && Valid(pool.View()) && Chained(pool.View(), u, p, q, c)
  {
    hide Valid, Admissible, NewEntry, Added, Alone, Joined, Paired, Chained, DistinctIds;
    ApartIds(v, o, u, p, q, c);
    pool := new Pool();
    FirstIn(pool.View(), store, v, u);
    var r := pool.Insert(store, Spender(u, v), []);
    SecondIn(pool.View(), store, o, u, p);
    r := pool.Insert(store, Spender(p, o), []);
    ThirdIn(pool.View(), store, u, p, q);
    r := pool.Insert(store, Spender(q, p), []);
    FourthIn(pool.View(), store, u, p, q, c);
    r := pool.Insert(store, Spender(c, q), []);
  }

  lemma BackAgain(st: State, e: Entry)
    requires e.deps == {}
    ensures Added(st, e).txs == st.txs[e.tx.id := e] && Added(st, e).byParent == st.byParent
  {
    ListUnderNone(st.byParent, e.tx.id);
  }

  /** The pool after each of the four insertions. */
  ghost predicate Alone(st: State, u: Hash) {
    st.txs.Keys == {u} && st.byParent == map[]
  }

  ghost predicate Joined(st: State, u: Hash, p: Hash) {
    st.txs.Keys == {u, p} && st.byParent == map[] && st.txs[p].deps == {} && st.txs[p].tx.size == 1
  }

  ghost predicate Paired(st: State, u: Hash, p: Hash, q: Hash) {
    && st.txs.Keys == {u, p, q} && st.byParent == map[p := [q]]
    && st.txs[p].deps == {} && st.txs[p].tx.size == 1
    && st.txs[q].deps == {p} && st.txs[q].tx.size == 1
  }

  ghost predicate Chained(st: State, u: Hash, p: Hash, q: Hash, c: Hash) {
    st.txs.Keys == {u, p, q, c} && st.byParent == map[p := [q, c], q := [c]]
  }

  lemma FirstIn(st: State, store: Ledger.Store, v: Hash, u: Hash)
    requires st.txs == map[] && st.byParent == map[]
    requires SourceKey(v) in store && store[SourceKey(v)].OutValue?
    ensures Admissible(st, store, Spender(u, v)) && Alone(Added(st, NewEntry(st, store, Spender(u, v))), u)
  {
    hide Admissible, NewEntry, ImagesOf, FileUnder, Claim;
    StoredSpender(st, store, u, v);
    BackAgain(st, NewEntry(st, store, Spender(u, v)));
  }

  lemma SecondIn(st: State, store: Ledger.Store, o: Hash, u: Hash, p: Hash)
    requires Alone(st, u) && u != p && o != u && SourceKey(o) in store && store[SourceKey(o)].OutValue?
    ensures Admissible(st, store, Spender(p, o)) && p !in st.txs
    ensures Joined(Added(st, NewEntry(st, store, Spender(p, o))), u, p)
  {
    hide Admissible, NewEntry, ImagesOf, FileUnder, Claim;
    StoredSpender(st, store, p, o);
    BackAgain(st, NewEntry(st, store, Spender(p, o)));
  }

  lemma ThirdIn(st: State, store: Ledger.Store, u: Hash, p: Hash, q: Hash)
    requires Joined(st, u, p) && u != p && u != q && p != q && SourceKey(p) !in store
    ensures Admissible(st, store, Spender(q, p)) && q !in st.txs
    ensures Paired(Added(st, NewEntry(st, store, Spender(q, p))), u, p, q)
  {
    hide Admissible, NewEntry, SizeOf, ImagesOf, FileUnder, Claim;
    assert Closure(st.txs, p) == {p};
    OneSize(st.txs, {}, p);
    PooledSpender(st, store, q, p);
    assert ChildrenOf(st.byParent, p) + [q] == [q];
    assert ListUnder(st.byParent, {p}, q) == map[p := [q]];
  }

  lemma FourthIn(st: State, store: Ledger.Store, u: Hash, p: Hash, q: Hash, c: Hash)
    requires Paired(st, u, p, q) && u != c && u != q && p != q && c != p && c != q && SourceKey(q) !in store
    ensures Admissible(st, store, Spender(c, q)) && c !in st.txs
    ensures Chained(Added(st, NewEntry(st, store, Spender(c, q))), u, p, q, c)
  {
    hide Admissible, NewEntry, SizeOf, ImagesOf, FileUnder, Claim;
    var family := Closure(st.txs, q);
    assert family == {p} + {q} && |family| == 2;
    OneSize(st.txs, {}, p);
    OneSize(st.txs, {p}, q);
    PooledSpender(st, store, c, q);
    assert ChildrenOf(st.byParent, p) + [c] == [q, c] && ChildrenOf(st.byParent, q) + [c] == [c];
    assert ListUnder(st.byParent, family, c) == map[p := [q, c], q := [c]];
  }

  lemma OneSize(txs: Entries, ids: set<Hash>, d: Hash)
    requires d in txs && d !in ids && txs[d].tx.size == 1
    ensures SizeOf(txs, {}) == 0 && SizeOf(txs, ids + {d}) == SizeOf(txs, ids) + 1
    ensures {} + {d} == {d}
  {
    SizeOfNone(txs);
    SizeOfOneMore(txs, ids, d);
  }

  lemma MiddleLeaves(st: State, u: Hash, p: Hash, q: Hash, c: Hash, txs: Entries, byParent: Children)
    requires Chained(st, u, p, q, c) && u != q && u != c && p != q && p != c && q != c
    requires Cascaded(st.txs, st.byParent, q, txs, byParent)
    ensures txs.Keys == {u, p} && byParent == map[p := [q, c]]
  {
    var txs0, byParent0 := st.txs, st.byParent;
    var gone := Gone(txs0, txs);
    assert Closed(txs0, byParent0, {q, c});
    assert gone <= {q, c};
    assert c in byParent0[q];
    assert gone == {q, c};
  }

  lemma FirstLeaves(txs0: Entries, byParent0: Children, u: Hash, p: Hash, q: Hash, c: Hash,
                    txs: Entries, byParent: Children)
    requires txs0.Keys == {u, p, c} && byParent0 == map[p := [q, c]] && u != p && u != c && q !in txs0
    requires Cascaded(txs0, byParent0, p, txs, byParent)
    ensures txs.Keys == {u}
  {
    var gone := Gone(txs0, txs);
    assert Closed(txs0, byParent0, {p, c});
    assert gone <= {p, c};
    assert c in byParent0[p] && p in gone;
    assert gone == {p, c};
  }

  lemma DirectAreAncestors(txs: Entries, tx: Tx)
    ensures forall i :: 0 <= i < |tx.inputs| && tx.inputs[i].prev.txid in txs ==>
              tx.inputs[i].prev.txid in Ancestors(txs, DirectParents(txs, tx, |tx.inputs|))
  {
    var direct := DirectParents(txs, tx, |tx.inputs|);
    forall i | 0 <= i < |tx.inputs| && tx.inputs[i].prev.txid in txs
      ensures tx.inputs[i].prev.txid in Ancestors(txs, direct)
    {
      var k :| 0 <= k < |direct| && direct[k] == tx.inputs[i].prev.txid;
      AncestorsHold(txs, direct, k);
    }
  }

  /** The key images of the first `n` inputs. */
  function FirstImages(tx: Tx, n: nat): set<seq<bv8>>
    requires n <= |tx.inputs|
  {
    if n == 0 then {} else
      FirstImages(tx, n - 1) + if |tx.inputs[n - 1].scriptSig| >= 32 then {tx.inputs[n - 1].scriptSig[..32]} else {}
  }

  lemma {:induction false} FirstImagesAre(tx: Tx, n: nat, image: seq<bv8>)
    requires n <= |tx.inputs|
    ensures image in FirstImages(tx, n)
            <==> exists j :: 0 <= j < n && |tx.inputs[j].scriptSig| >= 32 && tx.inputs[j].scriptSig[..32] == image
  {
    if n > 0 {
      FirstImagesAre(tx, n - 1, image);
    }
  }

  lemma FirstImagesAll(tx: Tx)
    requires tx.anonymous
    ensures FirstImages(tx, |tx.inputs|) == ImagesOf(tx)
  {
    forall image
      ensures image in FirstImages(tx, |tx.inputs|) <==> image in ImagesOf(tx)
    {
      FirstImagesAre(tx, |tx.inputs|, image);
      if image in FirstImages(tx, |tx.inputs|) {
        var j :| 0 <= j < |tx.inputs| && |tx.inputs[j].scriptSig| >= 32 && tx.inputs[j].scriptSig[..32] == image;
        assert tx.inputs[j] in tx.inputs;
      }
    }
  }

  lemma ClaimNone(keyImages: map<seq<bv8>, Hash>, id: Hash)
    ensures Claim(keyImages, {}, id) == keyImages
  {
  }

  lemma ClaimOne(keyImages: map<seq<bv8>, Hash>, images: set<seq<bv8>>, image: seq<bv8>, id: Hash)
    ensures Claim(keyImages, images + {image}, id) == Claim(keyImages, images, id)[image := id]
  {
  }

  lemma ListUnderNone(byParent: Children, id: Hash)
    ensures ListUnder(byParent, {}, id) == byParent
  {
    var listed := ListUnder(byParent, {}, id);
    assert listed.Keys == byParent.Keys;
    forall p | p in byParent
      ensures listed[p] == byParent[p]
    {
      assert byParent[p] + [] == byParent[p];
    }
  }

  lemma ListUnderOneMore(byParent: Children, parents: set<Hash>, p: Hash, id: Hash)
    requires p !in parents
    ensures var listed := ListUnder(byParent, parents, id);
            ListUnder(byParent, parents + {p}, id) == listed[p := ChildrenOf(listed, p) + [id]]
  {
    var listed := ListUnder(byParent, parents, id);
    var more := ListUnder(byParent, parents + {p}, id);
    assert more.Keys == listed.Keys + {p};
    assert ChildrenOf(listed, p) == ChildrenOf(byParent, p) by {
      if p in byParent {
        assert ChildrenOf(byParent, p) + [] == ChildrenOf(byParent, p);
      }
    }
  }

  lemma SizeOfNone(txs: Entries)
    ensures SizeOf(txs, {}) == 0
  {
  }

  lemma SizeOfOneMore(txs: Entries, ids: set<Hash>, d: Hash)
    requires d !in ids && d in txs
    ensures SizeOf(txs, ids + {d}) == SizeOf(txs, ids) + txs[d].tx.size
  {
    var m, m' := map x | x in ids && x in txs :: txs[x], map x | x in ids + {d} && x in txs :: txs[x];
    assert m' == m[d := txs[d]];
    MapSumInsert(m, d, txs[d], EntrySize);
  }

  lemma {:induction false} SizeOfMonotone(txs: Entries, a: set<Hash>, b: set<Hash>)
    requires a <= b <= txs.Keys
    ensures SizeOf(txs, a) <= SizeOf(txs, b)
    decreases |b - a|
  {
    hide SizeOf;
    if !(b <= a) {
      var d :| d in b && d !in a;
      SizeOfOneMore(txs, a, d);
      assert b - (a + {d}) == (b - a) - {d};
      SizeOfMonotone(txs, a + {d}, b);
    } else {
      assert a == b;
    }
  }
}
