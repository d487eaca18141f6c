/** A node connecting block after block: one step with all its outcomes, and
    what every run of steps keeps. */
module LedgerRuns {
  import opened Basics
  import opened Sums
  import opened SetDigest
  import opened Emission
  import opened Ledger
  import opened LedgerInvariants
  import opened Rollback
  import opened Validation
  import opened Conservation

  /** The stored store and the in-memory digest and supply. */
  datatype Node = Node(store: Store, digest: Hash, supply: nat)

  function StoredSupply(store: Store): nat {
    var key := MetaKey(StateTotalSupply);
    if key in store && store[key].AmountValue? then store[key].amount else 0
  }

  /** The supply a connected block is recorded with: it grows by the subsidy,
      whatever the loop over the effects computed. */
  function NextSupply(store: Store, height: nat): nat {
    (StoredSupply(store) + Subsidy(height)) % U64_BOUND
  }

  function TxRecords(txs: seq<Tx>, height: nat): (ops: seq<Op>)
    ensures |ops| == |txs|
    ensures forall i :: 0 <= i < |ops| ==> ops[i] == Put(TxIndexKey(txs[i].id), PositionValue(height, i))
  {
    seq(|txs|, i requires 0 <= i < |txs| => Put(TxIndexKey(txs[i].id), PositionValue(height, i)))
  }

  /** The rest of the batch: digest, supplies, header and transaction index. */
  function Records(block: Block, height: nat, digest: Hash, loopSupply: nat, supply: nat): seq<Op> {
    [Put(MetaKey(UtxoSetHash), DigestValue(digest)), Put(MetaKey(TotalSupply), AmountValue(loopSupply)),
     Put(HeaderKey(height), HeaderValue(block.header))]
    + TxRecords(block.txs, height)
    + [Put(MetaKey(StateTotalSupply), AmountValue(supply))]
  }

  function BatchOf(hashes: Hashes, node: Node, block: Block, height: nat): seq<Op>
    requires Failure(node.supply, BlockPlan(hashes, node.store, block.txs, height)).None?
  {
    var effects := BlockPlan(hashes, node.store, block.txs, height).effects;
    OpsOf(effects) + Records(block, height, HashAfter(hashes, node.digest, effects),
                             SupplyAfter(node.supply, effects).value, NextSupply(node.store, height))
  }

  /** Connecting one block, when the write succeeds. */
  function Step(hashes: Hashes, node: Node, block: Block, height: nat): Result<Node> {
    var plan := BlockPlan(hashes, node.store, block.txs, height);
    var failure := Failure(node.supply, plan);
    if failure.Some? then Err(failure.value)
    else Ok(Node(ApplyOps(node.store, BatchOf(hashes, node, block, height)),
                 HashAfter(hashes, node.digest, plan.effects),
                 NextSupply(node.store, height)))
  }

  // ----- one step as it runs

  /** What becomes of the write: it lands whole, or only a prefix lands and the
      rollback batch is written or not. */
  datatype WriteOutcome = Written | Torn(landed: nat, undone: bool)

  class Chain {
    var store: Store
    var digest: Hash
    var supply: nat
    var batchPending: bool
    var readOnly: bool

    constructor ()
      ensures View() == Node(map[], ZERO_HASH, 0) && !batchPending && !readOnly
    {
      store, digest, supply := map[], ZERO_HASH, 0;
      batchPending, readOnly := false, false;
    }

    ghost function View(): Node
      reads this
    {
      Node(store, digest, supply)
    }

    /** On success the chain has taken the step. On any failure the in-memory
        state stays, and the covered families are back as they were unless the
        rollback itself was lost or the block overwrote an existing key; but the
        pending flag is left set, so every later call fails. */
    method Connect(hashes: Hashes, block: Block, height: nat, outcome: WriteOutcome)
      returns (failure: Option<ChainError>)
      modifies this
      ensures old(batchPending) || old(readOnly) ==>
                failure.Some? && View() == old(View()) && batchPending == old(batchPending) && readOnly == old(readOnly)
      ensures !old(batchPending) && !old(readOnly) ==> batchPending == failure.Some?
      ensures failure.None? <==> !old(batchPending) && !old(readOnly) && outcome.Written?
                                 && Step(hashes, old(View()), block, height).Ok?
      ensures failure.None? ==> Step(hashes, old(View()), block, height) == Ok(View())
      ensures failure.Some? ==> digest == old(digest) && supply == old(supply)
      ensures failure.Some? && outcome.Written? ==> store == old(store)
      ensures failure.Some? && outcome.Torn? && outcome.undone
              && OverwritesNothing(old(store), BlockPlan(hashes, old(store), block.txs, height).effects)
              ==> AgreeOnTracked(store, old(store))
      ensures readOnly && !old(readOnly) ==> outcome.Torn? && !outcome.undone
    {
      hide BlockPlan, OverwritesNothing, HashAfter, SupplyAfter, ApplyOps, NextSupply, AllWellFormed;
      if batchPending {
        return Some(BatchPending);
      }
      if readOnly {
        return Some(ReadOnlyMode);
      }
      batchPending := true;
      ghost var node, plan := View(), BlockPlan(hashes, store, block.txs, height);
      ghost var start := Start(hashes, digest, supply);
      NothingPlanned(start);
      var pending := new Pending(digest, supply);
      failure := pending.ConnectBlock(hashes, store, block.txs, height, start);
      if failure.Some? {
        return;
      }
      var newDigest := pending.setHash[..];
      var newSupply := NextSupply(store, height);
      var records := Records(block, height, newDigest, pending.supply, newSupply);
      var batch := pending.batch + records;
      if outcome.Torn? {
        ghost var before := store;
        ghost var n := Min(outcome.landed, |batch|);
        store := ApplyOps(store, batch[..Min(outcome.landed, |batch|)]);
        if outcome.undone {
          var rollback := BuildRollback(pending.undo, store);
          store := ApplyOps(store, rollback);
          BlockWellFormed(hashes, before, block.txs, height);
          RecordsUntracked(block, height, newDigest, pending.supply, newSupply);
          RollbackRestoresIff(before, plan.effects, records, batch, n);
        } else {
          readOnly := true;
        }
        return Some(WriteError);
      }
      store := ApplyOps(store, batch);
      digest, supply := newDigest, newSupply;
      batchPending := false;
      return None;
    }
  }

  lemma NothingPlanned(start: Start)
    ensures HashAfter(start.hashes, start.digest, []) == start.digest
    ensures SupplyAfter(start.supply, []) == Some(start.supply)
  {
  }

  lemma RecordsUntracked(block: Block, height: nat, digest: Hash, loopSupply: nat, supply: nat)
    ensures var records := Records(block, height, digest, loopSupply, supply);
            forall i :: 0 <= i < |records| ==> !Tracked(records[i].key)
  {
  }

  // ----- what one step does to the set

  lemma {:induction false} RecordsKeepOuts(store: Store, ops: seq<Op>)
    requires forall i :: 0 <= i < |ops| ==> ops[i].Put? && !Tracked(ops[i].key)
    ensures Outs(ApplyOps(store, ops)) == Outs(store)
  {
    if ops != [] {
      RecordsKeepOuts(store, ops[..|ops| - 1]);
    }
  }

  lemma {:induction false} ApplyConcat(store: Store, a: seq<Op>, b: seq<Op>)
    ensures ApplyOps(store, a + b) == ApplyOps(ApplyOps(store, a), b)
  {
    if b == [] {
      assert a + b == a;
    } else {
      assert (a + b)[..|a + b| - 1] == a + b[..|b| - 1];
      ApplyConcat(store, a, b[..|b| - 1]);
    }
  }

  /** After a step the set is what the block's effects made of it. */
  lemma StepOuts(hashes: Hashes, node: Node, block: Block, height: nat)
    requires Step(hashes, node, block, height).Ok?
    ensures var next := Step(hashes, node, block, height).value;
            && Outs(next.store) == Outs(After(node.store, BlockPlan(hashes, node.store, block.txs, height).effects))
            && StoredSupply(next.store) == next.supply
  {
    hide BlockPlan, Outs, StoredSupply, HashAfter, SupplyAfter;
    var effects := BlockPlan(hashes, node.store, block.txs, height).effects;
    var records := Records(block, height, HashAfter(hashes, node.digest, effects),
                           SupplyAfter(node.supply, effects).value, NextSupply(node.store, height));
    ApplyConcat(node.store, OpsOf(effects), records);
    RecordsKeepOuts(After(node.store, effects), records);
    LastRecord(node.store, OpsOf(effects) + records, NextSupply(node.store, height));
  }

  lemma LastRecord(store: Store, batch: seq<Op>, supply: nat)
    requires batch != [] && batch[|batch| - 1] == Put(MetaKey(StateTotalSupply), AmountValue(supply))
    ensures StoredSupply(ApplyOps(store, batch)) == supply
  {
  }

  ghost predicate DigestMatches(hashes: Hashes, node: Node) {
    node.digest == SetHash(hashes, node.store)
  }

  lemma StepKeepsDigest(hashes: Hashes, node: Node, block: Block, height: nat, next: Node)
    requires DigestMatches(hashes, node) && CleanBlock(hashes, node.store, block.txs, height)
    requires Moves(hashes, node, block, height, next)
    ensures DigestMatches(hashes, next)
  {
    StepOuts(hashes, node, block, height);
    DigestFollowsSet(hashes, node.store, BlockPlan(hashes, node.store, block.txs, height).effects);
  }

  // ----- runs

  /** One step of a run, from `a` to `b`. */
  ghost predicate Moves(hashes: Hashes, a: Node, block: Block, height: nat, b: Node) {
    Step(hashes, a, block, height) == Ok(b)
  }

  /** `nodes` are the states that connecting `blocks` from `height` on passes. */
  ghost predicate IsRun(hashes: Hashes, nodes: seq<Node>, blocks: seq<Block>, height: nat) {
    && |nodes| == |blocks| + 1
    && forall i :: 0 <= i < |blocks| ==> Moves(hashes, nodes[i], blocks[i], height + i, nodes[i + 1])
  }

  /** Every block is clean where it is connected. */
  ghost predicate CleanRun(hashes: Hashes, nodes: seq<Node>, blocks: seq<Block>, height: nat)
    requires |nodes| == |blocks| + 1
  {
    forall i :: 0 <= i < |blocks| ==> CleanBlock(hashes, nodes[i].store, blocks[i].txs, height + i)
  }

  /** Every block is valid where it is connected. */
  ghost predicate ValidRun(nodes: seq<Node>, blocks: seq<Block>, height: nat, proofsOk: Tx -> bool)
    requires |nodes| == |blocks| + 1
  {
    forall i :: 0 <= i < |blocks| ==> AcceptableAt(nodes[i], blocks[i], height + i, proofsOk)
  }

  /** The block passed validation at its height, on the state before it. */
  ghost predicate AcceptableAt(node: Node, block: Block, height: nat, proofsOk: Tx -> bool) {
    height >= 1 && Acceptable(node.store, block.txs, height, height - 1, proofsOk)
  }

  lemma {:induction false} RunMatches(hashes: Hashes, nodes: seq<Node>, blocks: seq<Block>, height: nat, k: nat)
    requires IsRun(hashes, nodes, blocks, height) && CleanRun(hashes, nodes, blocks, height)
    requires DigestMatches(hashes, nodes[0]) && k < |nodes|
    ensures DigestMatches(hashes, nodes[k])
  {
    hide Step, CleanBlock, DigestMatches;
    if k > 0 {
      RunMatches(hashes, nodes, blocks, height, k - 1);
      assert Moves(hashes, nodes[k - 1], blocks[k - 1], height + (k - 1), nodes[k]);
      StepKeepsDigest(hashes, nodes[k - 1], blocks[k - 1], height + (k - 1), nodes[k]);
    }
  }

  /** At every point of every run of clean blocks the running digest is the
      exclusive or over the whole set, in whatever order its keys are listed. */
  lemma RunKeepsDigest(hashes: Hashes, nodes: seq<Node>, blocks: seq<Block>, height: nat, k: nat, keys: seq<DbKey>)
    requires IsRun(hashes, nodes, blocks, height) && CleanRun(hashes, nodes, blocks, height)
    requires DigestMatches(hashes, nodes[0]) && k < |nodes|
    requires Enumerates(Outs(nodes[k].store), keys)
    ensures nodes[k].digest == XorSeq(Outs(nodes[k].store), keys, Digester(hashes))
    ensures forall key :: key in keys ==>
              key.OutKey? && forall out :: Digester(hashes)(key, out) == hashes.entry(key.op, out)
  {
    RunMatches(hashes, nodes, blocks, height, k);
    AnyOrder(Outs(nodes[k].store), keys, Digester(hashes));
  }

  /** Without distinct spends the digest may drift: after a block that creates no
      existing output it matches the set if and only if the digests of the outputs
      spent an even number of times cancel out. */
  lemma StepKeepsDigestIff(hashes: Hashes, node: Node, block: Block, height: nat, next: Node)
    requires DigestMatches(hashes, node) && Moves(hashes, node, block, height, next)
    requires FreshCreates(node.store, BlockPlan(hashes, node.store, block.txs, height).effects)
    ensures DigestMatches(hashes, next)
            <==> Drift(hashes, node.store, BlockPlan(hashes, node.store, block.txs, height).effects) == ZERO_HASH
  {
    var effects := BlockPlan(hashes, node.store, block.txs, height).effects;
    StepOuts(hashes, node, block, height);
    BlockWellFormed(hashes, node.store, block.txs, height);
    hide Drift;
    DigestMatchesIff(hashes, node.store, effects);
  }

  /** Two valid transactions of one block that spend the same output: each passes
      validation on its own, the block connects, and the digest no longer matches
      the set unless that output's own digest is zero. */
  lemma DoubleSpendDrifts(hashes: Hashes, node: Node, block: Block, height: nat, next: Node, proofsOk: Tx -> bool)
    requires DigestMatches(hashes, node) && Moves(hashes, node, block, height, next)
    requires AcceptableAt(node, block, height, proofsOk) && |block.txs| == 3
    requires forall i :: 1 <= i < 3 ==> !block.txs[i].IsCoinbase() && !block.txs[i].anonymous
    requires |block.txs[1].inputs| == 1 && block.txs[1].inputs == block.txs[2].inputs
    requires block.txs[1].outputs == [] && block.txs[2].outputs == []
    ensures var key := OutKey(false, block.txs[1].inputs[0].prev);
            && Present(node.store, key)
            && (DigestMatches(hashes, next) <==> EntryDigest(hashes, key, node.store[key].out) == ZERO_HASH)
  {
    hide Drift, DigestMatches, Moves, BlockPlan, FreshCreates, EntryDigest;
    var txs, key := block.txs, OutKey(false, block.txs[1].inputs[0].prev);
    assert ValidTx(node.store, txs[1], height, height - 1, proofsOk);
    assert Present(node.store, key);
    hide ValidTx, Acceptable, Present;
    SpendTwicePlan(hashes, node.store, txs, height);
    SpendTwiceDrift(hashes, node.store, CoinbaseKey(txs[0].id), HeightValue(height), key);
    StepKeepsDigestIff(hashes, node, block, height, next);
  }

  lemma SpendTwicePlan(hashes: Hashes, store: Store, txs: seq<Tx>, height: nat)
    requires |txs| == 3 && txs[0].IsCoinbase()
    requires forall i :: 1 <= i < 3 ==> !txs[i].IsCoinbase() && !txs[i].anonymous && txs[i].outputs == []
    requires |txs[1].inputs| == 1 && txs[1].inputs == txs[2].inputs
    requires Present(store, OutKey(false, txs[1].inputs[0].prev))
    ensures var key := OutKey(false, txs[1].inputs[0].prev);
            var e := Spend(key, store[key].out);
            BlockPlan(hashes, store, txs, height)
            == Plan([Mark(CoinbaseKey(txs[0].id), HeightValue(height)), e, e], None)
  {
    var key := OutKey(false, txs[1].inputs[0].prev);
    var mark, e := Mark(CoinbaseKey(txs[0].id), HeightValue(height)), Spend(key, store[key].out);
    OneSpendPlan(hashes, store, txs[1], height);
    OneSpendPlan(hashes, store, txs[2], height);
    assert txs[..2][..1] == txs[..1] && txs[..1][..0] == [];
    hide TxPlan;
    assert TxPlan(hashes, store, txs[0], height) == Plan([mark], None) by {
      CoinbasePlan(hashes, store, txs[0], height);
    }
    assert BlockPlan(hashes, store, txs[..1], height) == Plan([mark], None);
    assert BlockPlan(hashes, store, txs[..2], height) == Plan([mark, e], None);
  }

  lemma CoinbasePlan(hashes: Hashes, store: Store, tx: Tx, height: nat)
    requires tx.IsCoinbase()
    ensures TxPlan(hashes, store, tx, height) == Plan([Mark(CoinbaseKey(tx.id), HeightValue(height))], None)
  {
  }

  lemma OneSpendPlan(hashes: Hashes, store: Store, tx: Tx, height: nat)
    requires !tx.IsCoinbase() && !tx.anonymous && tx.outputs == [] && |tx.inputs| == 1
    requires Present(store, OutKey(false, tx.inputs[0].prev))
    ensures var key := OutKey(false, tx.inputs[0].prev);
            TxPlan(hashes, store, tx, height) == Plan([Spend(key, store[key].out)], None)
  {
    var key := OutKey(false, tx.inputs[0].prev);
    assert InputsPlan(store, tx, 0, height) == DONE;
    assert InputPlan(store, tx, tx.inputs[0], height) == Plan([Spend(key, store[key].out)], None);
    assert InputsPlan(store, tx, 1, height) == Plan([Spend(key, store[key].out)], None);
  }

  lemma SpendTwiceDrift(hashes: Hashes, store: Store, mark: DbKey, value: DbValue, key: DbKey)
    requires Present(store, key) && key.OutKey?
    ensures var e := Spend(key, store[key].out);
            && FreshCreates(store, [Mark(mark, value), e, e])
            && Drift(hashes, store, [Mark(mark, value), e, e]) == EntryDigest(hashes, key, store[key].out)
  {
    var e := Spend(key, store[key].out);
    var effects := [Mark(mark, value), e, e];
    forall k
      ensures SpendCount(effects, k) == if k == key then 2 else 0
    {
      assert effects[..2][..1] == effects[..1] && effects[..1][..0] == [];
      assert SpendCount(effects[..1], k) == 0;
      assert SpendCount(effects[..2], k) == if k == key then 1 else 0;
    }
    var even := EvenlySpent(store, effects);
    assert even == map[key := e.out];
    XorAllRemove(even, key, Digester(hashes));
    assert even - {key} == map[];
    XorCancel(EntryDigest(hashes, key, e.out), ZERO_HASH);
    ZeroXor(EntryDigest(hashes, key, e.out));
  }

  lemma ZeroXor(a: Hash)
    ensures Xor(ZERO_HASH, a) == a
  {
    forall i | 0 <= i < 32
      ensures Xor(ZERO_HASH, a)[i] == a[i]
    {
      var x := a[i];
      assert 0 ^ x == x;
    }
  }

  // ----- conservation over runs

  /** The figures of a state: the value of its set, its supply in memory and the
      stored one. */
  datatype Books = Books(value: nat, supply: nat, stored: nat)

  ghost function BooksOf(node: Node): Books {
    Books(SetValue(node.store), node.supply, StoredSupply(node.store))
  }

  /** The supply in memory is the stored one and covers the set. */
  predicate Covered(b: Books) {
    b.stored == b.supply && b.value <= b.supply
  }

  /** A block that earns `reward` and pays out `paid` keeps the books, as long as
      the supply fits 64 bits. */
  predicate Balanced(b: Books, reward: nat, paid: nat, b': Books) {
    b.stored == b.supply && b.supply + reward < U64_BOUND ==>
      && b'.supply == b'.stored == b.supply + reward
      && b'.value <= b.value
      && b'.value + paid == b.value + reward
  }

  /** What the coinbase of a block pays out. */
  function Payout(txs: seq<Tx>): nat {
    if txs != [] && txs[0].outputs != [] then txs[0].outputs[0].value else 0
  }

  function PaidOut(blocks: seq<Block>, k: nat): nat
    requires k <= |blocks|
  {
    if k == 0 then 0 else PaidOut(blocks, k - 1) + Payout(blocks[k - 1].txs)
  }

  /** A valid, clean block always connects. */
  lemma StepSucceeds(hashes: Hashes, node: Node, block: Block, height: nat, proofsOk: Tx -> bool)
    requires AcceptableAt(node, block, height, proofsOk) && CleanBlock(hashes, node.store, block.txs, height)
    requires SetValue(node.store) <= node.supply < U64_BOUND
    ensures Step(hashes, node, block, height).Ok?
  {
    ValidBlockConnects(hashes, node.store, block.txs, height, height - 1, proofsOk, node.supply);
  }

  lemma StepBooks(hashes: Hashes, node: Node, block: Block, height: nat, next: Node)
    requires Moves(hashes, node, block, height, next)
    ensures var effects := BlockPlan(hashes, node.store, block.txs, height).effects;
            BooksOf(next) == Books(SetValue(After(node.store, effects)),
                                   NextSupply(node.store, height), NextSupply(node.store, height))
  {
    StepOuts(hashes, node, block, height);
  }

  /** And it keeps the books. */
  lemma StepBalances(hashes: Hashes, node: Node, block: Block, height: nat, proofsOk: Tx -> bool, next: Node)
    requires AcceptableAt(node, block, height, proofsOk) && CleanBlock(hashes, node.store, block.txs, height)
    requires Moves(hashes, node, block, height, next)
    ensures Balanced(BooksOf(node), Subsidy(height), Payout(block.txs), BooksOf(next))
  {
    hide Moves, CleanBlock, Acceptable, Subsidy, TotalFees, SetValue, StoredSupply, After, BlockPlan;
    ValidBlockConserves(hashes, node.store, block.txs, height, height - 1, proofsOk);
    StepBooks(hashes, node, block, height, next);
    BalanceNumbers(BooksOf(node), Subsidy(height), Payout(block.txs), BooksOf(next),
                   TotalFees(node.store, block.txs, |block.txs|));
  }

  lemma BalanceNumbers(b: Books, reward: nat, paid: nat, b': Books, fees: nat)
    requires b'.value + fees == b.value && b'.value + paid == b.value + reward
    requires b'.supply == b'.stored == (b.stored + reward) % U64_BOUND
    ensures Balanced(b, reward, paid, b')
  {
  }

  lemma {:induction false} BooksAddUp(books: seq<Books>, blocks: seq<Block>, height: nat, k: nat)
    requires |books| == |blocks| + 1 && k < |books|
    requires forall i :: 0 <= i < |blocks| ==>
               Balanced(books[i], Subsidy(height + i), Payout(blocks[i].txs), books[i + 1])
    requires Covered(books[0]) && books[0].supply + Emitted(height + k) < U64_BOUND + Emitted(height)
    ensures Covered(books[k]) && books[k].value <= books[0].value
    ensures books[k].supply + Emitted(height) == books[0].supply + Emitted(height + k)
    ensures books[k].value + PaidOut(blocks, k) + Emitted(height) == books[0].value + Emitted(height + k)
  {
    if k > 0 {
      var j := k - 1;
      assert Emitted(height + k) == Emitted(height + j) + Subsidy(height + j);
      BooksAddUp(books, blocks, height, j);
      assert Balanced(books[j], Subsidy(height + j), Payout(blocks[j].txs), books[j + 1]);
    }
  }

  /** At every point of every run of valid, clean blocks: what is in the set plus
      what the coinbases paid out is what was in it at the start plus the
      emission so far, and the recorded supply has grown by that emission. */
  lemma RunConserves(hashes: Hashes, nodes: seq<Node>, blocks: seq<Block>, height: nat, proofsOk: Tx -> bool, k: nat)
    requires IsRun(hashes, nodes, blocks, height) && CleanRun(hashes, nodes, blocks, height)
    requires ValidRun(nodes, blocks, height, proofsOk) && k < |nodes|
    requires Covered(BooksOf(nodes[0])) && nodes[0].supply + Emitted(height + k) < U64_BOUND + Emitted(height)
    ensures Covered(BooksOf(nodes[k])) && SetValue(nodes[k].store) <= SetValue(nodes[0].store)
    ensures nodes[k].supply + Emitted(height) == nodes[0].supply + Emitted(height + k)
    ensures SetValue(nodes[k].store) + PaidOut(blocks, k) + Emitted(height)
            == SetValue(nodes[0].store) + Emitted(height + k)
  {
    hide Step, CleanBlock, Acceptable, SetValue, StoredSupply, Subsidy, Emitted;
    var books := seq(|nodes|, i requires 0 <= i < |nodes| => BooksOf(nodes[i]));
    forall i | 0 <= i < |blocks|
      ensures Balanced(books[i], Subsidy(height + i), Payout(blocks[i].txs), books[i + 1])
    {
      assert Moves(hashes, nodes[i], blocks[i], height + i, nodes[i + 1]);
      StepBalances(hashes, nodes[i], blocks[i], height + i, proofsOk, nodes[i + 1]);
    }
    BooksAddUp(books, blocks, height, k);
  }

  /** So no run of valid, clean blocks ever gets stuck on the checked supply
      arithmetic or a missing output, as long as the emission fits 64 bits. */
  lemma RunNeverSticks(hashes: Hashes, nodes: seq<Node>, blocks: seq<Block>, height: nat, proofsOk: Tx -> bool,
                       next: Block)
    requires IsRun(hashes, nodes, blocks, height) && CleanRun(hashes, nodes, blocks, height)
    requires ValidRun(nodes, blocks, height, proofsOk)
    requires Covered(BooksOf(nodes[0])) && nodes[0].supply + Emitted(height + |blocks|) < U64_BOUND + Emitted(height)
    requires AcceptableAt(nodes[|blocks|], next, height + |blocks|, proofsOk)
    requires CleanBlock(hashes, nodes[|blocks|].store, next.txs, height + |blocks|)
    ensures Step(hashes, nodes[|blocks|], next, height + |blocks|).Ok?
  {
    hide Moves, ValidRun, CleanRun, CleanBlock, AcceptableAt, Step, SetValue, StoredSupply, Emitted;
    RunConserves(hashes, nodes, blocks, height, proofsOk, |blocks|);
    StepSucceeds(hashes, nodes[|blocks|], next, height + |blocks|, proofsOk);
  }

  // ----- from genesis

  predicate OnlyCoinbases(txs: seq<Tx>) {
    forall i :: 0 <= i < |txs| ==> txs[i].IsCoinbase()
  }

  /** On an empty set, only coinbases are valid. */
  lemma OnlyCoinbasesValid(store: Store, tx: Tx, height: nat, bestHeight: nat, proofsOk: Tx -> bool)
    requires Outs(store) == map[] && 0 < tx.size <= MAX_BLOCK_SIZE
    requires ValidTx(store, tx, height, bestHeight, proofsOk)
    ensures tx.IsCoinbase()
  {
    NoInputsCountNothing(store, tx);
    if tx.inputs != [] {
      PresentIsInSet(store, OutKey(false, tx.inputs[0].prev));
    }
  }

  lemma NoInputsCountNothing(store: Store, tx: Tx)
    ensures tx.anonymous || tx.inputs == [] ==> CountedInputs(store, tx) == 0
  {
  }

  lemma PresentIsInSet(store: Store, key: DbKey)
    ensures key.OutKey? ==> (Present(store, key) <==> key in Outs(store))
  {
  }

  lemma {:induction false} CoinbasesMarkOnly(hashes: Hashes, store: Store, txs: seq<Tx>, height: nat)
    requires OnlyCoinbases(txs)
    ensures var plan := BlockPlan(hashes, store, txs, height);
            plan.error.None? && forall i :: 0 <= i < |plan.effects| ==> plan.effects[i].Mark?
  {
    if txs != [] {
      CoinbasesMarkOnly(hashes, store, txs[..|txs| - 1], height);
    }
  }

  lemma {:induction false} MarksMoveNothing(hashes: Hashes, store: Store, digest: Hash, supply: nat,
                                            effects: seq<Effect>)
    requires AllWellFormed(store, effects)
    requires forall i :: 0 <= i < |effects| ==> effects[i].Mark?
    ensures HashAfter(hashes, digest, effects) == digest
    ensures SupplyAfter(supply, effects) == Some(supply)
    ensures Outs(After(store, effects)) == Outs(store)
  {
    if effects != [] {
      var front, e := effects[..|effects| - 1], effects[|effects| - 1];
      assert e in effects && forall x :: x in front ==> x in effects;
      MarksMoveNothing(hashes, store, digest, supply, front);
      AfterStep(store, effects);
      OutsOfStep(store, After(store, front), e);
    }
  }

  lemma CoinbaseStep(hashes: Hashes, node: Node, block: Block, height: nat)
    requires OnlyCoinbases(block.txs)
    ensures Step(hashes, node, block, height).Ok?
    ensures var next := Step(hashes, node, block, height).value;
            && Outs(next.store) == Outs(node.store) && next.digest == node.digest
            && next.supply == NextSupply(node.store, height) == StoredSupply(next.store)
  {
    var effects := BlockPlan(hashes, node.store, block.txs, height).effects;
    CoinbasesMarkOnly(hashes, node.store, block.txs, height);
    BlockWellFormed(hashes, node.store, block.txs, height);
    MarksMoveNothing(hashes, node.store, node.digest, node.supply, effects);
    StepOuts(hashes, node, block, height);
  }

  lemma AcceptableOnEmpty(node: Node, block: Block, height: nat, proofsOk: Tx -> bool)
    requires AcceptableAt(node, block, height, proofsOk) && Outs(node.store) == map[]
    ensures OnlyCoinbases(block.txs)
  {
    forall i | 0 <= i < |block.txs|
      ensures block.txs[i].IsCoinbase()
    {
      if i > 0 {
        OnlyCoinbasesValid(node.store, block.txs[i], height, height - 1, proofsOk);
      }
    }
  }

  /** Coinbase outputs never enter the set, so a chain that starts empty stays
      empty: every block it accepts holds coinbases only, and the digest never
      moves. No hypothesis on the blocks is needed beyond their validity. */
  lemma {:induction false} SetStaysEmpty(hashes: Hashes, nodes: seq<Node>, blocks: seq<Block>, height: nat,
                                        proofsOk: Tx -> bool, k: nat)
    requires IsRun(hashes, nodes, blocks, height) && ValidRun(nodes, blocks, height, proofsOk) && k < |nodes|
    requires Outs(nodes[0].store) == map[]
    ensures Outs(nodes[k].store) == map[] && nodes[k].digest == nodes[0].digest
    ensures k > 0 ==> OnlyCoinbases(blocks[k - 1].txs)
  {
    hide Step, Acceptable, Outs;
    if k > 0 {
      var j := k - 1;
      SetStaysEmpty(hashes, nodes, blocks, height, proofsOk, j);
      assert AcceptableAt(nodes[j], blocks[j], height + j, proofsOk);
      AcceptableOnEmpty(nodes[j], blocks[j], height + j, proofsOk);
      assert Moves(hashes, nodes[j], blocks[j], height + j, nodes[j + 1]);
      CoinbaseStep(hashes, nodes[j], blocks[j], height + j);
    }
  }

  // ----- the full supply check

  /** One column family of the set. */
  function Family(store: Store, anonymous: bool): map<DbKey, TxOut> {
    map key | key in Outs(store) && key.anonymous == anonymous :: Outs(store)[key]
  }

  lemma EmptyFamilies(store: Store)
    requires Outs(store) == map[]
    ensures Family(store, false) == map[] && Family(store, true) == map[]
  {
    assert forall key :: key !in Outs(store);
  }

  /** The value of both families, as a wrapping sum, is the emission. */
  ghost predicate FullCheckPasses(store: Store, bestHeight: nat) {
    var transparent, anonymous := MapSum(Family(store, false), OutAmount), MapSum(Family(store, true), OutAmount);
    && transparent < U64_BOUND && anonymous < U64_BOUND
    && (transparent + anonymous) % U64_BOUND == Emitted(bestHeight + 1)
  }

  /** Compares the value of both families, as a wrapping sum, with the emission
      up to a height. */
  method ValidateSupplyFull(store: Store, bestHeight: nat) returns (failure: Option<ChainError>)
    ensures failure.None? <==> FullCheckPasses(store, bestHeight)
  {
    hide Family, Emitted, MapSum;
    var transparent := CheckedMapSum(Family(store, false), OutAmount);
    var anonymous := CheckedMapSum(Family(store, true), OutAmount);
    if transparent.Err? {
      return Some(transparent.error);
    }
    if anonymous.Err? {
      return Some(anonymous.error);
    }
    var expected := SupplyChecked(bestHeight);
    if expected.Err? {
      return Some(expected.error);
    }
    if (transparent.value + anonymous.value) % U64_BOUND != expected.value {
      return Some(SupplyMismatch);
    }
    return None;
  }

  /** The full check compares the value of the whole set with the emission, as long as
      that value fits 64 bits. */
  lemma FullCheckComparesValue(store: Store, bestHeight: nat)
    requires SetValue(store) < U64_BOUND
    ensures FullCheckPasses(store, bestHeight) <==> SetValue(store) == Emitted(bestHeight + 1)
  {
    hide MapSum, Emitted;
    var transparent, anonymous := Family(store, false), Family(store, true);
    MapSumSplit(Outs(store), transparent, anonymous, OutAmount);
  }

  lemma EmissionPositive(bestHeight: nat)
    ensures Emitted(bestHeight + 1) > 0
  {
    EmissionMonotone(1, bestHeight + 1);
    assert Emitted(1) == Emitted(0) + Subsidy(0);
    assert Subsidy(0) == INITIAL_SUBSIDY;
  }

  /** On every chain grown from an empty set that check compares nothing with the
      whole emission: it passes at no height. */
  lemma FullCheckNeverPasses(hashes: Hashes, nodes: seq<Node>, blocks: seq<Block>, height: nat,
                             proofsOk: Tx -> bool, k: nat, bestHeight: nat)
    requires IsRun(hashes, nodes, blocks, height) && ValidRun(nodes, blocks, height, proofsOk) && k < |nodes|
    requires Outs(nodes[0].store) == map[]
    ensures !FullCheckPasses(nodes[k].store, bestHeight)
  {
    hide IsRun, ValidRun, Outs, Family, Emitted;
    SetStaysEmpty(hashes, nodes, blocks, height, proofsOk, k);
    EmptyFamilies(nodes[k].store);
    EmissionPositive(bestHeight);
  }
}
