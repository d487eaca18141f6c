/** What a connected block leaves in the store, read off its transactions: which
    entries, address records, key images and height records, and under which keys. */
module LedgerEntries {
  import opened Basics
  import opened Emission
  import opened Ledger
  import opened LedgerInvariants
  import opened Validation
  import opened Conservation
  import opened LedgerRuns

  // ----- what one transaction is for the store

  /** Input `i` takes the output it names out of the set. */
  predicate SpendAt(store: Store, tx: Tx, i: nat, e: Effect) {
    && i < |tx.inputs|
    && Present(store, OutKey(tx.anonymous, tx.inputs[i].prev))
    && e == Spend(OutKey(tx.anonymous, tx.inputs[i].prev), store[OutKey(tx.anonymous, tx.inputs[i].prev)].out)
  }

  /** Input `i` of an anonymous transaction leaves its key image. */
  predicate ImageAt(tx: Tx, height: nat, i: nat, e: Effect) {
    && tx.anonymous && i < |tx.inputs| && |tx.inputs[i].scriptSig| >= 32
    && e == Mark(KeyImageKey(tx.inputs[i].scriptSig[..32]), HeightValue(height))
  }

  /** Output `v` is entered under the transaction's identifier and its own index. */
  predicate EntryAt(tx: Tx, v: nat, e: Effect) {
    v < |tx.outputs| && e == Create(OutKey(tx.anonymous, Outpoint(tx.id, v)), tx.outputs[v])
  }

  /** Output `v` of a transparent transaction leaves an address record. */
  predicate AddressAt(hashes: Hashes, tx: Tx, v: nat, e: Effect) {
    && !tx.anonymous && v < |tx.outputs|
    && e == Mark(AddrKey(hashes.address(tx.outputs[v].script), Outpoint(tx.id, v)), AmountValue(tx.outputs[v].value))
  }

  predicate FromInput(store: Store, tx: Tx, height: nat, i: nat, e: Effect) {
    SpendAt(store, tx, i, e) || ImageAt(tx, height, i, e)
  }

  predicate FromOutput(hashes: Hashes, tx: Tx, v: nat, e: Effect) {
    EntryAt(tx, v, e) || AddressAt(hashes, tx, v, e)
  }

  ghost predicate FromTx(hashes: Hashes, store: Store, tx: Tx, height: nat, e: Effect) {
    if tx.IsCoinbase() then e == Mark(CoinbaseKey(tx.id), HeightValue(height))
    else (exists i :: FromInput(store, tx, height, i, e)) || exists v :: FromOutput(hashes, tx, v, e)
  }

  lemma InputEffects(store: Store, tx: Tx, i: nat, height: nat, e: Effect)
    requires i < |tx.inputs| && InputPlan(store, tx, tx.inputs[i], height).error.None?
    ensures e in InputPlan(store, tx, tx.inputs[i], height).effects <==> FromInput(store, tx, height, i, e)
  {
  }

  lemma {:induction false} InputsEffects(store: Store, tx: Tx, n: nat, height: nat, e: Effect)
    requires n <= |tx.inputs| && InputsPlan(store, tx, n, height).error.None?
    ensures e in InputsPlan(store, tx, n, height).effects
            <==> exists i :: 0 <= i < n && FromInput(store, tx, height, i, e)
  {
    hide FromInput, InputPlan;
    if n > 0 {
      InputsEffects(store, tx, n - 1, height, e);
      InputEffects(store, tx, n - 1, height, e);
    }
  }

  lemma {:induction false} OutputsEffectsAre(hashes: Hashes, tx: Tx, n: nat, e: Effect)
    requires n <= |tx.outputs|
    ensures e in OutputsEffects(hashes, tx, n) <==> exists v :: 0 <= v < n && FromOutput(hashes, tx, v, e)
  {
    if n > 0 {
      OutputsEffectsAre(hashes, tx, n - 1, e);
      assert e in OutputEffects(hashes, tx, n - 1) <==> FromOutput(hashes, tx, n - 1, e);
      hide FromOutput, OutputEffects;
    }
  }

  lemma TxEffects(hashes: Hashes, store: Store, tx: Tx, height: nat, e: Effect)
    requires TxPlan(hashes, store, tx, height).error.None?
    ensures e in TxPlan(hashes, store, tx, height).effects <==> FromTx(hashes, store, tx, height, e)
  {
    hide InputsPlan, OutputsEffects;
    if !tx.IsCoinbase() {
      InputsEffects(store, tx, |tx.inputs|, height, e);
      OutputsEffectsAre(hashes, tx, |tx.outputs|, e);
    }
  }

  /** The effects of a block are those of its transactions, and no others. */
  lemma {:induction false} BlockEffects(hashes: Hashes, store: Store, txs: seq<Tx>, height: nat, e: Effect)
    requires BlockPlan(hashes, store, txs, height).error.None?
    ensures e in BlockPlan(hashes, store, txs, height).effects
            <==> exists t :: 0 <= t < |txs| && FromTx(hashes, store, txs[t], height, e)
  {
    hide FromTx, TxPlan;
    if txs != [] {
      var front := txs[..|txs| - 1];
      BlockEffects(hashes, store, front, height, e);
      TxEffects(hashes, store, txs[|txs| - 1], height, e);
      assert forall t :: 0 <= t < |front| ==> front[t] == txs[t];
    }
  }

  // ----- effects on one key agree

  /** All effects on the key of effect `i` write the same. */
  predicate OneWord(effects: seq<Effect>, i: nat)
    requires i < |effects|
  {
    forall j :: 0 <= j < |effects| && effects[j].key == effects[i].key ==> OpOf(effects[j]) == OpOf(effects[i])
  }

  lemma {:induction false} WordLands(store: Store, effects: seq<Effect>, i: nat)
    requires i < |effects| && OneWord(effects, i)
    ensures Lookup(After(store, effects), effects[i].key)
            == Lookup(ApplyOp(store, OpOf(effects[i])), effects[i].key)
  {
    hide After;
    var n := |effects| - 1;
    var front := effects[..n];
    AfterStep(store, effects);
    if effects[n].key != effects[i].key {
      assert OneWord(front, i);
      WordLands(store, front, i);
    }
  }

  /** In a clean block no key is written in two ways. */
  lemma CleanHasOneWord(hashes: Hashes, store: Store, txs: seq<Tx>, height: nat, i: nat)
    requires CleanBlock(hashes, store, txs, height) && BlockPlan(hashes, store, txs, height).error.None?
    requires i < |BlockPlan(hashes, store, txs, height).effects|
    ensures OneWord(BlockPlan(hashes, store, txs, height).effects, i)
  {
    hide BlockPlan;
    var effects := BlockPlan(hashes, store, txs, height).effects;
    forall j | 0 <= j < |effects| && effects[j].key == effects[i].key
      ensures OpOf(effects[j]) == OpOf(effects[i])
    {
      assert effects[i] in effects && effects[j] in effects;
      assert WellFormed(store, effects[i]) && WellFormed(store, effects[j]);
      if effects[i].Mark? {
        MarksAgree(hashes, store, txs, height, effects[i], effects[j]);
      } else {
        CleanIsOnce(store, effects, i, j);
      }
    }
  }

  lemma CleanIsOnce(store: Store, effects: seq<Effect>, i: nat, j: nat)
    requires Clean(store, effects) && i < |effects| && j < |effects|
    requires effects[i].key == effects[j].key && !effects[i].Mark?
    ensures i == j
  {
    assert effects[i] in effects && effects[j] in effects;
    assert WellFormed(store, effects[i]) && WellFormed(store, effects[j]);
  }

  lemma MarksAgree(hashes: Hashes, store: Store, txs: seq<Tx>, height: nat, a: Effect, b: Effect)
    requires CleanBlock(hashes, store, txs, height) && BlockPlan(hashes, store, txs, height).error.None?
    requires a in BlockPlan(hashes, store, txs, height).effects && b in BlockPlan(hashes, store, txs, height).effects
    requires a.Mark? && b.Mark? && a.key == b.key
    ensures a.value == b.value
  {
    hide BlockPlan, CleanBlock;
    BlockEffects(hashes, store, txs, height, a);
    BlockEffects(hashes, store, txs, height, b);
    if a.key.AddrKey? {
      var t, v := AddressSource(hashes, store, txs, height, a);
      var t', v' := AddressSource(hashes, store, txs, height, b);
      var e := Create(OutKey(false, a.key.op), txs[t].outputs[v]);
      var e' := Create(OutKey(false, a.key.op), txs[t'].outputs[v']);
      EntryIsPlanned(hashes, store, txs, height, t, v);
      EntryIsPlanned(hashes, store, txs, height, t', v');
      CreatedOnce(hashes, store, txs, height, e, e');
    }
  }

  lemma AddressSource(hashes: Hashes, store: Store, txs: seq<Tx>, height: nat, e: Effect) returns (t: nat, v: nat)
    requires e.Mark? && e.key.AddrKey?
    requires exists t :: 0 <= t < |txs| && FromTx(hashes, store, txs[t], height, e)
    ensures t < |txs| && !txs[t].IsCoinbase() && AddressAt(hashes, txs[t], v, e)
  {
    t :| 0 <= t < |txs| && FromTx(hashes, store, txs[t], height, e);
    v :| FromOutput(hashes, txs[t], v, e);
  }

  lemma EntryIsPlanned(hashes: Hashes, store: Store, txs: seq<Tx>, height: nat, t: nat, v: nat)
    requires BlockPlan(hashes, store, txs, height).error.None?
    requires t < |txs| && !txs[t].IsCoinbase() && v < |txs[t].outputs|
    ensures Create(OutKey(txs[t].anonymous, Outpoint(txs[t].id, v)), txs[t].outputs[v])
            in BlockPlan(hashes, store, txs, height).effects
  {
    hide BlockPlan;
    var e := Create(OutKey(txs[t].anonymous, Outpoint(txs[t].id, v)), txs[t].outputs[v]);
    BlockEffects(hashes, store, txs, height, e);
    assert FromOutput(hashes, txs[t], v, e);
    assert FromTx(hashes, store, txs[t], height, e);
  }

  lemma CreatedOnce(hashes: Hashes, store: Store, txs: seq<Tx>, height: nat, a: Effect, b: Effect)
    requires CleanBlock(hashes, store, txs, height) && a.Create? && b.Create? && a.key == b.key
    requires a in BlockPlan(hashes, store, txs, height).effects && b in BlockPlan(hashes, store, txs, height).effects
    ensures a == b
  {
    hide BlockPlan;
    var effects := BlockPlan(hashes, store, txs, height).effects;
    var i: nat :| i < |effects| && effects[i] == a;
    var j: nat :| j < |effects| && effects[j] == b;
    CleanIsOnce(store, effects, i, j);
  }

  // ----- the store after a connected block

  lemma {:induction false} RecordsKeepTracked(store: Store, ops: seq<Op>, key: DbKey)
    requires Tracked(key) && forall i :: 0 <= i < |ops| ==> ops[i].Put? && !Tracked(ops[i].key)
    ensures Lookup(ApplyOps(store, ops), key) == Lookup(store, key)
  {
    if ops != [] {
      RecordsKeepTracked(store, ops[..|ops| - 1], key);
    }
  }

  /** The tracked families hold what the effects made of them. */
  lemma StepTracked(hashes: Hashes, node: Node, block: Block, height: nat, key: DbKey)
    requires Step(hashes, node, block, height).Ok? && Tracked(key)
    ensures Lookup(Step(hashes, node, block, height).value.store, key)
            == Lookup(After(node.store, BlockPlan(hashes, node.store, block.txs, height).effects), key)
  {
    hide BlockPlan, HashAfter, SupplyAfter, Lookup, NextSupply;
    var effects := BlockPlan(hashes, node.store, block.txs, height).effects;
    var records := Records(block, height, HashAfter(hashes, node.digest, effects),
                           SupplyAfter(node.supply, effects).value, NextSupply(node.store, height));
    ApplyConcat(node.store, OpsOf(effects), records);
    RecordsUntracked(block, height, HashAfter(hashes, node.digest, effects),
                     SupplyAfter(node.supply, effects).value, NextSupply(node.store, height));
    RecordsKeepTracked(After(node.store, effects), records, key);
  }

  /** The block connects on this node and is clean there. */
  ghost predicate Connects(hashes: Hashes, node: Node, block: Block, height: nat, next: Node) {
    Moves(hashes, node, block, height, next) && CleanBlock(hashes, node.store, block.txs, height)
  }

  /** Each effect of a clean block is found in the store after it. */
  lemma EffectLands(hashes: Hashes, node: Node, block: Block, height: nat, next: Node, t: nat, e: Effect)
    requires Connects(hashes, node, block, height, next)
    requires t < |block.txs| && FromTx(hashes, node.store, block.txs[t], height, e)
    ensures Lookup(next.store, e.key) == Lookup(ApplyOp(node.store, OpOf(e)), e.key)
    ensures WellFormed(node.store, e)
  {
    var effects := BlockPlan(hashes, node.store, block.txs, height).effects;
    hide FromTx, CleanBlock, Lookup, ApplyOp, After;
    StepPlan(hashes, node, block, height);
    BlockEffects(hashes, node.store, block.txs, height, e);
    BlockWellFormed(hashes, node.store, block.txs, height);
    hide Step, BlockPlan;
    var i: nat :| i < |effects| && effects[i] == e;
    CleanHasOneWord(hashes, node.store, block.txs, height, i);
    WordLands(node.store, effects, i);
    StepTracked(hashes, node, block, height, e.key);
  }

  lemma StepPlan(hashes: Hashes, node: Node, block: Block, height: nat)
    requires Step(hashes, node, block, height).Ok?
    ensures BlockPlan(hashes, node.store, block.txs, height).error.None?
  {
  }

  /** Every output of a transaction that is not a coinbase is stored, under the
      transaction's identifier and the output's index; a transparent one also under
      its address. */
  lemma OutputsAreStored(hashes: Hashes, node: Node, block: Block, height: nat, next: Node, t: nat, v: nat)
    requires Connects(hashes, node, block, height, next)
    requires t < |block.txs| && !block.txs[t].IsCoinbase() && v < |block.txs[t].outputs|
    ensures var tx := block.txs[t];
            var out, op := tx.outputs[v], Outpoint(tx.id, v);
            && Lookup(next.store, OutKey(tx.anonymous, op)) == Some(OutValue(out))
            && (!tx.anonymous ==>
                  Lookup(next.store, AddrKey(hashes.address(out.script), op)) == Some(AmountValue(out.value)))
  {
    hide Connects;
    var tx := block.txs[t];
    var out, op := tx.outputs[v], Outpoint(tx.id, v);
    var e := Create(OutKey(tx.anonymous, op), out);
    assert FromOutput(hashes, tx, v, e);
    EffectLands(hashes, node, block, height, next, t, e);
    if !tx.anonymous {
      var mark := Mark(AddrKey(hashes.address(out.script), op), AmountValue(out.value));
      assert FromOutput(hashes, tx, v, mark);
      EffectLands(hashes, node, block, height, next, t, mark);
    }
  }

  /** Every output that an input names is gone, and an anonymous input leaves its
      key image with the height of the block. */
  lemma InputsAreGone(hashes: Hashes, node: Node, block: Block, height: nat, next: Node, t: nat, i: nat)
    requires Connects(hashes, node, block, height, next)
    requires t < |block.txs| && !block.txs[t].IsCoinbase() && i < |block.txs[t].inputs|
    ensures var tx, vin := block.txs[t], block.txs[t].inputs[i];
            && OutKey(tx.anonymous, vin.prev) in node.store && OutKey(tx.anonymous, vin.prev) !in next.store
            && (tx.anonymous ==>
                  && |vin.scriptSig| >= 32 && KeyImageKey(vin.scriptSig[..32]) !in node.store
                  && Lookup(next.store, KeyImageKey(vin.scriptSig[..32])) == Some(HeightValue(height)))
  {
    var tx, vin := block.txs[t], block.txs[t].inputs[i];
    var key := OutKey(tx.anonymous, vin.prev);
    InputPlanned(hashes, node.store, block.txs, height, t, i);
    hide Connects, BlockPlan;
    var e := Spend(key, node.store[key].out);
    assert FromInput(node.store, tx, height, i, e);
    EffectLands(hashes, node, block, height, next, t, e);
    if tx.anonymous {
      var mark := Mark(KeyImageKey(vin.scriptSig[..32]), HeightValue(height));
      assert FromInput(node.store, tx, height, i, mark);
      EffectLands(hashes, node, block, height, next, t, mark);
    }
  }

  /** No input of a block without failure misses its output or repeats a recorded
      key image. */
  lemma {:induction false} InputPlanned(hashes: Hashes, store: Store, txs: seq<Tx>, height: nat, t: nat, i: nat)
    requires BlockPlan(hashes, store, txs, height).error.None?
    requires t < |txs| && !txs[t].IsCoinbase() && i < |txs[t].inputs|
    ensures Present(store, OutKey(txs[t].anonymous, txs[t].inputs[i].prev))
    ensures txs[t].anonymous ==> |txs[t].inputs[i].scriptSig| >= 32
                                 && KeyImageKey(txs[t].inputs[i].scriptSig[..32]) !in store
  {
    if t < |txs| - 1 {
      hide TxPlan;
      InputPlanned(hashes, store, txs[..|txs| - 1], height, t, i);
    } else {
      InputsPlanned(store, txs[t], |txs[t].inputs|, height, i);
    }
  }

  lemma {:induction false} InputsPlanned(store: Store, tx: Tx, n: nat, height: nat, i: nat)
    requires i < n <= |tx.inputs| && InputsPlan(store, tx, n, height).error.None?
    ensures Present(store, OutKey(tx.anonymous, tx.inputs[i].prev))
    ensures tx.anonymous ==> |tx.inputs[i].scriptSig| >= 32 && KeyImageKey(tx.inputs[i].scriptSig[..32]) !in store
  {
    if i < n - 1 {
      hide InputPlan;
      InputsPlanned(store, tx, n - 1, height, i);
    }
  }

  /** A coinbase leaves the height of its block, so that its age is known. */
  lemma CoinbaseIsRecorded(hashes: Hashes, node: Node, block: Block, height: nat, next: Node, t: nat)
    requires Connects(hashes, node, block, height, next) && t < |block.txs| && block.txs[t].IsCoinbase()
    ensures Lookup(next.store, CoinbaseKey(block.txs[t].id)) == Some(HeightValue(height))
    ensures forall vin: TxIn, h: nat :: vin.prev.txid == block.txs[t].id ==>
              (Mature(next.store, vin, h) <==> h >= height + COINBASE_MATURITY)
  {
    hide Connects;
    EffectLands(hashes, node, block, height, next, t, Mark(CoinbaseKey(block.txs[t].id), HeightValue(height)));
  }

  // ----- the set after a connected block

  /** Output `v` of transaction `t` goes under this key. */
  predicate MadeAt(txs: seq<Tx>, key: DbKey, t: nat, v: nat) {
    && t < |txs| && !txs[t].IsCoinbase() && v < |txs[t].outputs|
    && key == OutKey(txs[t].anonymous, Outpoint(txs[t].id, v))
  }

  /** Input `i` of transaction `t` names this key. */
  predicate TakenAt(txs: seq<Tx>, key: DbKey, t: nat, i: nat) {
    && t < |txs| && !txs[t].IsCoinbase() && i < |txs[t].inputs|
    && key == OutKey(txs[t].anonymous, txs[t].inputs[i].prev)
  }

  ghost predicate Made(txs: seq<Tx>, key: DbKey) {
    exists t, v :: MadeAt(txs, key, t, v)
  }

  ghost predicate Taken(txs: seq<Tx>, key: DbKey) {
    exists t, i :: TakenAt(txs, key, t, i)
  }

  /** The set after a clean block is the set before it without what the inputs name
      and with the outputs, and nothing else. */
  lemma SetAfterBlock(hashes: Hashes, node: Node, block: Block, height: nat, next: Node, key: DbKey)
    requires Connects(hashes, node, block, height, next) && key.OutKey?
    ensures Present(next.store, key) <==> Made(block.txs, key) || (Present(node.store, key) && !Taken(block.txs, key))
    ensures !Made(block.txs, key) && !Taken(block.txs, key) ==> Lookup(next.store, key) == Lookup(node.store, key)
    ensures forall t: nat, v: nat :: MadeAt(block.txs, key, t, v) ==>
              Lookup(next.store, key) == Some(OutValue(block.txs[t].outputs[v]))
  {
    hide Connects;
    forall t: nat, v: nat | MadeAt(block.txs, key, t, v)
      ensures Lookup(next.store, key) == Some(OutValue(block.txs[t].outputs[v]))
    {
      OutputsAreStored(hashes, node, block, height, next, t, v);
    }
    if !Made(block.txs, key) {
      if t: nat, i: nat :| TakenAt(block.txs, key, t, i) {
        InputsAreGone(hashes, node, block, height, next, t, i);
      } else {
        UntouchedStays(hashes, node, block, height, next, key);
      }
    }
  }

  lemma UntouchedStays(hashes: Hashes, node: Node, block: Block, height: nat, next: Node, key: DbKey)
    requires Connects(hashes, node, block, height, next) && key.OutKey?
    requires !Made(block.txs, key) && !Taken(block.txs, key)
    ensures Lookup(next.store, key) == Lookup(node.store, key)
  {
    hide Made, Taken, CleanBlock;
    var effects := BlockPlan(hashes, node.store, block.txs, height).effects;
    StepPlan(hashes, node, block, height);
    BlockWellFormed(hashes, node.store, block.txs, height);
    StepTracked(hashes, node, block, height, key);
    hide Connects, BlockPlan, After;
    forall k | 0 <= k < |effects|
      ensures effects[k].key != key
    {
      assert effects[k] in effects;
      assert WellFormed(node.store, effects[k]);
      if effects[k].key == key {
        TouchedIsNamed(hashes, node.store, block.txs, height, effects[k]);
      }
    }
    Untouched(node.store, effects, key);
  }

  lemma TouchedIsNamed(hashes: Hashes, store: Store, txs: seq<Tx>, height: nat, e: Effect)
    requires BlockPlan(hashes, store, txs, height).error.None?
    requires e in BlockPlan(hashes, store, txs, height).effects && !e.Mark?
    ensures Made(txs, e.key) || Taken(txs, e.key)
  {
    hide BlockPlan;
    BlockEffects(hashes, store, txs, height, e);
    var t :| 0 <= t < |txs| && FromTx(hashes, store, txs[t], height, e);
    if i :| FromInput(store, txs[t], height, i, e) {
      assert TakenAt(txs, e.key, t, i);
    } else {
      var v :| FromOutput(hashes, txs[t], v, e);
      assert MadeAt(txs, e.key, t, v);
    }
  }

  /** What a block has entered, the next one can spend: the input is found, with
      the value of the output. */
  lemma OutputIsSpendable(hashes: Hashes, node: Node, block: Block, height: nat, next: Node, t: nat, v: nat,
                          child: Tx, i: nat)
    requires Connects(hashes, node, block, height, next)
    requires t < |block.txs| && !block.txs[t].IsCoinbase() && v < |block.txs[t].outputs|
    requires i < |child.inputs| && !child.anonymous && !block.txs[t].anonymous
    requires child.inputs[i].prev == Outpoint(block.txs[t].id, v)
    ensures var key, out := OutKey(false, child.inputs[i].prev), block.txs[t].outputs[v];
            && InputPlan(next.store, child, child.inputs[i], height + 1) == Plan([Spend(key, out)], None)
            && InputSum(next.store, child, i + 1) == InputSum(next.store, child, i) + out.value
  {
    hide Connects;
    OutputsAreStored(hashes, node, block, height, next, t, v);
  }

  // ----- an entry over whole runs

  /** A clean block makes nothing that is already there. */
  lemma MadeIsNew(hashes: Hashes, node: Node, block: Block, height: nat, next: Node, key: DbKey)
    requires Connects(hashes, node, block, height, next) && Made(block.txs, key)
    ensures key !in node.store
  {
    var effects := BlockPlan(hashes, node.store, block.txs, height).effects;
    StepPlan(hashes, node, block, height);
    hide BlockPlan, Moves;
    var t: nat, v: nat :| MadeAt(block.txs, key, t, v);
    EntryIsPlanned(hashes, node.store, block.txs, height, t, v);
    var i: nat :| i < |effects| && effects[i] == Create(key, block.txs[t].outputs[v]);
  }

  /** No block of the run from `i + 1` to before `k` takes the entry. */
  ghost predicate Unspent(blocks: seq<Block>, key: DbKey, i: nat, k: nat)
    requires k <= |blocks|
  {
    forall j :: i < j < k ==> !Taken(blocks[j].txs, key)
  }

  /** Over every clean run, an output entered by block `i` is in the set, with its own
      value, until a block takes it. */
  lemma {:induction false} OutputLives(hashes: Hashes, nodes: seq<Node>, blocks: seq<Block>, height: nat,
                                      i: nat, k: nat, key: DbKey, t: nat, v: nat)
    requires IsRun(hashes, nodes, blocks, height) && CleanRun(hashes, nodes, blocks, height)
    requires i < k < |nodes| && MadeAt(blocks[i].txs, key, t, v) && Unspent(blocks, key, i, k)
    ensures Lookup(nodes[k].store, key) == Some(OutValue(blocks[i].txs[t].outputs[v]))
    decreases k
  {
    hide IsRun, CleanRun, Unspent, Lookup, Taken, Present, Connects;
    RunLength(hashes, nodes, blocks, height);
    var out := blocks[i].txs[t].outputs[v];
    RunConnects(hashes, nodes, blocks, height, k - 1);
    if i < k - 1 {
      UnspentBefore(blocks, key, i, k);
      OutputLives(hashes, nodes, blocks, height, i, k - 1, key, t, v);
      EntryStays(hashes, nodes[k - 1], blocks[k - 1], height + (k - 1), nodes[k], key, out);
    } else {
      SetAfterBlock(hashes, nodes[i], blocks[i], height + i, nodes[k], key);
    }
  }

  lemma UnspentBefore(blocks: seq<Block>, key: DbKey, i: nat, k: nat)
    requires i < k - 1 < |blocks| && Unspent(blocks, key, i, k)
    ensures Unspent(blocks, key, i, k - 1) && !Taken(blocks[k - 1].txs, key)
  {
    hide Taken;
  }

  /** It is gone right after the block that takes it. */
  lemma OutputDies(hashes: Hashes, nodes: seq<Node>, blocks: seq<Block>, height: nat,
                   i: nat, k: nat, key: DbKey, t: nat, v: nat)
    requires IsRun(hashes, nodes, blocks, height) && CleanRun(hashes, nodes, blocks, height)
    requires i < k < |blocks| && MadeAt(blocks[i].txs, key, t, v) && Unspent(blocks, key, i, k)
    requires Taken(blocks[k].txs, key)
    ensures !Present(nodes[k + 1].store, key)
  {
    hide Moves, CleanBlock, Lookup, Taken, Present, Connects;
    OutputLives(hashes, nodes, blocks, height, i, k, key, t, v);
    RunConnects(hashes, nodes, blocks, height, k);
    EntryStays(hashes, nodes[k], blocks[k], height + k, nodes[k + 1], key, blocks[i].txs[t].outputs[v]);
  }

  /** An entry stays until it is taken. */
  lemma EntryStays(hashes: Hashes, node: Node, block: Block, height: nat, next: Node, key: DbKey, out: TxOut)
    requires Connects(hashes, node, block, height, next) && key.OutKey?
    requires Lookup(node.store, key) == Some(OutValue(out))
    ensures !Taken(block.txs, key) ==> Lookup(next.store, key) == Some(OutValue(out))
    ensures Taken(block.txs, key) ==> !Present(next.store, key)
  {
    hide Connects, Taken;
    SetAfterBlock(hashes, node, block, height, next, key);
    if Made(block.txs, key) {
      MadeIsNew(hashes, node, block, height, next, key);
    }
  }

  lemma RunLength(hashes: Hashes, nodes: seq<Node>, blocks: seq<Block>, height: nat)
    requires IsRun(hashes, nodes, blocks, height)
    ensures |nodes| == |blocks| + 1
  {
  }

  lemma RunConnects(hashes: Hashes, nodes: seq<Node>, blocks: seq<Block>, height: nat, j: nat)
    requires IsRun(hashes, nodes, blocks, height) && CleanRun(hashes, nodes, blocks, height) && j < |blocks|
    ensures Connects(hashes, nodes[j], blocks[j], height + j, nodes[j + 1])
  {
    hide Moves, CleanBlock;
  }

  // ----- why a block is refused

  /** Input `i` of transaction `t` cannot be connected, for this reason. */
  predicate BadInput(store: Store, txs: seq<Tx>, t: nat, i: nat, e: ChainError) {
    && t < |txs| && !txs[t].IsCoinbase() && i < |txs[t].inputs|
    && var tx, vin := txs[t], txs[t].inputs[i];
       match e
       case InvalidScript => tx.anonymous && |vin.scriptSig| < 32
       case DoubleSpend => tx.anonymous && |vin.scriptSig| >= 32 && KeyImageKey(vin.scriptSig[..32]) in store
       case MissingUtxo => OutKey(tx.anonymous, vin.prev) !in store
       case InvalidUtxo => OutKey(tx.anonymous, vin.prev) in store && !Present(store, OutKey(tx.anonymous, vin.prev))
       case _ => false
  }

  lemma {:induction false} InputsRefused(store: Store, tx: Tx, n: nat, height: nat) returns (i: nat)
    requires n <= |tx.inputs| && InputsPlan(store, tx, n, height).error.Some? && !tx.IsCoinbase()
    ensures i < n && BadInput(store, [tx], 0, i, InputsPlan(store, tx, n, height).error.value)
  {
    i := n - 1;
    if InputsPlan(store, tx, n - 1, height).error.Some? {
      hide InputPlan;
      i := InputsRefused(store, tx, n - 1, height);
    }
  }

  /** A plan that fails names the fault of one of the inputs. */
  lemma {:induction false} RefusalNamesInput(hashes: Hashes, store: Store, txs: seq<Tx>, height: nat)
    returns (t: nat, i: nat)
    requires BlockPlan(hashes, store, txs, height).error.Some?
    ensures BadInput(store, txs, t, i, BlockPlan(hashes, store, txs, height).error.value)
  {
    var n := |txs| - 1;
    if BlockPlan(hashes, store, txs[..n], height).error.Some? {
      hide TxPlan;
      t, i := RefusalNamesInput(hashes, store, txs[..n], height);
    } else {
      t := n;
      i := InputsRefused(store, txs[n], |txs[n].inputs|, height);
    }
  }

  // ----- key images over whole runs

  /** Some anonymous input of the block carries this key image. */
  predicate UsesAt(block: Block, image: seq<bv8>, t: nat, i: nat) {
    && t < |block.txs| && !block.txs[t].IsCoinbase() && block.txs[t].anonymous && i < |block.txs[t].inputs|
    && |block.txs[t].inputs[i].scriptSig| >= 32 && image == block.txs[t].inputs[i].scriptSig[..32]
  }

  ghost predicate Uses(block: Block, image: seq<bv8>) {
    exists t, i :: UsesAt(block, image, t, i)
  }

  lemma {:induction false} ImagesStay(store: Store, effects: seq<Effect>, image: seq<bv8>)
    requires AllWellFormed(store, effects)
    requires KeyImageKey(image) in store || exists k :: 0 <= k < |effects| && effects[k].key == KeyImageKey(image)
    ensures KeyImageKey(image) in After(store, effects)
  {
    if effects != [] {
      var front, e := effects[..|effects| - 1], effects[|effects| - 1];
      AfterStep(store, effects);
      assert e in effects && forall x :: x in front ==> x in effects;
      assert WellFormed(store, e);
      if e.key != KeyImageKey(image) {
        hide After, WellFormed;
        assert AllWellFormed(store, front);
        if k :| 0 <= k < |effects| && effects[k].key == KeyImageKey(image) {
          assert front[k].key == KeyImageKey(image);
        }
        ImagesStay(store, front, image);
      }
    }
  }

  /** A connected block uses no recorded key image, and records those it uses. */
  lemma StepImages(hashes: Hashes, node: Node, block: Block, height: nat, next: Node, image: seq<bv8>)
    requires Moves(hashes, node, block, height, next)
    ensures Uses(block, image) ==> KeyImageKey(image) !in node.store
    ensures KeyImageKey(image) in node.store || Uses(block, image) ==> KeyImageKey(image) in next.store
  {
    var effects := BlockPlan(hashes, node.store, block.txs, height).effects;
    StepPlan(hashes, node, block, height);
    BlockWellFormed(hashes, node.store, block.txs, height);
    StepTracked(hashes, node, block, height, KeyImageKey(image));
    hide Moves, BlockPlan, After, AllWellFormed;
    if t: nat, i: nat :| UsesAt(block, image, t, i) {
      var e := Mark(KeyImageKey(image), HeightValue(height));
      InputPlanned(hashes, node.store, block.txs, height, t, i);
      BlockEffects(hashes, node.store, block.txs, height, e);
      assert FromInput(node.store, block.txs[t], height, i, e);
      assert FromTx(hashes, node.store, block.txs[t], height, e);
      ImagesStay(node.store, effects, image);
    } else if KeyImageKey(image) in node.store {
      ImagesStay(node.store, effects, image);
    }
  }

  lemma {:induction false} ImagesAccumulate(hashes: Hashes, nodes: seq<Node>, blocks: seq<Block>, height: nat,
                                           i: nat, k: nat, image: seq<bv8>)
    requires IsRun(hashes, nodes, blocks, height) && i < k < |nodes| && Uses(blocks[i], image)
    ensures KeyImageKey(image) in nodes[k].store
  {
    hide Moves, Uses;
    if i < k - 1 {
      ImagesAccumulate(hashes, nodes, blocks, height, i, k - 1, image);
    }
    assert Moves(hashes, nodes[k - 1], blocks[k - 1], height + (k - 1), nodes[k]);
    StepImages(hashes, nodes[k - 1], blocks[k - 1], height + (k - 1), nodes[k], image);
  }

  /** Over every run, no two blocks use the same key image. No hypothesis on the
      blocks is needed: connecting itself checks it. */
  lemma ImagesUsedOnce(hashes: Hashes, nodes: seq<Node>, blocks: seq<Block>, height: nat, i: nat, k: nat,
                       image: seq<bv8>)
    requires IsRun(hashes, nodes, blocks, height) && i < k < |blocks|
    ensures !(Uses(blocks[i], image) && Uses(blocks[k], image))
  {
    hide Moves, Uses;
    if Uses(blocks[i], image) {
      ImagesAccumulate(hashes, nodes, blocks, height, i, k, image);
      assert Moves(hashes, nodes[k], blocks[k], height + k, nodes[k + 1]);
      StepImages(hashes, nodes[k], blocks[k], height + k, nodes[k + 1], image);
    }
  }

  // ----- the records beside the families

  lemma {:induction false} LastPut(store: Store, ops: seq<Op>, i: nat)
    requires i < |ops| && ops[i].Put? && forall j :: i < j < |ops| ==> ops[j].key != ops[i].key
    ensures Lookup(ApplyOps(store, ops), ops[i].key) == Some(ops[i].value)
  {
    if i < |ops| - 1 {
      LastPut(store, ops[..|ops| - 1], i);
    }
  }

  /** The records of a step: the digest in memory, the supply that the spends and
      creations leave, the supply in memory, the header at its height, and every
      transaction at its position if no later one has its identifier. */
  lemma StepRecords(hashes: Hashes, node: Node, block: Block, height: nat, next: Node)
    requires Moves(hashes, node, block, height, next)
    ensures var effects := BlockPlan(hashes, node.store, block.txs, height).effects;
            && Lookup(next.store, MetaKey(UtxoSetHash)) == Some(DigestValue(next.digest))
            && node.supply + Created(effects) >= Spent(effects)
            && Lookup(next.store, MetaKey(TotalSupply))
               == Some(AmountValue(node.supply + Created(effects) - Spent(effects)))
            && Lookup(next.store, MetaKey(StateTotalSupply)) == Some(AmountValue(next.supply))
            && Lookup(next.store, HeaderKey(height)) == Some(HeaderValue(block.header))
    ensures forall t :: 0 <= t < |block.txs| && (forall u :: t < u < |block.txs| ==> block.txs[u].id != block.txs[t].id)
              ==> Lookup(next.store, TxIndexKey(block.txs[t].id)) == Some(PositionValue(height, t))
  {
    hide BlockPlan, HashAfter, SupplyAfter, NextSupply, Spent, Created;
    var effects := BlockPlan(hashes, node.store, block.txs, height).effects;
    SupplyFollowsValue(node.supply, effects);
    var batch, n := BatchOf(hashes, node, block, height), |effects|;
    LastPut(node.store, batch, n);
    LastPut(node.store, batch, n + 1);
    LastPut(node.store, batch, n + 2);
    LastPut(node.store, batch, |batch| - 1);
    forall t | 0 <= t < |block.txs| && (forall u :: t < u < |block.txs| ==> block.txs[u].id != block.txs[t].id)
      ensures Lookup(next.store, TxIndexKey(block.txs[t].id)) == Some(PositionValue(height, t))
    {
      LastPut(node.store, batch, n + 3 + t);
    }
  }

  /** For a valid, clean block the supply record is the supply less the fees. */
  lemma SupplyRecord(hashes: Hashes, node: Node, block: Block, height: nat, next: Node, proofsOk: Tx -> bool)
    requires Moves(hashes, node, block, height, next) && AcceptableAt(node, block, height, proofsOk)
    requires CleanBlock(hashes, node.store, block.txs, height) && SetValue(node.store) <= node.supply < U64_BOUND
    ensures var fees := TotalFees(node.store, block.txs, |block.txs|);
            fees <= node.supply && Lookup(next.store, MetaKey(TotalSupply)) == Some(AmountValue(node.supply - fees))
  {
    hide BlockPlan, TotalFees, SupplyAfter, CleanBlock, Acceptable;
    StepRecords(hashes, node, block, height, next);
    hide Moves;
    ValidBlockSupply(hashes, node.store, block.txs, height, height - 1, proofsOk, node.supply);
    var effects := BlockPlan(hashes, node.store, block.txs, height).effects;
    SupplyFollowsValue(node.supply, effects);
  }
}
