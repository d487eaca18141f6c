/** The node as one object: connecting and saving blocks, loading them again, and
    the supply checks every load ends with. */
module NodeRuns {
  import opened Basics
  import opened Compact
  import opened MedianTime
  import opened Retarget
  import opened ChainIndex
  import opened Emission
  import Ledger
  import LedgerRuns

  // ----- the checks at the end of a load

  const SUPPLY_KEY: Ledger.DbKey := Ledger.MetaKey(Ledger.TotalSupply)
  const DIGEST_KEY: Ledger.DbKey := Ledger.MetaKey(Ledger.UtxoSetHash)

  /** The supply record, if any, is the supply in memory. */
  predicate StateCheckPasses(store: Ledger.Store, supply: nat) {
    SUPPLY_KEY in store ==> store[SUPPLY_KEY] == Ledger.AmountValue(supply)
  }

  /** Both records are there. */
  predicate Recorded(store: Ledger.Store) {
    DIGEST_KEY in store && SUPPLY_KEY in store
  }

  /** With both records the supply record is the emission; without, the outputs
      themselves are summed up. */
  ghost predicate SmartCheckPasses(store: Ledger.Store, bestHeight: nat) {
    if Recorded(store)
    then store[DIGEST_KEY].DigestValue? && store[SUPPLY_KEY] == Ledger.AmountValue(Emitted(bestHeight + 1))
    else LedgerRuns.FullCheckPasses(store, bestHeight)
  }

  /** A load puts a supply of zero in memory and runs both checks. */
  ghost predicate RestartPasses(store: Ledger.Store, bestHeight: nat) {
    StateCheckPasses(store, 0) && SmartCheckPasses(store, bestHeight)
  }

  method ValidateState(store: Ledger.Store, supply: nat) returns (failure: Option<ChainError>)
    ensures failure.None? <==> StateCheckPasses(store, supply)
  {
    if SUPPLY_KEY in store && store[SUPPLY_KEY] != Ledger.AmountValue(supply) {
      return Some(SupplyMismatch);
    }
    return None;
  }

  /** On success also says which digest and supply go to memory. */
  method ValidateSupplySmart(store: Ledger.Store, bestHeight: nat, digest: Hash, supply: nat)
    returns (failure: Option<ChainError>, digest': Hash, supply': nat)
    requires bestHeight < U32_BOUND
    ensures failure.None? <==> SmartCheckPasses(store, bestHeight)
    ensures failure.None? && Recorded(store) ==>
              Ledger.DigestValue(digest') == store[DIGEST_KEY] && Ledger.AmountValue(supply') == store[SUPPLY_KEY]
    ensures failure.None? && !Recorded(store) ==> digest' == digest && supply' == supply
  {
    digest', supply' := digest, supply;
    if DIGEST_KEY in store && SUPPLY_KEY in store {
      if !store[DIGEST_KEY].DigestValue? || !store[SUPPLY_KEY].AmountValue? {
        return Some(SupplyMismatch), digest', supply';
      }
      var emission := SupplyWrapping(bestHeight);
      if emission != store[SUPPLY_KEY].amount {
        return Some(SupplyMismatch), digest', supply';
      }
      return None, store[DIGEST_KEY].digest, store[SUPPLY_KEY].amount;
    }
    failure := LedgerRuns.ValidateSupplyFull(store, bestHeight);
  }

  /** A load can only pass on a database without both records, whose supply record
      is missing or zero, and whose outputs are worth the whole emission. */
  lemma RestartPassesIff(store: Ledger.Store, bestHeight: nat)
    ensures RestartPasses(store, bestHeight)
            <==> && !Recorded(store)
                 && (SUPPLY_KEY in store ==> store[SUPPLY_KEY] == Ledger.AmountValue(0))
                 && LedgerRuns.FullCheckPasses(store, bestHeight)
  {
    hide LedgerRuns.FullCheckPasses, Emitted;
    LedgerRuns.EmissionPositive(bestHeight);
  }

  /** Connecting any block leaves both records. */
  lemma ConnectRecords(hashes: Ledger.Hashes, node: LedgerRuns.Node, block: Block, height: nat)
    requires LedgerRuns.Step(hashes, node, block, height).Ok?
    ensures Recorded(LedgerRuns.Step(hashes, node, block, height).value.store)
  {
    hide Ledger.BlockPlan, Ledger.Failure;
    var effects := Ledger.BlockPlan(hashes, node.store, block.txs, height).effects;
    var batch := LedgerRuns.BatchOf(hashes, node, block, height);
    var n := |effects|;
    assert batch[n].key == DIGEST_KEY && batch[n + 1].key == SUPPLY_KEY;
    assert forall i :: n <= i < |batch| ==> batch[i].Put?;
    PutStays(node.store, batch, n, |batch|);
    PutStays(node.store, batch, n + 1, |batch|);
    assert batch[..|batch|] == batch;
  }

  lemma {:induction false} PutStays(store: Ledger.Store, batch: seq<Ledger.Op>, i: nat, m: nat)
    requires i < m <= |batch| && forall k :: i <= k < m ==> batch[k].Put?
    ensures batch[i].key in Ledger.ApplyOps(store, batch[..m])
  {
    assert batch[..m][..m - 1] == batch[..m - 1];
    if i < m - 1 {
      PutStays(store, batch, i, m - 1);
    }
  }

  /** So after any connected block no load ever passes. */
  lemma NoRestartAfterConnect(hashes: Ledger.Hashes, node: LedgerRuns.Node, block: Block, height: nat, bestHeight: nat)
    requires LedgerRuns.Step(hashes, node, block, height).Ok?
    ensures !RestartPasses(LedgerRuns.Step(hashes, node, block, height).value.store, bestHeight)
  {
    hide RestartPasses, LedgerRuns.Step;
    ConnectRecords(hashes, node, block, height);
    RestartPassesIff(LedgerRuns.Step(hashes, node, block, height).value.store, bestHeight);
  }

  // ----- the node

  datatype NodeOp = Extend(block: Block) | Restart

  /** A genesis block that every ledger accepts. */
  ghost predicate GenesisOk(genesis: Block) {
    Decode(genesis.header.bits).Ok? && LedgerRuns.OnlyCoinbases(genesis.txs)
  }

  class Node {
    const hash: Hasher
    const hashes: Ledger.Hashes
    const genesis: Block
    var db: Db
    var state: State
    var ledger: LedgerRuns.Node
    var bestTip: Hash
    var bestHeight: nat
    var batchPending: bool

    /** Memory describes the chain, and its last block left its records. */
    ghost predicate Started(chain: seq<Block>)
      reads this
    {
      && chain != [] && |chain| <= U32_BOUND && Distinct(hash, chain) && AllDecode(chain)
      && Indexed(hash, state, chain) && Recorded(ledger.store)
      && bestTip == hash(chain[|chain| - 1].header) && bestHeight == |chain| - 1
      && GenesisOk(genesis) && (db.height.Some? ==> db.height.value < U32_BOUND)
    }

    /** The database describes it too, from height `low` on. */
    ghost predicate Running(chain: seq<Block>, low: nat)
      reads this
    {
      Started(chain) && StoredFrom(hash, db, chain, low)
    }

    /** Memory and database both describe the whole chain. */
    ghost predicate Synced(chain: seq<Block>)
      reads this
    {
      Running(chain, 0)
    }

    /** A node on an empty database. */
    constructor (hash: Hasher, hashes: Ledger.Hashes, genesis: Block)
      requires GenesisOk(genesis)
      ensures Running([genesis], 1) && !batchPending && Pruned(state.blocks, [genesis])
      ensures this.hash == hash && this.hashes == hashes && this.genesis == genesis
      ensures db == Db(map[], map[], map[0 := genesis.header], None, None)
    {
      this.hash, this.hashes, this.genesis := hash, hashes, genesis;
      db := Db(map[], map[], map[], None, None);
      state := EMPTY_STATE;
      ledger := LedgerRuns.Node(map[], ZERO_HASH, 0);
      bestTip, bestHeight := ZERO_HASH, 0;
      batchPending := false;
      new;
      StartAfresh();
    }

    /** Starts from the genesis block, which is connected but not saved, over whatever
        the database holds. */
    method StartAfresh()
      requires GenesisOk(genesis) && (db.height.Some? ==> db.height.value < U32_BOUND)
      modifies this
      ensures Running([genesis], 1) && !batchPending && Pruned(state.blocks, [genesis])
      ensures db == old(db).(headers := old(db).headers[0 := genesis.header])
    {
      hide LedgerRuns.Step, Indexed, Applied, Recorded, Pruned;
      state := EMPTY_STATE;
      NoBlocks();
      ledger := LedgerRuns.Node(ledger.store, ZERO_HASH, 0);
      bestTip, bestHeight := ZERO_HASH, 0;
      batchPending := false;
      EmptyIsIndexed(hash);
      AppliedIsIndexed(hash, state, [], genesis);
      PrunedStep(state, hash(genesis.header), [], genesis, WorkOf(genesis.header));
      LedgerRuns.CoinbaseStep(hashes, ledger, genesis, 0);
      ConnectRecords(hashes, ledger, genesis, 0);
      assert [] + [genesis] == [genesis];
      var work := WorkOfBits(genesis.header.bits);
      var failure := Apply(genesis, 0, true, work.value);
    }

    static method WorkOfBits(bits: nat) returns (r: Result<nat>)
      ensures r.Ok? <==> Decode(bits).Ok?
      ensures r.Ok? ==> r.value == BlockWork(bits)
    {
      var target := CompactToTarget(bits);
      if target.Err? {
        return target;
      }
      return Ok(Pow256(32) / (target.value + 1));
    }

    /** Connects a block: the ledger with its records, the header record, then the
        indexes in memory. Nothing changes if the ledger refuses the block, but the
        pending flag stays set, and every later block is refused. */
    method Apply(b: Block, height: nat, isBest: bool, work: nat) returns (failure: Option<ChainError>)
      modifies this
      ensures failure.None? <==> !old(batchPending) && LedgerRuns.Step(hashes, old(ledger), b, height).Ok?
      ensures batchPending == failure.Some?
      ensures failure.None? ==> ledger == LedgerRuns.Step(hashes, old(ledger), b, height).value
      ensures failure.None? ==> state == Applied(old(state), hash(b.header), b, height, work, isBest)
      ensures failure.None? ==> db == old(db).(headers := old(db).headers[height := b.header])
      ensures failure.None? ==> bestTip == (if isBest then hash(b.header) else old(bestTip))
      ensures failure.None? ==> bestHeight == (if isBest then height else old(bestHeight))
      ensures failure.Some? ==> db == old(db) && state == old(state) && ledger == old(ledger)
      ensures failure.Some? ==> bestTip == old(bestTip) && bestHeight == old(bestHeight)
    {
      hide LedgerRuns.Step;
      if batchPending {
        return Some(BatchPending);
      }
      batchPending := true;
      var step := LedgerRuns.Step(hashes, ledger, b, height);
      if step.Err? {
        return Some(step.error);
      }
      ledger := step.value;
      var x := hash(b.header);
      var total := WorkBelow(state, height) + work;
      db := db.(headers := db.headers[height := b.header]);
      state := state.(blocks := state.blocks[height := b],
      heightToHash := state.heightToHash[height := x],
      hashToHeight := state.hashToHeight[x := height],
      work := state.work[height := total]);
      var pushed := state.timestamps + [b.header.timestamp];
      if |pushed| > WINDOW {
        pushed := pushed[1..];
      }
      state := state.(timestamps := pushed);
      if isBest {
        bestTip, bestHeight := x, height;
        if height > PRUNE_DEPTH {
          state := state.(blocks := state.blocks - {height - PRUNE_DEPTH});
        }
      }
      batchPending := false;
      return None;
    }

    method Save(b: Block, height: nat)
      modifies this`db
      ensures db == Saved(old(db), hash(b.header), b, height)
    {
      var x := hash(b.header);
      db := db.(blocks := db.blocks[x := b], heights := db.heights[height := x], tip := Some(x),
      height := Some(height % U32_BOUND));
    }

    /** Saves the best block once more, as the node does when it shuts down; this
        is what brings a lone genesis block into the database. */
    method SaveBest(ghost chain: seq<Block>)
      requires Started(chain)
      modifies this`db
      ensures db == Saved(old(db), bestTip, chain[bestHeight], bestHeight)
      ensures |chain| == 1 && 0 in old(db.headers) && old(db.headers[0]) == chain[0].header ==> Synced(chain)
    {
      hide Distinct, AllDecode, HeightIndex, HashIndex, WorkIndex, Window;
      assert bestHeight in state.blocks && state.blocks[bestHeight] == chain[bestHeight];
      Save(state.blocks[bestHeight], bestHeight);
      if |chain| == 1 {
        assert StoredAt(hash, db, chain, 0) || 0 !in db.headers || db.headers[0] != chain[0].header;
      }
    }

    /** Extends the chain by a block that is not yet indexed. */
    method Connect(b: Block, ghost chain: seq<Block>, ghost low: nat) returns (r: Result<bool>)
      requires Running(chain, low) && low <= |chain| < U32_BOUND
      modifies this
      ensures r == Ok(true) ==> Running(chain + [b], low) && !batchPending
      ensures r == Ok(true) && old(Pruned(state.blocks, chain)) ==> Pruned(state.blocks, chain + [b])
      ensures r != Ok(true) ==> Running(chain, low) && state == old(state)
      ensures r == Ok(false) <==> Known(hash, chain, b)
      ensures r.Ok? || Decode(b.header.bits).Err? || batchPending
      ensures r == Ok(true) <==> !Known(hash, chain, b) && Decode(b.header.bits).Ok? && !old(batchPending)
                                 && LedgerRuns.Step(hashes, old(ledger), b, |chain|).Ok?
    {
      hide Indexed, StoredFrom, Applied, Saved, LedgerRuns.Step, Recorded, Pruned;
      ghost var st, db0, ledger0 := state, db, ledger;
      KnownHashes(hash, st, chain);
      if hash(b.header) in state.hashToHeight {
        return Ok(false);
      }
      var work := WorkOfBits(b.header.bits);
      if work.Err? {
        return Err(work.error);
      }
      AppliedIsIndexed(hash, st, chain, b);
      if Pruned(st.blocks, chain) {
        PrunedStep(st, hash(b.header), chain, b, WorkOf(b.header));
      }
      SavedIsStored(hash, db0, chain, low, b);
      var failure := Apply(b, bestHeight + 1, true, work.value);
      if failure.Some? {
        return Err(failure.value);
      }
      ConnectRecords(hashes, ledger0, b, |chain|);
      SavedHeight(db, hash(b.header), b, bestHeight);
      Save(b, bestHeight);
      return Ok(true);
    }

    /** Rebuilds the state from the database, if every record it needs is there. */
    method Rebuild() returns (r: Result<nat>)
      modifies this`state, this`bestTip, this`bestHeight
      ensures r.Ok? <==> Rebuildable(db)
      ensures r.Ok? ==> state == RebuiltState(db)
      ensures r.Ok? ==> bestTip == db.tip.value && bestHeight == db.height.value == r.value
    {
      hide WorkOf, LoadedWork, LoadedState, HeaderAt;
      if db.tip.None? || db.height.None? {
        return Err(MissingBlock);
      }
      bestTip, bestHeight := db.tip.value, db.height.value;
      var start := PruneStart(bestHeight);
      state := EMPTY_STATE;
      var total := 0;
      LoadsNothing(db, start);
      for h := 0 to bestHeight + 1
        invariant bestTip == db.tip.value && bestHeight == db.height.value
        invariant LoadableUpTo(db, start, h)
        invariant total == LoadedWork(db, start, h) && state == LoadedState(db, start, h)
      {
        var header := HeaderAt(db, start, h);
        if header.None? {
          assert !LoadableAt(db, start, h);
          return Err(MissingBlock);
        }
        var work := WorkOfBits(header.value.bits);
        if work.Err? {
          assert !LoadableAt(db, start, h);
          return Err(work.error);
        }
        LoadsOneMore(db, start, h);
        total := total + work.value;
        state := NextLoaded(db, state, start, h, total);
      }
      var recorded := bestHeight in state.work && state.work[bestHeight] == total;
      LastWork(db, start, bestHeight);
      return if recorded then Ok(bestHeight) else Err(WorkMismatch);
    }

    /** A restart: rebuilds the indexes, starts with no digest and no supply, and
        runs both supply checks. */
    method Load() returns (r: Result<nat>)
      requires db.height.Some? ==> db.height.value < U32_BOUND
      modifies this
      ensures db == old(db) && ledger.store == old(ledger.store)
      ensures r.Ok? <==> Rebuildable(db) && RestartPasses(ledger.store, db.height.value)
      ensures Rebuildable(db) ==> state == RebuiltState(db)
      ensures Rebuildable(db) ==> bestTip == db.tip.value && bestHeight == db.height.value
    {
      hide Rebuildable, RebuiltState, StateCheckPasses, SmartCheckPasses, Recorded;
      batchPending := false;
      r := Rebuild();
      if r.Err? {
        return;
      }
      RebuildableIsTipped(db);
      ledger := LedgerRuns.Node(ledger.store, ZERO_HASH, 0);
      var failure := ValidateState(ledger.store, ledger.supply);
      if failure.Some? {
        return Err(failure.value);
      }
      var digest, supply;
      failure, digest, supply := ValidateSupplySmart(ledger.store, bestHeight, ledger.digest, ledger.supply);
      if failure.Some? {
        return Err(failure.value);
      }
      ledger := LedgerRuns.Node(ledger.store, digest, supply);
    }

    /** A restart of a node in step with its chain brings back the same indexes,
        and is then always refused by the supply checks. */
    method Reload(ghost chain: seq<Block>) returns (r: Result<nat>)
      requires Synced(chain)
      modifies this
      ensures r.Err? && Synced(chain) && db == old(db)
      ensures state.heightToHash == old(state.heightToHash) && state.hashToHeight == old(state.hashToHeight)
      ensures state.work == old(state.work) && state.timestamps == old(state.timestamps)
    {
      hide LoadableUpTo, LoadedState, HeightIndex, HashIndex, WorkIndex, Window, BlocksKept, RestartPasses, Recorded;
      LoadedIsIndexed(hash, db, chain);
      RestartPassesIff(ledger.store, db.height.value);
      r := Load();
    }

    /** The whole restart: the load, which is always refused once a block has been
        connected, and then a fresh start over the same database. */
    method Restart(ghost chain: seq<Block>)
      requires Started(chain)
      modifies this
      ensures Running([genesis], 1) && !batchPending && Pruned(state.blocks, [genesis])
      ensures db == old(db).(headers := old(db).headers[0 := genesis.header])
    {
      hide Indexed, Distinct, AllDecode, Rebuildable, RebuiltState, RestartPasses, Recorded, GenesisOk;
      if db.height.Some? {
        RestartPassesIff(ledger.store, db.height.value);
      } else {
        NotRebuildable(db);
      }
      var r := Load();
      if r.Err? {
        StartAfresh();
      }
    }

    /** Over every run of blocks and restarts memory describes one chain, with its first
        and its last blocks at hand, and the database holds all of it but perhaps the
        genesis block. The chain grows between restarts, and begins anew with the genesis
        block at each. */
    method Run(ops: seq<NodeOp>, ghost chain0: seq<Block>, ghost low0: nat)
      returns (ghost chain: seq<Block>, ghost low: nat)
      requires Running(chain0, low0) && low0 <= 1 && |chain0| + |ops| <= U32_BOUND
      requires Pruned(state.blocks, chain0)
      modifies this
      ensures Running(chain, low) && low <= 1 && Pruned(state.blocks, chain)
      ensures NodeOp.Restart !in ops ==> chain0 <= chain && low == low0
      ensures NodeOp.Restart in ops ==> chain[0] == genesis && low == 1
    {
      hide Running, Pruned, RestartsWithin;
      RunningIsStarted(chain0, low0);
      RestartsNone(ops);
      chain, low := chain0, low0;
      ghost var restarted := false;
      for i := 0 to |ops|
        invariant Running(chain, low) && low <= 1 && Pruned(state.blocks, chain)
        invariant |chain| <= |chain0| + i && chain != []
        invariant restarted <==> RestartsWithin(ops, i)
        invariant if restarted then chain[0] == genesis && low == 1 else chain0 <= chain && low == low0
      {
        RestartsNext(ops, i);
        chain, low := Do(ops[i], chain, low);
        restarted := restarted || ops[i].Restart?;
      }
      RestartsAtAll(ops);
    }

    /** One operation of a run. */
    method Do(op: NodeOp, ghost chain: seq<Block>, ghost low: nat)
      returns (ghost chain': seq<Block>, ghost low': nat)
      requires Running(chain, low) && low <= 1 && |chain| < U32_BOUND && Pruned(state.blocks, chain)
      modifies this
      ensures Running(chain', low') && low' <= 1 && Pruned(state.blocks, chain')
      ensures chain' != [] && |chain'| <= |chain| + 1
      ensures if op.Restart? then chain' == [genesis] && low' == 1 else chain <= chain' && low' == low
    {
      hide Running, Pruned;
      RunningIsStarted(chain, low);
      match op
      case Extend(b) =>
        var r := Connect(b, chain, low);
        chain', low' := if r == Ok(true) then chain + [b] else chain, low;
      case Restart =>
        Restart(chain);
        chain', low' := [genesis], 1;
    }

    lemma RunningIsStarted(chain: seq<Block>, low: nat)
      requires Running(chain, low)
      ensures Started(chain) && chain != []
    {
    }
  }

  /** One of the first `n` operations is a restart. */
  ghost predicate RestartsWithin(ops: seq<NodeOp>, n: nat) {
    exists k :: 0 <= k < n && k < |ops| && ops[k].Restart?
  }

  lemma RestartsNone(ops: seq<NodeOp>)
    ensures !RestartsWithin(ops, 0)
  {
  }

  lemma RestartsNext(ops: seq<NodeOp>, n: nat)
    requires n < |ops|
    ensures RestartsWithin(ops, n + 1) <==> RestartsWithin(ops, n) || ops[n].Restart?
  {
    if k :| 0 <= k < n + 1 && ops[k].Restart? {
      assert k == n || k < n;
    }
  }

  lemma RestartsAtAll(ops: seq<NodeOp>)
    ensures RestartsWithin(ops, |ops|) <==> NodeOp.Restart in ops
  {
    if k :| 0 <= k < |ops| && ops[k].Restart? {
      assert ops[k] in ops;
    }
  }

  /** The block's hash is that of a block of the chain. */
  ghost predicate Known(hash: Hasher, chain: seq<Block>, b: Block) {
    exists h :: 0 <= h < |chain| && hash(chain[h].header) == hash(b.header)
  }

  lemma NoBlocks()
    ensures Pruned(EMPTY_STATE.blocks, [])
  {
  }

  lemma SavedHeight(db: Db, x: Hash, b: Block, height: nat)
    ensures Saved(db, x, b, height).height == Some(height % U32_BOUND)
  {
  }

  lemma NotRebuildable(db: Db)
    requires db.height.None?
    ensures !Rebuildable(db)
  {
  }

  ghost predicate Rebuildable(db: Db) {
    db.tip.Some? && db.height.Some? && LoadableUpTo(db, PruneStart(db.height.value), db.height.value + 1)
  }

  ghost function RebuiltState(db: Db): State
    requires Rebuildable(db)
  {
    LoadedState(db, PruneStart(db.height.value), db.height.value + 1)
  }

  lemma RebuildableIsTipped(db: Db)
    requires Rebuildable(db)
    ensures db.tip.Some? && db.height.Some?
  {
  }
}
