/** Value conservation: what a validated block does to the value of the set of
    unspent outputs, and what whole runs of blocks keep. */
module Conservation {
  import opened Basics
  import opened Sums
  import opened Emission
  import opened Ledger
  import opened LedgerInvariants
  import opened Validation

  // ----- sums over effect lists

  lemma {:induction false} SumsConcat(a: seq<Effect>, b: seq<Effect>)
    ensures Spent(a + b) == Spent(a) + Spent(b) && Created(a + b) == Created(a) + Created(b)
  {
    if b == [] {
      assert a + b == a;
    } else {
      var front := b[..|b| - 1];
      assert (a + b)[..|a + b| - 1] == a + front;
      SumsConcat(a, front);
    }
  }

  lemma {:induction false} SpentWithin(outs: map<DbKey, TxOut>, effects: seq<Effect>)
    requires forall i :: 0 <= i < |effects| && effects[i].Spend?
               ==> effects[i].key in outs && outs[effects[i].key] == effects[i].out
    requires DistinctSpends(effects)
    ensures Spent(effects) <= MapSum(outs, OutAmount)
    decreases |effects|
  {
    if effects != [] {
      var e, tail := effects[0], effects[1..];
      assert effects == [e] + tail;
      SumsConcat([e], tail);
      assert [e][..0] == [];
      if e.Spend? {
        MapSumRemove(outs, e.key, OutAmount);
        SpentWithin(outs - {e.key}, tail);
      } else {
        SpentWithin(outs, tail);
      }
    }
  }

  /** Distinct spends take no more than the set holds. */
  lemma SpentWithinSet(store: Store, effects: seq<Effect>)
    requires AllWellFormed(store, effects) && DistinctSpends(effects)
    ensures Spent(effects) <= SetValue(store)
  {
    forall i | 0 <= i < |effects| && effects[i].Spend?
      ensures effects[i].key in Outs(store) && Outs(store)[effects[i].key] == effects[i].out
    {
      assert effects[i] in effects;
    }
    SpentWithin(Outs(store), effects);
  }

  // ----- one valid transaction

  predicate NoCreates(effects: seq<Effect>) {
    forall e :: e in effects ==> !e.Create?
  }

  predicate NoSpends(effects: seq<Effect>) {
    forall e :: e in effects ==> !e.Spend?
  }

  lemma PresentInput(store: Store, tx: Tx, vin: TxIn, height: nat)
    requires !tx.anonymous && Present(store, OutKey(false, vin.prev))
    ensures var key := OutKey(false, vin.prev);
            && InputPlan(store, tx, vin, height) == Plan([Spend(key, store[key].out)], None)
            && Spent([Spend(key, store[key].out)]) == store[key].out.value
  {
    var e := Spend(OutKey(false, vin.prev), store[OutKey(false, vin.prev)].out);
    assert [e][..0] == [];
  }

  lemma {:induction false} InputsOfValidTx(store: Store, tx: Tx, n: nat, height: nat)
    requires !tx.anonymous && n <= |tx.inputs|
    requires forall i :: 0 <= i < |tx.inputs| ==> Present(store, OutKey(false, tx.inputs[i].prev))
    ensures var plan := InputsPlan(store, tx, n, height);
            plan.error.None? && Spent(plan.effects) == InputSum(store, tx, n) && NoCreates(plan.effects)
  {
    if n > 0 {
      hide InputPlan, Spent, Created;
      InputsOfValidTx(store, tx, n - 1, height);
      var key := OutKey(false, tx.inputs[n - 1].prev);
      assert Present(store, key);
      PresentInput(store, tx, tx.inputs[n - 1], height);
      SumsConcat(InputsPlan(store, tx, n - 1, height).effects, [Spend(key, store[key].out)]);
    }
  }

  lemma {:induction false} OutputsOfTx(hashes: Hashes, tx: Tx, n: nat)
    requires n <= |tx.outputs|
    ensures Created(OutputsEffects(hashes, tx, n)) == OutputSum(tx, n)
    ensures NoSpends(OutputsEffects(hashes, tx, n))
  {
    if n > 0 {
      OutputsOfTx(hashes, tx, n - 1);
      var last := OutputEffects(hashes, tx, n - 1);
      assert last[..1] == [last[0]];
      assert Created(last[..1]) == Created([]) + tx.outputs[n - 1].value;
      assert !tx.anonymous ==> last[..|last| - 1] == last[..1];
      SumsConcat(OutputsEffects(hashes, tx, n - 1), last);
    }
  }

  lemma {:induction false} NothingCreated(effects: seq<Effect>)
    requires NoCreates(effects)
    ensures Created(effects) == 0
  {
    if effects != [] {
      assert effects[|effects| - 1] in effects;
      assert forall e :: e in effects[..|effects| - 1] ==> e in effects;
      NothingCreated(effects[..|effects| - 1]);
    }
  }

  lemma {:induction false} NothingSpent(effects: seq<Effect>)
    requires NoSpends(effects)
    ensures Spent(effects) == 0
  {
    if effects != [] {
      assert effects[|effects| - 1] in effects;
      assert forall e :: e in effects[..|effects| - 1] ==> e in effects;
      NothingSpent(effects[..|effects| - 1]);
    }
  }

  lemma {:induction false} SpendsSucceed(supply: nat, effects: seq<Effect>)
    requires NoCreates(effects) && Spent(effects) <= supply
    ensures SupplyAfter(supply, effects) == Some(supply - Spent(effects))
  {
    if effects != [] {
      assert effects[|effects| - 1] in effects;
      assert forall e :: e in effects[..|effects| - 1] ==> e in effects;
      SpendsSucceed(supply, effects[..|effects| - 1]);
    }
  }

  lemma {:induction false} CreatesSucceed(supply: nat, effects: seq<Effect>)
    requires NoSpends(effects) && supply + Created(effects) < U64_BOUND
    ensures SupplyAfter(supply, effects) == Some(supply + Created(effects))
  {
    if effects != [] {
      assert effects[|effects| - 1] in effects;
      assert forall e :: e in effects[..|effects| - 1] ==> e in effects;
      CreatesSucceed(supply, effects[..|effects| - 1]);
    }
  }

  /** The null outpoint of coinbase inputs is not an entry of the set. */
  predicate NoNullEntry(store: Store) {
    OutKey(false, NULL_OUTPOINT) !in store && OutKey(true, NULL_OUTPOINT) !in store
  }

  lemma FeeOfCoinbase(store: Store, tx: Tx)
    requires tx.IsCoinbase() && NoNullEntry(store)
    ensures Fee(store, tx) == 0
  {
    assert InputSum(store, tx, 1) == InputSum(store, tx, 0);
  }

  /** The two halves of a valid transaction that is not a coinbase. */
  lemma PartsOfValidTx(hashes: Hashes, store: Store, tx: Tx, height: nat, bestHeight: nat, proofsOk: Tx -> bool)
    requires ValidTx(store, tx, height, bestHeight, proofsOk)
    requires !tx.IsCoinbase() && 0 < tx.size <= MAX_BLOCK_SIZE
    ensures var ins, outs := InputsPlan(store, tx, |tx.inputs|, height), OutputsEffects(hashes, tx, |tx.outputs|);
            && ins.error.None? && NoCreates(ins.effects) && NoSpends(outs)
            && TxPlan(hashes, store, tx, height) == Plan(ins.effects + outs, None)
            && Spent(ins.effects) == Created(outs) + Fee(store, tx)
            && Created(ins.effects) == 0 && Spent(outs) == 0
  {
    AnonymousNeverValid(store, tx, height, bestHeight, proofsOk);
    InputsOfValidTx(store, tx, |tx.inputs|, height);
    OutputsOfTx(hashes, tx, |tx.outputs|);
    NothingCreated(InputsPlan(store, tx, |tx.inputs|, height).effects);
    NothingSpent(OutputsEffects(hashes, tx, |tx.outputs|));
  }

  lemma CoinbaseMovesNothing(tx: Tx, height: nat, supply: nat)
    ensures var effects := [Mark(CoinbaseKey(tx.id), HeightValue(height))];
            Spent(effects) == 0 && Created(effects) == 0 && SupplyAfter(supply, effects) == Some(supply)
  {
    var e := Mark(CoinbaseKey(tx.id), HeightValue(height));
    assert [e][..0] == [];
  }

  /** A valid transaction takes its inputs out of the set, puts its outputs in,
      and its fee is the difference. */
  lemma TxConserves(hashes: Hashes, store: Store, tx: Tx, height: nat, bestHeight: nat, proofsOk: Tx -> bool)
    requires ValidTx(store, tx, height, bestHeight, proofsOk)
    requires 0 < tx.size <= MAX_BLOCK_SIZE && NoNullEntry(store)
    ensures var plan := TxPlan(hashes, store, tx, height);
            && plan.error.None?
            && Spent(plan.effects) == Created(plan.effects) + Fee(store, tx)
  {
    if tx.IsCoinbase() {
      FeeOfCoinbase(store, tx);
      CoinbaseMovesNothing(tx, height, 0);
    } else {
      PartsOfValidTx(hashes, store, tx, height, bestHeight, proofsOk);
      SumsConcat(InputsPlan(store, tx, |tx.inputs|, height).effects, OutputsEffects(hashes, tx, |tx.outputs|));
    }
  }

  /** A valid transaction that is not a coinbase takes at least ten units per byte out
      of the set. */
  lemma TxPaysPerByte(hashes: Hashes, store: Store, tx: Tx, height: nat, bestHeight: nat, proofsOk: Tx -> bool)
    requires ValidTx(store, tx, height, bestHeight, proofsOk) && NoNullEntry(store)
    requires !tx.IsCoinbase() && 0 < tx.size <= MAX_BLOCK_SIZE
    ensures var effects := TxPlan(hashes, store, tx, height).effects;
            Spent(effects) >= Created(effects) + 10 * tx.size
  {
    AnonymousNeverValid(store, tx, height, bestHeight, proofsOk);
    TxConserves(hashes, store, tx, height, bestHeight, proofsOk);
  }

  /** The bytes of the transactions that are not coinbases. */
  function PayingBytes(txs: seq<Tx>): nat {
    if txs == [] then 0 else
      var tx := txs[|txs| - 1];
      PayingBytes(txs[..|txs| - 1]) + if tx.IsCoinbase() then 0 else tx.size
  }

  lemma {:induction false} BlockPaysPerByte(hashes: Hashes, store: Store, txs: seq<Tx>, height: nat, bestHeight: nat,
                                           proofsOk: Tx -> bool)
    requires AllValid(store, txs, height, bestHeight, proofsOk) && Sized(txs) && NoNullEntry(store)
    ensures var effects := BlockPlan(hashes, store, txs, height).effects;
            Spent(effects) >= Created(effects) + 10 * PayingBytes(txs)
    ensures BlockPlan(hashes, store, txs, height).error.None?
  {
    if txs != [] {
      var front, last := txs[..|txs| - 1], txs[|txs| - 1];
      BlockPaysPerByte(hashes, store, front, height, bestHeight, proofsOk);
      TxConserves(hashes, store, last, height, bestHeight, proofsOk);
      if !last.IsCoinbase() {
        TxPaysPerByte(hashes, store, last, height, bestHeight, proofsOk);
      }
      SumsConcat(BlockPlan(hashes, store, front, height).effects, TxPlan(hashes, store, last, height).effects);
    }
  }

  /** Spending comes first, so the supply never passes its starting value. */
  lemma SpendThenCreate(supply: nat, ins: seq<Effect>, outs: seq<Effect>)
    requires NoCreates(ins) && NoSpends(outs)
    requires Created(outs) <= Spent(ins) <= supply < U64_BOUND
    ensures SupplyAfter(supply, ins + outs) == Some(supply - Spent(ins) + Created(outs))
  {
    SpendsSucceed(supply, ins);
    CreatesSucceed(supply - Spent(ins), outs);
    SupplyConcat(supply, ins, outs);
  }

  lemma TxSupplySucceeds(hashes: Hashes, store: Store, tx: Tx, height: nat, bestHeight: nat, proofsOk: Tx -> bool,
                         supply: nat)
    requires ValidTx(store, tx, height, bestHeight, proofsOk)
    requires 0 < tx.size <= MAX_BLOCK_SIZE && NoNullEntry(store)
    requires Spent(TxPlan(hashes, store, tx, height).effects) <= supply < U64_BOUND
    ensures SupplyAfter(supply, TxPlan(hashes, store, tx, height).effects) == Some(supply - Fee(store, tx))
  {
    if tx.IsCoinbase() {
      FeeOfCoinbase(store, tx);
      CoinbaseMovesNothing(tx, height, supply);
    } else {
      PartsOfValidTx(hashes, store, tx, height, bestHeight, proofsOk);
      var ins, outs := InputsPlan(store, tx, |tx.inputs|, height).effects, OutputsEffects(hashes, tx, |tx.outputs|);
      SumsConcat(ins, outs);
      SpendThenCreate(supply, ins, outs);
    }
  }

  // ----- one valid block

  predicate Sized(txs: seq<Tx>) {
    forall i :: 0 <= i < |txs| ==> 0 < txs[i].size <= MAX_BLOCK_SIZE
  }

  ghost predicate AllValid(store: Store, txs: seq<Tx>, height: nat, bestHeight: nat, proofsOk: Tx -> bool) {
    forall i :: 0 <= i < |txs| ==> ValidTx(store, txs[i], height, bestHeight, proofsOk)
  }

  lemma {:induction false} SameFees(store: Store, a: seq<Tx>, b: seq<Tx>, n: nat)
    requires n <= |a| && n <= |b| && forall i :: 0 <= i < n ==> a[i] == b[i]
    ensures TotalFees(store, a, n) == TotalFees(store, b, n)
  {
    if n > 1 {
      SameFees(store, a, b, n - 1);
    }
  }

  /** The fees of a block, one transaction at a time; the leading coinbase adds
      nothing. */
  lemma {:induction false} FeesStep(store: Store, txs: seq<Tx>)
    requires txs != [] && txs[0].IsCoinbase() && NoNullEntry(store)
    ensures TotalFees(store, txs, |txs|)
            == TotalFees(store, txs[..|txs| - 1], |txs| - 1) + Fee(store, txs[|txs| - 1])
  {
    if |txs| == 1 {
      FeeOfCoinbase(store, txs[0]);
    } else {
      SameFees(store, txs, txs[..|txs| - 1], |txs| - 1);
    }
  }

  lemma {:induction false} BlockConserves(hashes: Hashes, store: Store, txs: seq<Tx>, height: nat, bestHeight: nat,
                                         proofsOk: Tx -> bool)
    requires AllValid(store, txs, height, bestHeight, proofsOk) && Sized(txs) && NoNullEntry(store)
    requires txs != [] ==> txs[0].IsCoinbase()
    ensures var plan := BlockPlan(hashes, store, txs, height);
            plan.error.None? && Spent(plan.effects) == Created(plan.effects) + TotalFees(store, txs, |txs|)
  {
    if txs != [] {
      var front, last := txs[..|txs| - 1], txs[|txs| - 1];
      BlockConserves(hashes, store, front, height, bestHeight, proofsOk);
      TxConserves(hashes, store, last, height, bestHeight, proofsOk);
      FeesStep(store, txs);
      SumsConcat(BlockPlan(hashes, store, front, height).effects, TxPlan(hashes, store, last, height).effects);
    }
  }

  lemma {:induction false} BlockSupplySucceeds(hashes: Hashes, store: Store, txs: seq<Tx>, height: nat,
                                              bestHeight: nat, proofsOk: Tx -> bool, supply: nat)
    requires AllValid(store, txs, height, bestHeight, proofsOk) && Sized(txs) && NoNullEntry(store)
    requires txs != [] ==> txs[0].IsCoinbase()
    requires Spent(BlockPlan(hashes, store, txs, height).effects) <= supply < U64_BOUND
    ensures SupplyAfter(supply, BlockPlan(hashes, store, txs, height).effects).Some?
  {
    if txs != [] {
      var front, last := txs[..|txs| - 1], txs[|txs| - 1];
      var a, b := BlockPlan(hashes, store, front, height), TxPlan(hashes, store, last, height);
      BlockConserves(hashes, store, front, height, bestHeight, proofsOk);
      SumsConcat(a.effects, b.effects);
      BlockSupplySucceeds(hashes, store, front, height, bestHeight, proofsOk, supply);
      SupplyFollowsValue(supply, a.effects);
      SupplyConcat(supply, a.effects, b.effects);
      TxSupplySucceeds(hashes, store, last, height, bestHeight, proofsOk, SupplyAfter(supply, a.effects).value);
    }
  }

  /** The hypotheses on a block that validation does not check: no output is
      spent by two of its transactions, and the outputs it creates are new. */
  ghost predicate CleanBlock(hashes: Hashes, store: Store, txs: seq<Tx>, height: nat) {
    Clean(store, BlockPlan(hashes, store, txs, height).effects)
  }

  /** A block that passed validation, on a set without a null entry. */
  ghost predicate Acceptable(store: Store, txs: seq<Tx>, height: nat, bestHeight: nat, proofsOk: Tx -> bool) {
    ValidBlock(store, txs, height, bestHeight, proofsOk) && Sized(txs) && NoNullEntry(store)
  }

  lemma AcceptableIsValid(store: Store, txs: seq<Tx>, height: nat, bestHeight: nat, proofsOk: Tx -> bool)
    requires Acceptable(store, txs, height, bestHeight, proofsOk)
    ensures AllValid(store, txs, height, bestHeight, proofsOk)
  {
    assert ValidTx(store, txs[0], height, bestHeight, proofsOk);
  }

  /** Connecting a valid block never fails as long as the running supply covers
      the set: no lookup misses and no checked operation overflows. */
  lemma {:induction false} ValidBlockConnects(hashes: Hashes, store: Store, txs: seq<Tx>, height: nat,
                                             bestHeight: nat, proofsOk: Tx -> bool, supply: nat)
    requires Acceptable(store, txs, height, bestHeight, proofsOk) && CleanBlock(hashes, store, txs, height)
    requires SetValue(store) <= supply < U64_BOUND
    ensures Failure(supply, BlockPlan(hashes, store, txs, height)).None?
  {
    AcceptableIsValid(store, txs, height, bestHeight, proofsOk);
    BlockConserves(hashes, store, txs, height, bestHeight, proofsOk);
    SpentWithinSet(store, BlockPlan(hashes, store, txs, height).effects);
    BlockSupplySucceeds(hashes, store, txs, height, bestHeight, proofsOk, supply);
  }

  /** It lowers the value of the set by exactly the fees, so that what leaves the
      set plus the subsidy is what the coinbase pays out. */
  lemma {:induction false} ValidBlockConserves(hashes: Hashes, store: Store, txs: seq<Tx>, height: nat,
                                              bestHeight: nat, proofsOk: Tx -> bool)
    requires Acceptable(store, txs, height, bestHeight, proofsOk) && CleanBlock(hashes, store, txs, height)
    ensures txs != [] && txs[0].outputs != []
    ensures var after := After(store, BlockPlan(hashes, store, txs, height).effects);
            && SetValue(after) + TotalFees(store, txs, |txs|) == SetValue(store)
            && SetValue(after) + txs[0].outputs[0].value == SetValue(store) + Subsidy(height)
  {
    AcceptableIsValid(store, txs, height, bestHeight, proofsOk);
    BlockConserves(hashes, store, txs, height, bestHeight, proofsOk);
    ValueFollowsSet(store, BlockPlan(hashes, store, txs, height).effects);
  }

  /** Those fees are at least ten units for every byte that is not a coinbase's. */
  lemma ValidBlockPays(hashes: Hashes, store: Store, txs: seq<Tx>, height: nat, bestHeight: nat, proofsOk: Tx -> bool)
    requires Acceptable(store, txs, height, bestHeight, proofsOk) && CleanBlock(hashes, store, txs, height)
    ensures var after := After(store, BlockPlan(hashes, store, txs, height).effects);
            SetValue(after) + 10 * PayingBytes(txs) <= SetValue(store)
  {
    hide BlockPlan, After, Spent, Created, PayingBytes, SetValue;
    AcceptableIsValid(store, txs, height, bestHeight, proofsOk);
    BlockPaysPerByte(hashes, store, txs, height, bestHeight, proofsOk);
    ValueFollowsSet(store, BlockPlan(hashes, store, txs, height).effects);
  }

  /** And the running supply drops by the same fees. */
  lemma {:induction false} ValidBlockSupply(hashes: Hashes, store: Store, txs: seq<Tx>, height: nat,
                                           bestHeight: nat, proofsOk: Tx -> bool, supply: nat)
    requires Acceptable(store, txs, height, bestHeight, proofsOk) && CleanBlock(hashes, store, txs, height)
    requires SetValue(store) <= supply < U64_BOUND
    ensures var after := SupplyAfter(supply, BlockPlan(hashes, store, txs, height).effects);
            after.Some? && after.value + TotalFees(store, txs, |txs|) == supply
  {
    ValidBlockConnects(hashes, store, txs, height, bestHeight, proofsOk, supply);
    AcceptableIsValid(store, txs, height, bestHeight, proofsOk);
    BlockConserves(hashes, store, txs, height, bestHeight, proofsOk);
    SupplyFollowsValue(supply, BlockPlan(hashes, store, txs, height).effects);
  }
}
