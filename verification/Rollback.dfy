/** Undoing a block whose batch could not be written: the undo log, replayed
    backwards over whatever part of the batch has landed. */
module Rollback {
  import opened Basics
  import opened Ledger
  import opened LedgerInvariants

  function UndoOp(u: Undo): Op {
    match u.value
    case Some(v) => Put(u.key, v)
    case None => Delete(u.key)
  }

  /** The rollback batch: the undo log from its last entry to its first. */
  method BuildRollback(undo: seq<Undo>, ghost landed: Store) returns (batch: seq<Op>)
    ensures ApplyOps(landed, batch) == Restore(landed, undo)
  {
    batch := [];
    var i := |undo|;
    assert undo[i..] == [];
    while i > 0
      invariant 0 <= i <= |undo|
      invariant ApplyOps(landed, batch) == Restore(landed, undo[i..])
    {
      i := i - 1;
      ghost var before := batch;
      batch := batch + [UndoOp(undo[i])];
      assert batch[..|batch| - 1] == before;
      assert undo[i..][1..] == undo[i + 1..];
    }
    assert undo[0..] == undo;
  }

  /** What is left when the log has been replayed: its first entry comes last. */
  function Restore(landed: Store, undo: seq<Undo>): Store {
    if undo == [] then landed else ApplyOp(Restore(landed, undo[1..]), UndoOp(undo[0]))
  }

  /** The position of the first effect on `key`, or the length. */
  function FirstTouch(effects: seq<Effect>, key: DbKey): (f: nat)
    ensures f <= |effects|
    ensures f < |effects| ==> effects[f].key == key
    ensures forall i :: 0 <= i < f ==> effects[i].key != key
  {
    if effects == [] then 0
    else if effects[0].key == key then 0
    else 1 + FirstTouch(effects[1..], key)
  }

  /** The first entry for a key decides what the key holds in the end. */
  lemma {:induction false} FirstEntryWins(landed: Store, effects: seq<Effect>, key: DbKey)
    ensures var f := FirstTouch(effects, key);
            Lookup(Restore(landed, UndosOf(effects)), key)
            == if f < |effects| then UndoOf(effects[f]).value else Lookup(landed, key)
  {
    if effects != [] {
      assert UndosOf(effects)[1..] == UndosOf(effects[1..]);
      FirstEntryWins(landed, effects[1..], key);
    }
  }

  lemma {:induction false} OpsLeaveAlone(store: Store, ops: seq<Op>, key: DbKey)
    requires forall i :: 0 <= i < |ops| ==> ops[i].key != key
    ensures Lookup(ApplyOps(store, ops), key) == Lookup(store, key)
  {
    if ops != [] {
      OpsLeaveAlone(store, ops[..|ops| - 1], key);
    }
  }

  /** Nothing is written over an existing key, unless the block has spent that
      key first. */
  predicate OverwritesNothing(store: Store, effects: seq<Effect>) {
    forall i :: 0 <= i < |effects| && !effects[i].Spend? && effects[i].key in store
      ==> exists j :: 0 <= j < i && effects[j].Spend? && effects[j].key == effects[i].key
  }

  /** The two stores hold the same under every key of the covered families. */
  ghost predicate AgreeOnTracked(a: Store, b: Store) {
    forall key :: Tracked(key) ==> Lookup(a, key) == Lookup(b, key)
  }

  /** The batch of a block: its effects, then records outside the covered
      families. */
  predicate IsBatch(effects: seq<Effect>, records: seq<Op>, batch: seq<Op>) {
    && batch == OpsOf(effects) + records
    && forall i :: 0 <= i < |records| ==> !Tracked(records[i].key)
  }

  lemma KeyRestored(store: Store, effects: seq<Effect>, landed: Store, key: DbKey)
    requires AllWellFormed(store, effects) && OverwritesNothing(store, effects)
    requires FirstTouch(effects, key) == |effects| ==> Lookup(landed, key) == Lookup(store, key)
    ensures Lookup(Restore(landed, UndosOf(effects)), key) == Lookup(store, key)
  {
    FirstEntryWins(landed, effects, key);
    var f := FirstTouch(effects, key);
    if f < |effects| {
      assert effects[f] in effects;
    }
  }

  /** However much of the batch has landed, the rollback brings the covered
      families back exactly when the block overwrites nothing. */
  lemma RollbackRestoresIff(store: Store, effects: seq<Effect>, records: seq<Op>, batch: seq<Op>, n: nat)
    requires AllWellFormed(store, effects)
    requires IsBatch(effects, records, batch) && n <= |batch|
    ensures AgreeOnTracked(Restore(ApplyOps(store, batch[..n]), UndosOf(effects)), store)
            <==> OverwritesNothing(store, effects)
  {
    var landed := ApplyOps(store, batch[..n]);
    if OverwritesNothing(store, effects) {
      forall key | Tracked(key)
        ensures Lookup(Restore(landed, UndosOf(effects)), key) == Lookup(store, key)
      {
        if FirstTouch(effects, key) == |effects| {
          OpsLeaveAlone(store, batch[..n], key);
        }
        KeyRestored(store, effects, landed, key);
      }
    } else {
      var i :| 0 <= i < |effects| && !effects[i].Spend? && effects[i].key in store
               && !exists j :: 0 <= j < i && effects[j].Spend? && effects[j].key == effects[i].key;
      var key := effects[i].key;
      assert effects[i] in effects;
      FirstEntryWins(landed, effects, key);
      var f := FirstTouch(effects, key);
      assert !effects[f].Spend?;
      assert Tracked(key) && Lookup(Restore(landed, UndosOf(effects)), key) != Lookup(store, key);
    }
  }

  /** A record that is written over without having been spent is gone after the
      rollback, however little of the batch has landed. */
  lemma OverwrittenIsLost(store: Store, effects: seq<Effect>, landed: Store, i: nat)
    requires i < |effects| && !effects[i].Spend?
    requires forall j :: 0 <= j < i ==> !(effects[j].Spend? && effects[j].key == effects[i].key)
    ensures effects[i].key !in Restore(landed, UndosOf(effects))
  {
    FirstEntryWins(landed, effects, effects[i].key);
    assert !effects[FirstTouch(effects, effects[i].key)].Spend?;
  }

  /** A block whose coinbase has an identifier seen before: even if nothing of its
      batch landed, the rollback deletes the older coinbase's height record. */
  lemma RepeatedCoinbaseIsLost(hashes: Hashes, store: Store, coinbase: Tx, height: nat)
    requires coinbase.IsCoinbase() && CoinbaseKey(coinbase.id) in store
    ensures var effects := BlockPlan(hashes, store, [coinbase], height).effects;
            && !OverwritesNothing(store, effects)
            && CoinbaseKey(coinbase.id) !in Restore(store, UndosOf(effects))
  {
    assert [coinbase][..0] == [];
    var effects := BlockPlan(hashes, store, [coinbase], height).effects;
    var mark := Mark(CoinbaseKey(coinbase.id), HeightValue(height));
    assert BlockPlan(hashes, store, [], height) == DONE && [] + [mark] == [mark];
    assert TxPlan(hashes, store, coinbase, height) == Plan([mark], None);
    assert effects == [mark];
    OverwrittenIsLost(store, effects, store, 0);
  }

  /** Records outside the covered families stay as the landed part left them. */
  lemma RecordsStay(store: Store, effects: seq<Effect>, landed: Store, key: DbKey)
    requires AllWellFormed(store, effects) && !Tracked(key)
    ensures Lookup(Restore(landed, UndosOf(effects)), key) == Lookup(landed, key)
  {
    forall i | 0 <= i < |effects|
      ensures effects[i].key != key
    {
      assert effects[i] in effects;
    }
    FirstEntryWins(landed, effects, key);
  }
}
