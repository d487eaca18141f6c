/** Connecting one block to the ledger: the write batch, the undo log, the
    running digest of the unspent outputs and the running supply.

    The key/value store is one map whose keys carry their column family. Every
    edit a block makes is first read off as a list of effects; the batch, the
    undo log, the digest and the supply are all determined by that list. */
module Ledger {
  import opened Basics
  import opened Sums
  import opened SetDigest

  // ----- the store

  datatype DbKey =
    | OutKey(anonymous: bool, op: Outpoint)
    | KeyImageKey(image: seq<bv8>)
    | CoinbaseKey(txid: Hash)
    | AddrKey(pubkeyHash: seq<bv8>, op: Outpoint)
    | TxIndexKey(txid: Hash)
    | HeaderKey(height: nat)
    | MetaKey(name: MetaName)

  /** The single records kept beside the column families. */
  datatype MetaName = UtxoSetHash | TotalSupply | StateTotalSupply

  datatype DbValue =
    | OutValue(out: TxOut)
    | HeightValue(height: nat)
    | AmountValue(amount: nat)
    | PositionValue(height: nat, index: nat)
    | HeaderValue(header: Header)
    | DigestValue(digest: Hash)

  type Store = map<DbKey, DbValue>

  datatype Op = Put(key: DbKey, value: DbValue) | Delete(key: DbKey)

  /** The undo log says what each touched key held before. */
  datatype Undo = Undo(key: DbKey, value: Option<DbValue>)

  /** The hash functions of the node. */
  datatype Hashes = Hashes(entry: (Outpoint, TxOut) -> Hash, address: seq<bv8> -> seq<bv8>)

  function Lookup(store: Store, key: DbKey): Option<DbValue> {
    if key in store then Some(store[key]) else None
  }

  function ApplyOp(store: Store, op: Op): Store {
    match op
    case Put(key, value) => store[key := value]
    case Delete(key) => store - {key}
  }

  function ApplyOps(store: Store, ops: seq<Op>): Store {
    if ops == [] then store else ApplyOp(ApplyOps(store, ops[..|ops| - 1]), ops[|ops| - 1])
  }

  /** The unspent outputs of both families. */
  function Outs(store: Store): map<DbKey, TxOut> {
    map key | key in store && key.OutKey? && store[key].OutValue? :: store[key].out
  }

  function EntryDigest(hashes: Hashes, key: DbKey, out: TxOut): Hash {
    if key.OutKey? then hashes.entry(key.op, out) else ZERO_HASH
  }

  function Digester(hashes: Hashes): (DbKey, TxOut) -> Hash {
    (key: DbKey, out: TxOut) => EntryDigest(hashes, key, out)
  }

  ghost function SetHash(hashes: Hashes, store: Store): Hash {
    XorAll(Outs(store), Digester(hashes))
  }

  ghost function SetValue(store: Store): nat {
    MapSum(Outs(store), OutAmount)
  }

  function OutAmount(out: TxOut): nat {
    out.value
  }

  // ----- effects

  datatype Effect =
    | Spend(key: DbKey, out: TxOut)
    | Create(key: DbKey, out: TxOut)
    | Mark(key: DbKey, value: DbValue)

  function OpOf(e: Effect): Op {
    match e
    case Spend(key, _) => Delete(key)
    case Create(key, out) => Put(key, OutValue(out))
    case Mark(key, value) => Put(key, value)
  }

  function UndoOf(e: Effect): Undo {
    match e
    case Spend(key, out) => Undo(key, Some(OutValue(out)))
    case Create(key, _) => Undo(key, None)
    case Mark(key, _) => Undo(key, None)
  }

  function OpsOf(effects: seq<Effect>): (ops: seq<Op>)
    ensures |ops| == |effects|
    ensures forall i :: 0 <= i < |ops| ==> ops[i] == OpOf(effects[i])
  {
    seq(|effects|, i requires 0 <= i < |effects| => OpOf(effects[i]))
  }

  function UndosOf(effects: seq<Effect>): (undos: seq<Undo>)
    ensures |undos| == |effects|
    ensures forall i :: 0 <= i < |undos| ==> undos[i] == UndoOf(effects[i])
  {
    seq(|effects|, i requires 0 <= i < |effects| => UndoOf(effects[i]))
  }

  function HashStep(hashes: Hashes, digest: Hash, e: Effect): Hash {
    if e.Mark? then digest else Xor(digest, EntryDigest(hashes, e.key, e.out))
  }

  function HashAfter(hashes: Hashes, digest: Hash, effects: seq<Effect>): Hash {
    if effects == [] then digest
    else HashStep(hashes, HashAfter(hashes, digest, effects[..|effects| - 1]), effects[|effects| - 1])
  }

  /** The checked 64-bit supply arithmetic of one effect. */
  function SupplyStep(supply: nat, e: Effect): Option<nat> {
    match e
    case Spend(_, out) => CheckedSub(supply, out.value)
    case Create(_, out) => CheckedAdd(supply, out.value)
    case Mark(_, _) => Some(supply)
  }

  function SupplyAfter(supply: nat, effects: seq<Effect>): Option<nat> {
    if effects == [] then Some(supply)
    else match SupplyAfter(supply, effects[..|effects| - 1])
      case None => None
      case Some(s) => SupplyStep(s, effects[|effects| - 1])
  }

  // ----- what a transaction does

  /** The effects up to the first failed lookup, and that failure if any. */
  datatype Plan = Plan(effects: seq<Effect>, error: Option<ChainError>)

  function Then(first: Plan, second: Plan): Plan {
    if first.error.Some? then first else Plan(first.effects + second.effects, second.error)
  }

  const DONE: Plan := Plan([], None)

  /** One input: in an anonymous transaction its key image is recorded first;
      then the output it spends is looked up in the snapshot. */
  function InputPlan(store: Store, tx: Tx, vin: TxIn, height: nat): Plan {
    Then(if tx.anonymous then KeyImagePlan(store, vin, height) else DONE,
         SpendPlan(store, OutKey(tx.anonymous, vin.prev)))
  }

  function KeyImagePlan(store: Store, vin: TxIn, height: nat): Plan {
    if |vin.scriptSig| < 32 then Plan([], Some(InvalidScript))
    else if KeyImageKey(vin.scriptSig[..32]) in store then Plan([], Some(DoubleSpend))
    else Plan([Mark(KeyImageKey(vin.scriptSig[..32]), HeightValue(height))], None)
  }

  function SpendPlan(store: Store, key: DbKey): Plan {
    if key !in store then Plan([], Some(MissingUtxo))
    else if !store[key].OutValue? then Plan([], Some(InvalidUtxo))
    else Plan([Spend(key, store[key].out)], None)
  }

  /** The first `n` inputs. */
  function InputsPlan(store: Store, tx: Tx, n: nat, height: nat): Plan
    requires n <= |tx.inputs|
  {
    if n == 0 then DONE
    else Then(InputsPlan(store, tx, n - 1, height), InputPlan(store, tx, tx.inputs[n - 1], height))
  }

  /** One output: its entry and, for a transparent one, its address record. */
  function OutputEffects(hashes: Hashes, tx: Tx, vout: nat): seq<Effect>
    requires vout < |tx.outputs|
  {
    var out, op := tx.outputs[vout], Outpoint(tx.id, vout);
    [Create(OutKey(tx.anonymous, op), out)]
    + if tx.anonymous then [] else [Mark(AddrKey(hashes.address(out.script), op), AmountValue(out.value))]
  }

  function OutputsEffects(hashes: Hashes, tx: Tx, n: nat): seq<Effect>
    requires n <= |tx.outputs|
  {
    if n == 0 then [] else OutputsEffects(hashes, tx, n - 1) + OutputEffects(hashes, tx, n - 1)
  }

  /** A coinbase only leaves a height record: its outputs are never entered. */
  function TxPlan(hashes: Hashes, store: Store, tx: Tx, height: nat): Plan {
    if tx.IsCoinbase() then Plan([Mark(CoinbaseKey(tx.id), HeightValue(height))], None)
    else Then(InputsPlan(store, tx, |tx.inputs|, height), Plan(OutputsEffects(hashes, tx, |tx.outputs|), None))
  }

  function BlockPlan(hashes: Hashes, store: Store, txs: seq<Tx>, height: nat): Plan {
    if txs == [] then DONE
    else Then(BlockPlan(hashes, store, txs[..|txs| - 1], height), TxPlan(hashes, store, txs[|txs| - 1], height))
  }

  /** The failure of the loop, if any: supply arithmetic is checked effect by
      effect, so an overflow comes before a later failed lookup. */
  function Failure(supply: nat, plan: Plan): Option<ChainError> {
    if SupplyAfter(supply, plan.effects).None? then Some(ValueOverflow) else plan.error
  }

  lemma {:induction false} SupplyConcat(supply: nat, a: seq<Effect>, b: seq<Effect>)
    ensures SupplyAfter(supply, a + b)
            == (match SupplyAfter(supply, a) case None => None case Some(s) => SupplyAfter(s, b))
  {
    if b == [] {
      assert a + b == a;
    } else {
      var front := b[..|b| - 1];
      assert (a + b)[..|a + b| - 1] == a + front;
      SupplyConcat(supply, a, front);
    }
  }

  /** Once a plan has failed, nothing planned after it changes the failure. */
  lemma FailureIsFinal(supply: nat, first: Plan, second: Plan)
    requires Failure(supply, first).Some?
    ensures Failure(supply, Then(first, second)) == Failure(supply, first)
  {
    SupplyConcat(supply, first.effects, second.effects);
  }

  lemma {:induction false} InputsFailureIsFinal(store: Store, tx: Tx, m: nat, n: nat, height: nat,
                                                supply: nat, done: Plan)
    requires m <= n <= |tx.inputs|
    requires Failure(supply, Then(done, InputsPlan(store, tx, m, height))).Some?
    ensures Failure(supply, Then(done, InputsPlan(store, tx, n, height)))
            == Failure(supply, Then(done, InputsPlan(store, tx, m, height)))
  {
    if m < n {
      InputsFailureIsFinal(store, tx, m, n - 1, height, supply, done);
      var before, last := InputsPlan(store, tx, n - 1, height), InputPlan(store, tx, tx.inputs[n - 1], height);
      ThenAssociates(done, before, last);
      FailureIsFinal(supply, Then(done, before), last);
    }
  }

  lemma ThenAssociates(a: Plan, b: Plan, c: Plan)
    ensures Then(Then(a, b), c) == Then(a, Then(b, c))
  {
    assert (a.effects + b.effects) + c.effects == a.effects + (b.effects + c.effects);
  }

  lemma FailureOfMark(supply: nat, done: Plan, mark: Effect)
    requires mark.Mark?
    ensures Failure(supply, Then(done, Plan([mark], None))) == Failure(supply, done)
  {
    var effects := done.effects + [mark];
    assert effects[..|done.effects|] == done.effects;
  }

  lemma {:induction false} OutputsFailureIsFinal(hashes: Hashes, tx: Tx, m: nat, n: nat, supply: nat, done: Plan)
    requires m <= n <= |tx.outputs|
    requires Failure(supply, Then(done, Plan(OutputsEffects(hashes, tx, m), None))).Some?
    ensures Failure(supply, Then(done, Plan(OutputsEffects(hashes, tx, n), None)))
            == Failure(supply, Then(done, Plan(OutputsEffects(hashes, tx, m), None)))
  {
    if m < n {
      OutputsFailureIsFinal(hashes, tx, m, n - 1, supply, done);
      var before, last := Plan(OutputsEffects(hashes, tx, n - 1), None), Plan(OutputEffects(hashes, tx, n - 1), None);
      ThenAssociates(done, before, last);
      FailureIsFinal(supply, Then(done, before), last);
    }
  }

  lemma {:induction false} BlockFailureIsFinal(hashes: Hashes, store: Store, txs: seq<Tx>, n: nat, height: nat,
                                               supply: nat)
    requires n <= |txs|
    requires Failure(supply, BlockPlan(hashes, store, txs[..n], height)).Some?
    ensures Failure(supply, BlockPlan(hashes, store, txs, height))
            == Failure(supply, BlockPlan(hashes, store, txs[..n], height))
  {
    if n < |txs| {
      var front := txs[..|txs| - 1];
      assert front[..n] == txs[..n];
      BlockFailureIsFinal(hashes, store, front, n, height, supply);
      FailureIsFinal(supply, BlockPlan(hashes, store, front, height), TxPlan(hashes, store, txs[|txs| - 1], height));
    } else {
      assert txs[..n] == txs;
    }
  }

  // ----- the loop as it runs

  /** Where the accumulators start. */
  datatype Start = Start(hashes: Hashes, digest: Hash, supply: nat)

  /** The accumulators that the connect loop updates in place. */
  class Pending {
    var batch: seq<Op>
    var undo: seq<Undo>
    const setHash: array<bv8>
    var supply: nat

    constructor (digest: Hash, supply: nat)
      ensures fresh(setHash) && setHash.Length == 32
      ensures batch == [] && undo == [] && setHash[..] == digest && this.supply == supply
    {
      batch, undo := [], [];
      setHash := new bv8[32](i requires 0 <= i < 32 => digest[i]);
      this.supply := supply;
    }

    /** The accumulators hold what `plan` makes of the start. */
    ghost predicate Holds(start: Start, plan: Plan)
      reads this, setHash
    {
      && setHash.Length == 32
      && plan.error.None?
      && batch == OpsOf(plan.effects)
      && undo == UndosOf(plan.effects)
      && setHash[..] == HashAfter(start.hashes, start.digest, plan.effects)
      && Some(supply) == SupplyAfter(start.supply, plan.effects)
    }

    /** Carries out one effect; fails if the supply leaves the 64-bit range. */
    method Perform(hashes: Hashes, e: Effect, ghost start: Start, ghost done: Plan)
      returns (failure: Option<ChainError>)
      requires hashes == start.hashes && Holds(start, done)
      modifies this, setHash
      ensures failure == Failure(start.supply, Then(done, Plan([e], None)))
      ensures failure.None? ==> Holds(start, Then(done, Plan([e], None)))
    {
      ghost var effects := done.effects + [e];
      assert effects[..|done.effects|] == done.effects;
      if !e.Mark? {
        XorInto(setHash, EntryDigest(hashes, e.key, e.out));
      }
      var next := SupplyStep(supply, e);
      if next.None? {
        return Some(ValueOverflow);
      }
      supply := next.value;
      undo := undo + [UndoOf(e)];
      batch := batch + [OpOf(e)];
      assert undo == UndosOf(effects);
      assert batch == OpsOf(effects);
      return None;
    }

    method ConnectInput(hashes: Hashes, store: Store, tx: Tx, vin: TxIn, height: nat,
                        ghost start: Start, ghost done: Plan)
      returns (failure: Option<ChainError>)
      requires hashes == start.hashes && Holds(start, done)
      modifies this, setHash
      ensures failure == Failure(start.supply, Then(done, InputPlan(store, tx, vin, height)))
      ensures failure.None? ==> Holds(start, Then(done, InputPlan(store, tx, vin, height)))
    {
      ghost var first := if tx.anonymous then KeyImagePlan(store, vin, height) else DONE;
      assert done.effects + [] == done.effects;
      var key := OutKey(tx.anonymous, vin.prev);
      ThenAssociates(done, first, SpendPlan(store, key));
      if tx.anonymous {
        if |vin.scriptSig| < 32 {
          return Some(InvalidScript);
        }
        var image := KeyImageKey(vin.scriptSig[..32]);
        if image in store {
          return Some(DoubleSpend);
        }
        failure := Perform(hashes, Mark(image, HeightValue(height)), start, done);
        assert failure.None?;
      } else {
        assert Then(done, DONE) == done;
      }
      if key !in store {
        return Some(MissingUtxo);
      }
      if !store[key].OutValue? {
        return Some(InvalidUtxo);
      }
      failure := Perform(hashes, Spend(key, store[key].out), start, Then(done, first));
    }

    method ConnectOutput(hashes: Hashes, tx: Tx, vout: nat, ghost start: Start, ghost done: Plan)
      returns (failure: Option<ChainError>)
      requires hashes == start.hashes && Holds(start, done) && vout < |tx.outputs|
      modifies this, setHash
      ensures failure == Failure(start.supply, Then(done, Plan(OutputEffects(hashes, tx, vout), None)))
      ensures failure.None? ==> Holds(start, Then(done, Plan(OutputEffects(hashes, tx, vout), None)))
    {
      hide OpsOf, UndosOf, HashAfter, SupplyAfter, Failure;
      var out, op := tx.outputs[vout], Outpoint(tx.id, vout);
      var create := Create(OutKey(tx.anonymous, op), out);
      var mark := Mark(AddrKey(hashes.address(out.script), op), AmountValue(out.value));
      ThenAssociates(done, Plan([create], None), Plan([mark], None));
      failure := Perform(hashes, create, start, done);
      if tx.anonymous {
        assert [create] + [] == [create];
        return;
      }
      FailureOfMark(start.supply, Then(done, Plan([create], None)), mark);
      if failure.Some? {
        return;
      }
      failure := Perform(hashes, mark, start, Then(done, Plan([create], None)));
    }

    method ConnectInputs(hashes: Hashes, store: Store, tx: Tx, height: nat, ghost start: Start, ghost done: Plan)
      returns (failure: Option<ChainError>)
      requires hashes == start.hashes && Holds(start, done)
      modifies this, setHash
      ensures failure == Failure(start.supply, Then(done, InputsPlan(store, tx, |tx.inputs|, height)))
      ensures failure.None? ==> Holds(start, Then(done, InputsPlan(store, tx, |tx.inputs|, height)))
    {
      hide InputPlan, OpsOf, UndosOf, HashAfter, SupplyAfter;
      assert done.effects + [] == done.effects;
      for i := 0 to |tx.inputs|
        invariant Holds(start, Then(done, InputsPlan(store, tx, i, height)))
      {
        ghost var before := InputsPlan(store, tx, i, height);
        ThenAssociates(done, before, InputPlan(store, tx, tx.inputs[i], height));
        failure := ConnectInput(hashes, store, tx, tx.inputs[i], height, start, Then(done, before));
        if failure.Some? {
          InputsFailureIsFinal(store, tx, i + 1, |tx.inputs|, height, start.supply, done);
          return;
        }
      }
      return None;
    }

    method ConnectOutputs(hashes: Hashes, tx: Tx, ghost start: Start, ghost done: Plan)
      returns (failure: Option<ChainError>)
      requires hashes == start.hashes && Holds(start, done)
      modifies this, setHash
      ensures failure == Failure(start.supply, Then(done, Plan(OutputsEffects(hashes, tx, |tx.outputs|), None)))
      ensures failure.None? ==> Holds(start, Then(done, Plan(OutputsEffects(hashes, tx, |tx.outputs|), None)))
    {
      hide OutputEffects, OpsOf, UndosOf, HashAfter, SupplyAfter;
      assert done.effects + [] == done.effects;
      for vout := 0 to |tx.outputs|
        invariant Holds(start, Then(done, Plan(OutputsEffects(hashes, tx, vout), None)))
      {
        ghost var before := Plan(OutputsEffects(hashes, tx, vout), None);
        ghost var next := Plan(OutputEffects(hashes, tx, vout), None);
        ThenAssociates(done, before, next);
        failure := ConnectOutput(hashes, tx, vout, start, Then(done, before));
        if failure.Some? {
          OutputsFailureIsFinal(hashes, tx, vout + 1, |tx.outputs|, start.supply, done);
          return;
        }
      }
      return None;
    }

    /** One transaction: either it fails exactly as its plan does, or the
        accumulators hold its plan on top of what they held. */
    method ConnectTx(hashes: Hashes, store: Store, tx: Tx, height: nat, ghost start: Start, ghost done: Plan)
      returns (failure: Option<ChainError>)
      requires hashes == start.hashes && Holds(start, done)
      modifies this, setHash
      ensures failure == Failure(start.supply, Then(done, TxPlan(hashes, store, tx, height)))
      ensures failure.None? ==> Holds(start, Then(done, TxPlan(hashes, store, tx, height)))
    {
      if tx.IsCoinbase() {
        failure := Perform(hashes, Mark(CoinbaseKey(tx.id), HeightValue(height)), start, done);
        return;
      }
      hide InputsPlan, OutputsEffects, OpsOf, UndosOf, HashAfter, SupplyAfter;
      ghost var inputs := InputsPlan(store, tx, |tx.inputs|, height);
      ghost var outputs := Plan(OutputsEffects(hashes, tx, |tx.outputs|), None);
      ThenAssociates(done, inputs, outputs);
      failure := ConnectInputs(hashes, store, tx, height, start, done);
      if failure.Some? {
        FailureIsFinal(start.supply, Then(done, inputs), outputs);
        return;
      }
      failure := ConnectOutputs(hashes, tx, start, Then(done, inputs));
    }

    /** The whole block, from fresh accumulators. */
    method ConnectBlock(hashes: Hashes, store: Store, txs: seq<Tx>, height: nat, ghost start: Start)
      returns (failure: Option<ChainError>)
      requires hashes == start.hashes && Holds(start, DONE)
      modifies this, setHash
      ensures failure == Failure(start.supply, BlockPlan(hashes, store, txs, height))
      ensures failure.None? ==> Holds(start, BlockPlan(hashes, store, txs, height))
    {
      hide TxPlan, OpsOf, UndosOf, HashAfter, SupplyAfter;
      for i := 0 to |txs|
        invariant Holds(start, BlockPlan(hashes, store, txs[..i], height))
      {
        assert txs[..i + 1][..i] == txs[..i];
        failure := ConnectTx(hashes, store, txs[i], height, start, BlockPlan(hashes, store, txs[..i], height));
        if failure.Some? {
          BlockFailureIsFinal(hashes, store, txs, i + 1, height, start.supply);
          return;
        }
      }
      assert txs[..|txs|] == txs;
      return None;
    }
  }
}
