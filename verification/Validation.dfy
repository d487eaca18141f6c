/** The value rules a block must pass before it is connected. Proofs of
    anonymous spends are foreign cryptography: `proofsOk` stands for them. */
module Validation {
  import opened Basics
  import opened Emission
  import opened Ledger

  const COINBASE_MATURITY: nat := 100
  const MIN_FEE_PER_BYTE: nat := 10
  const MAX_BLOCK_SIZE: nat := 4_000_000

  // ----- one transaction

  predicate Unlocked(tx: Tx, bestHeight: nat) {
    tx.lockTime <= bestHeight || forall i :: 0 <= i < |tx.inputs| ==> tx.inputs[i].sequence == U32_BOUND - 1
  }

  predicate DistinctInputs(tx: Tx) {
    forall i, j :: 0 <= i < j < |tx.inputs| ==> tx.inputs[i].prev != tx.inputs[j].prev
  }

  /** The transaction an input refers to is not a coinbase that is too young. */
  predicate Mature(store: Store, vin: TxIn, height: nat) {
    var key := CoinbaseKey(vin.prev.txid);
    key in store ==> store[key].HeightValue? && height - store[key].height >= COINBASE_MATURITY
  }

  /** The output an input refers to, in the given family. */
  predicate Present(store: Store, key: DbKey) {
    key in store && store[key].OutValue?
  }

  /** The sum of the first `n` inputs; a missing output counts nothing. */
  function InputSum(store: Store, tx: Tx, n: nat): nat
    requires n <= |tx.inputs|
  {
    if n == 0 then 0 else
      var key := OutKey(tx.anonymous, tx.inputs[n - 1].prev);
      InputSum(store, tx, n - 1) + if Present(store, key) then store[key].out.value else 0
  }

  function OutputSum(tx: Tx, n: nat): nat
    requires n <= |tx.outputs|
  {
    if n == 0 then 0 else OutputSum(tx, n - 1) + tx.outputs[n - 1].value
  }

  function RequiredFee(tx: Tx): nat {
    if tx.anonymous then (tx.size * MIN_FEE_PER_BYTE * 3 + 1) / 2 % U64_BOUND else tx.size * MIN_FEE_PER_BYTE
  }

  /** What the fee check sees as the input sum: the anonymous branch never adds
      to it. */
  function CountedInputs(store: Store, tx: Tx): nat {
    if tx.anonymous then 0 else InputSum(store, tx, |tx.inputs|)
  }

  ghost predicate ValidTx(store: Store, tx: Tx, height: nat, bestHeight: nat, proofsOk: Tx -> bool) {
    tx.IsCoinbase() || (
      && Unlocked(tx, bestHeight)
      && DistinctInputs(tx)
      && (forall i :: 0 <= i < |tx.inputs| ==> Mature(store, tx.inputs[i], height))
      && (if tx.anonymous then proofsOk(tx) else
            forall i :: 0 <= i < |tx.inputs| ==> Present(store, OutKey(false, tx.inputs[i].prev)))
      && CountedInputs(store, tx) < U64_BOUND
      && OutputSum(tx, |tx.outputs|) <= CountedInputs(store, tx)
      && RequiredFee(tx) < U64_BOUND
      && CountedInputs(store, tx) - OutputSum(tx, |tx.outputs|) >= RequiredFee(tx))
  }

  // ----- which error is reported: that of the first check that fails

  /** An earlier input refers to the same output. */
  predicate Repeats(tx: Tx, i: nat)
    requires i < |tx.inputs|
  {
    exists j :: 0 <= j < i && tx.inputs[j].prev == tx.inputs[i].prev
  }

  predicate GoodInput(store: Store, tx: Tx, height: nat, i: nat)
    requires i < |tx.inputs|
  {
    !Repeats(tx, i) && Mature(store, tx.inputs[i], height)
  }

  /** Input `i` is the first bad one, and `e` says why. */
  predicate InputFails(store: Store, tx: Tx, height: nat, i: nat, e: ChainError) {
    && i < |tx.inputs| && (forall j :: 0 <= j < i ==> GoodInput(store, tx, height, j))
    && !GoodInput(store, tx, height, i)
    && e == if Repeats(tx, i) then DoubleSpend else CoinbaseImmature
  }

  /** Input `i` is the first that is missing or lets the sum overflow. */
  predicate SumFails(store: Store, tx: Tx, i: nat, e: ChainError) {
    && i < |tx.inputs| && InputSum(store, tx, i) < U64_BOUND
    && (forall j :: 0 <= j < i ==> Present(store, OutKey(false, tx.inputs[j].prev)))
    && var key := OutKey(false, tx.inputs[i].prev);
       if key !in store then e == MissingUtxo
       else if !store[key].OutValue? then e == InvalidUtxo
       else InputSum(store, tx, i + 1) >= U64_BOUND && e == ValueOverflow
  }

  /** The checks after the inputs are known to be good, in order. */
  ghost predicate ValuesFail(store: Store, tx: Tx, proofsOk: Tx -> bool, e: ChainError) {
    var ins, outs := CountedInputs(store, tx), OutputSum(tx, |tx.outputs|);
    if !tx.anonymous && exists i, x :: SumFails(store, tx, i, x) then exists i :: SumFails(store, tx, i, e)
    else if tx.anonymous && !proofsOk(tx) then e == InvalidScript
    else if outs >= U64_BOUND then e == ValueOverflow
    else if outs > ins then e == OutputsExceedInputs
    else if RequiredFee(tx) >= U64_BOUND then e == ValueOverflow
    else ins - outs < RequiredFee(tx) && e == InsufficientFee
  }

  ghost predicate TxFails(store: Store, tx: Tx, height: nat, bestHeight: nat, proofsOk: Tx -> bool, e: ChainError) {
    && !tx.IsCoinbase()
    && if !Unlocked(tx, bestHeight) then e == InvalidLockTime
       else if exists i, x :: InputFails(store, tx, height, i, x) then exists i :: InputFails(store, tx, height, i, e)
       else ValuesFail(store, tx, proofsOk, e)
  }

  method CheckInputs(store: Store, tx: Tx, height: nat) returns (failure: Option<ChainError>)
    ensures failure.None? <==> DistinctInputs(tx)
                               && forall i :: 0 <= i < |tx.inputs| ==> Mature(store, tx.inputs[i], height)
    ensures failure.Some? ==> exists i :: InputFails(store, tx, height, i, failure.value)
    ensures failure.None? ==> forall i, x :: !InputFails(store, tx, height, i, x)
  {
    var seen: set<Outpoint> := {};
    for i := 0 to |tx.inputs|
      invariant forall j :: 0 <= j < i ==> tx.inputs[j].prev in seen
      invariant forall op :: op in seen ==> exists j :: 0 <= j < i && tx.inputs[j].prev == op
      invariant forall j, k :: 0 <= j < k < i ==> tx.inputs[j].prev != tx.inputs[k].prev
      invariant forall j :: 0 <= j < i ==> Mature(store, tx.inputs[j], height)
    {
      var vin := tx.inputs[i];
      if vin.prev in seen {
        assert InputFails(store, tx, height, i, DoubleSpend);
        return Some(DoubleSpend);
      }
      seen := seen + {vin.prev};
      var key := CoinbaseKey(vin.prev.txid);
      if key in store && (!store[key].HeightValue? || height - store[key].height < COINBASE_MATURITY) {
        assert !Mature(store, tx.inputs[i], height);
        assert InputFails(store, tx, height, i, CoinbaseImmature);
        return Some(CoinbaseImmature);
      }
    }
    return None;
  }

  /** The checked sum of a transparent transaction's inputs. */
  method SumInputs(store: Store, tx: Tx) returns (r: Result<nat>)
    requires !tx.anonymous
    ensures r.Ok? <==> (forall i :: 0 <= i < |tx.inputs| ==> Present(store, OutKey(false, tx.inputs[i].prev)))
                       && InputSum(store, tx, |tx.inputs|) < U64_BOUND
    ensures r.Ok? ==> r.value == InputSum(store, tx, |tx.inputs|)
    ensures r.Err? ==> exists i :: SumFails(store, tx, i, r.error)
    ensures r.Ok? ==> forall i, x :: !SumFails(store, tx, i, x)
  {
    var sum := 0;
    for i := 0 to |tx.inputs|
      invariant forall j, x :: 0 <= j < i ==> !SumFails(store, tx, j, x)
      invariant forall j :: 0 <= j < i ==> Present(store, OutKey(false, tx.inputs[j].prev))
      invariant sum == InputSum(store, tx, i) < U64_BOUND
    {
      var key := OutKey(false, tx.inputs[i].prev);
      if key !in store {
        assert SumFails(store, tx, i, MissingUtxo);
        return Err(MissingUtxo);
      }
      if !store[key].OutValue? {
        assert SumFails(store, tx, i, InvalidUtxo);
        return Err(InvalidUtxo);
      }
      var next := CheckedAdd(sum, store[key].out.value);
      if next.None? {
        InputSumMonotone(store, tx, i + 1, |tx.inputs|);
        assert SumFails(store, tx, i, ValueOverflow);
        return Err(ValueOverflow);
      }
      sum := next.value;
    }
    return Ok(sum);
  }

  method SumOutputs(tx: Tx) returns (r: Result<nat>)
    ensures r == if OutputSum(tx, |tx.outputs|) < U64_BOUND then Ok(OutputSum(tx, |tx.outputs|)) else Err(ValueOverflow)
  {
    var sum := 0;
    for i := 0 to |tx.outputs|
      invariant sum == OutputSum(tx, i) < U64_BOUND
    {
      var next := CheckedAdd(sum, tx.outputs[i].value);
      if next.None? {
        OutputSumMonotone(tx, i + 1, |tx.outputs|);
        return Err(ValueOverflow);
      }
      sum := next.value;
    }
    return Ok(sum);
  }

  lemma {:induction false} InputSumMonotone(store: Store, tx: Tx, m: nat, n: nat)
    requires m <= n <= |tx.inputs|
    ensures InputSum(store, tx, m) <= InputSum(store, tx, n)
  {
    if m < n {
      InputSumMonotone(store, tx, m, n - 1);
    }
  }

  lemma {:induction false} OutputSumMonotone(tx: Tx, m: nat, n: nat)
    requires m <= n <= |tx.outputs|
    ensures OutputSum(tx, m) <= OutputSum(tx, n)
  {
    if m < n {
      OutputSumMonotone(tx, m, n - 1);
    }
  }

  /** Accepts exactly the valid transactions, and reports the first check that
      fails for any other. */
  method ValidateTransaction(store: Store, tx: Tx, height: nat, bestHeight: nat, proofsOk: Tx -> bool)
    returns (failure: Option<ChainError>)
    ensures failure.None? <==> ValidTx(store, tx, height, bestHeight, proofsOk)
    ensures failure.Some? ==> TxFails(store, tx, height, bestHeight, proofsOk, failure.value)
  {
    hide InputFails, SumFails, InputSum, OutputSum, Mature;
    if tx.IsCoinbase() {
      return None;
    }
    if tx.lockTime > bestHeight && exists i :: 0 <= i < |tx.inputs| && tx.inputs[i].sequence != U32_BOUND - 1 {
      return Some(InvalidLockTime);
    }
    failure := CheckInputs(store, tx, height);
    if failure.Some? {
      return;
    }
    var inputSum := 0;
    if !tx.anonymous {
      var sum := SumInputs(store, tx);
      if sum.Err? {
        return Some(sum.error);
      }
      inputSum := sum.value;
    }
    if tx.anonymous && !proofsOk(tx) {
      return Some(InvalidScript);
    }
    var outputs := SumOutputs(tx);
    if outputs.Err? {
      return Some(outputs.error);
    }
    if outputs.value > inputSum {
      return Some(OutputsExceedInputs);
    }
    var fee := inputSum - outputs.value;
    var required := RequiredFee(tx);
    if required >= U64_BOUND {
      return Some(ValueOverflow);
    }
    if fee < required {
      return Some(InsufficientFee);
    }
    return None;
  }

  /** A lock ends at its height and never comes back: with an input that is not final,
      a transaction is refused for its lock exactly below the height it names. */
  lemma LockEnds(store: Store, tx: Tx, height: nat, bestHeight: nat, proofsOk: Tx -> bool, i: nat)
    requires !tx.IsCoinbase() && i < |tx.inputs| && tx.inputs[i].sequence != 0xffff_ffff
    ensures bestHeight < tx.lockTime <==> TxFails(store, tx, height, bestHeight, proofsOk, InvalidLockTime)
    ensures bestHeight < tx.lockTime ==> !ValidTx(store, tx, height, bestHeight, proofsOk)
  {
    hide InputSum, OutputSum, Mature;
  }

  /** A transaction whose inputs are all final has no lock. */
  lemma FinalHasNoLock(store: Store, tx: Tx, height: nat, bestHeight: nat, proofsOk: Tx -> bool)
    requires forall i :: 0 <= i < |tx.inputs| ==> tx.inputs[i].sequence == 0xffff_ffff
    ensures !TxFails(store, tx, height, bestHeight, proofsOk, InvalidLockTime)
  {
    hide InputSum, OutputSum, Mature;
  }

  /** An anonymous transaction owes half as much again, rounded up. */
  lemma AnonymousOwesMore(tx: Tx)
    requires tx.size <= MAX_BLOCK_SIZE
    ensures tx.anonymous ==> 2 * RequiredFee(tx) == 30 * tx.size
    ensures !tx.anonymous ==> RequiredFee(tx) == 10 * tx.size
  {
  }

  /** As written, no anonymous spend is ever accepted. */
  lemma AnonymousNeverValid(store: Store, tx: Tx, height: nat, bestHeight: nat, proofsOk: Tx -> bool)
    requires !tx.IsCoinbase() && 0 < tx.size <= MAX_BLOCK_SIZE
    ensures ValidTx(store, tx, height, bestHeight, proofsOk) ==> !tx.anonymous
  {
  }

  // ----- one block

  /** The fee of a transaction against the outputs collected for the block:
      zero if a sum overflows or the outputs exceed the inputs. */
  function Fee(store: Store, tx: Tx): nat {
    var ins, outs := InputSum(store, tx, |tx.inputs|), OutputSum(tx, |tx.outputs|);
    if ins >= U64_BOUND || outs >= U64_BOUND || ins < outs then 0 else ins - outs
  }

  /** The fees of `txs[1..n]`. */
  function TotalFees(store: Store, txs: seq<Tx>, n: nat): nat
    requires n <= |txs|
  {
    if n <= 1 then 0 else TotalFees(store, txs, n - 1) + Fee(store, txs[n - 1])
  }

  ghost predicate ValidBlock(store: Store, txs: seq<Tx>, height: nat, bestHeight: nat, proofsOk: Tx -> bool) {
    && txs != []
    && txs[0].IsCoinbase()
    && (forall i :: 1 <= i < |txs| ==> ValidTx(store, txs[i], height, bestHeight, proofsOk))
    && TotalFees(store, txs, |txs|) + Subsidy(height) < U64_BOUND
    && txs[0].outputs != []
    && txs[0].outputs[0].value == TotalFees(store, txs, |txs|) + Subsidy(height)
  }

  /** Transaction `i` is the first invalid one, and `e` says why. */
  ghost predicate FirstInvalid(store: Store, txs: seq<Tx>, height: nat, bestHeight: nat, proofsOk: Tx -> bool,
                               i: nat, e: ChainError) {
    && 1 <= i < |txs| && !ValidTx(store, txs[i], height, bestHeight, proofsOk)
    && (forall j :: 1 <= j < i ==> ValidTx(store, txs[j], height, bestHeight, proofsOk))
    && TxFails(store, txs[i], height, bestHeight, proofsOk, e)
  }

  ghost predicate BlockFails(store: Store, txs: seq<Tx>, height: nat, bestHeight: nat, proofsOk: Tx -> bool,
                             e: ChainError) {
    if txs == [] || !txs[0].IsCoinbase() then e == NoCoinbase
    else if forall i :: 1 <= i < |txs| ==> ValidTx(store, txs[i], height, bestHeight, proofsOk)
    then e == InvalidCoinbaseFee
    else exists i :: FirstInvalid(store, txs, height, bestHeight, proofsOk, i, e)
  }

  /** Accepts exactly the blocks whose transactions are valid and whose coinbase
      pays out the subsidy and the fees, and reports the first check that fails for
      any other. */
  method ValidateBlock(store: Store, txs: seq<Tx>, height: nat, bestHeight: nat, proofsOk: Tx -> bool)
    returns (failure: Option<ChainError>)
    ensures failure.None? <==> ValidBlock(store, txs, height, bestHeight, proofsOk)
    ensures failure.Some? ==> BlockFails(store, txs, height, bestHeight, proofsOk, failure.value)
  {
    hide ValidTx, TxFails, Fee, Subsidy;
    if |txs| == 0 || !txs[0].IsCoinbase() {
      return Some(NoCoinbase);
    }
    for i := 1 to |txs|
      invariant forall j :: 1 <= j < i ==> ValidTx(store, txs[j], height, bestHeight, proofsOk)
    {
      failure := ValidateTransaction(store, txs[i], height, bestHeight, proofsOk);
      if failure.Some? {
        assert FirstInvalid(store, txs, height, bestHeight, proofsOk, i, failure.value);
        return;
      }
    }
    var fees := 0;
    for i := 1 to |txs|
      invariant fees == TotalFees(store, txs, i) < U64_BOUND
    {
      var sum := CheckedAdd(fees, Fee(store, txs[i]));
      if sum.None? {
        TotalFeesMonotone(store, txs, i + 1, |txs|);
        return Some(InvalidCoinbaseFee);
      }
      fees := sum.value;
    }
    var expected := CheckedAdd(fees, Subsidy(height));
    if expected.None? || |txs[0].outputs| == 0 || txs[0].outputs[0].value != expected.value {
      return Some(InvalidCoinbaseFee);
    }
    return None;
  }

  lemma {:induction false} TotalFeesMonotone(store: Store, txs: seq<Tx>, m: nat, n: nat)
    requires m <= n <= |txs|
    ensures TotalFees(store, txs, m) <= TotalFees(store, txs, n)
  {
    if m < n {
      TotalFeesMonotone(store, txs, m, n - 1);
    }
  }
}
