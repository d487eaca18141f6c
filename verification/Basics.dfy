/** Types and constants shared by every component of the node. */
module Basics {

  datatype Option<+T> = None | Some(value: T)

  datatype Result<+T> = Ok(value: T) | Err(error: ChainError)

  /** The error kinds the modelled operations report. */
  datatype ChainError =
    | CoinbaseImmature
    | DiscontinuousHeaders
    | DoubleSpend
    | DependencyCycle
    | BatchPending
    | ExponentTooLarge
    | InsufficientFee
    | InsufficientFunds
    | InvalidCoinbaseFee
    | InvalidLockTime
    | InvalidScript
    | InvalidSize
    | InvalidUtxo
    | MissingBlock
    | MissingUtxo
    | NoCoinbase
    | OutputsExceedInputs
    | PackageDepthExceeded
    | PackageSizeExceeded
    | TooShort
    | ReadOnlyMode
    | SupplyMismatch
    | ValueOverflow
    | WorkMismatch
    | WriteError

  const U32_BOUND := 0x1_0000_0000
  const U64_BOUND := 0x1_0000_0000_0000_0000

  /** A 32-byte digest. */
  type Hash = s: seq<bv8> | |s| == 32 witness seq(32, _ => 0)

  const ZERO_HASH: Hash := [
    0, 0, 0, 0, 0, 0, 0, 0, 0, 0, 0, 0, 0, 0, 0, 0,
    0, 0, 0, 0, 0, 0, 0, 0, 0, 0, 0, 0, 0, 0, 0, 0]

  datatype Header = Header(
    prevHash: Hash,
    merkleRoot: Hash,
    timestamp: nat,
    bits: nat,
    nonce: nat
  )

  type U64 = x: int | 0 <= x < U64_BOUND

  datatype Outpoint = Outpoint(txid: Hash, vout: nat)

  datatype TxIn = TxIn(prev: Outpoint, scriptSig: seq<bv8>, sequence: nat)

  datatype TxOut = TxOut(value: U64, script: seq<bv8>, commitment: Option<seq<bv8>>)

  /** A transaction. `id` is the double SHA-256 of its serialization and `size`
      the length of that serialization. */
  datatype Tx = Tx(
    id: Hash,
    anonymous: bool,
    inputs: seq<TxIn>,
    outputs: seq<TxOut>,
    lockTime: nat,
    size: nat
  ) {
    predicate IsCoinbase() {
      |inputs| == 1 && inputs[0].prev == NULL_OUTPOINT
    }
  }

  datatype Block = Block(header: Header, txs: seq<Tx>)

  /** What a coinbase input refers to. */
  const NULL_OUTPOINT: Outpoint := Outpoint(ZERO_HASH, U32_BOUND - 1)

  function Min(a: int, b: int): int {
    if a <= b then a else b
  }

  function Max(a: int, b: int): int {
    if a <= b then b else a
  }

  /** `u64::checked_add`. */
  function CheckedAdd(a: nat, b: nat): Option<nat> {
    if a + b < U64_BOUND then Some(a + b) else None
  }

  /** `u64::checked_sub`. */
  function CheckedSub(a: nat, b: nat): Option<nat> {
    if b <= a then Some(a - b) else None
  }
}
