# A model of a UTXO node

This project models the state-changing core of a proof-of-work node written in
Rust (`111/src`) and proves what its parts keep, undo and compute. Each module
follows one part of the node:

| file | part of the node |
|---|---|
| `Basics.dfy` | blocks, transactions, errors, 64-bit checks |
| `Compact.dfy` | the 32-bit encoding of a proof-of-work target |
| `MedianTime.dfy` | the median of the last eleven timestamps, in memory and in the database |
| `Retarget.dfy` | the bits rule, retargeting, and the work of a block |
| `Emission.dfy` | the subsidy schedule and the sums over it |
| `Merkle.dfy` | the Merkle loop against a recursive tree |
| `Sums.dfy`, `SetDigest.dfy` | order-independent sums and XOR digests of a finite map |
| `Ledger.dfy`, `LedgerInvariants.dfy` | connecting a block: batch, rollback log, incremental digest and supply |
| `Rollback.dfy` | undoing a batch that landed in part |
| `Validation.dfy`, `Conservation.dfy` | the value rules for transactions and blocks, and what they conserve |
| `LedgerRuns.dfy` | whole runs of connected blocks |
| `LedgerEntries.dfy` | which records a connected block leaves, and how long they live |
| `ChainIndex.dfy` | the block indexes in memory and in the database, and what loading rebuilds |
| `NodeRuns.dfy` | the node as one object: connecting, saving, restarting, and the supply checks of a restart |
| `Journal.dfy` | the reorganization journal under failures, crashes and restarts |
| `Dependencies.dfy`, `Mempool.dfy` | the dependency walk, the pool and its indexes, cascading removal |
| `HashOrder.dfy`, `Packages.dfy`, `Selection.dfy` | choosing packages of pooled transactions for a block |
| `Wallet.dfy` | coin selection, fee iteration and change |
| `HeaderSync.dfy` | requesting, serving and receiving headers |

Conventions. Code that updates variables step by step is a method with a loop,
and objects that are updated in place are classes; each is proved against a
function or predicate on values, and the laws are lemmas about those. Hash
functions are parameters of function type, and are injective only where a lemma
says so. A transaction carries its own identifier and size. Iteration over a hash
map or set may go in any order. Unchecked machine arithmetic wraps around, as it
does in a release build. Time, network input, cryptographic verdicts and the
order in which the eviction heap is emptied are parameters.

Where a promise does not hold for the code as written, the code is modelled as it
is, one member shows a failing case at inputs the code can meet, and another says
exactly when the promise holds:

- the encoding of targets: `GenesisBitsNotCanonical` and `MaxTargetEncodes` (the
  assertions at `111/src/chain.rs:1047` and `111/src/chain.rs:1049` do not describe
  the code), `ReencodeIffCanonical`;
- the fourfold ceiling of a retarget: `CeilingBreaks`, `CeilingBrokenIff`;
- that a slower interval never makes the target smaller: `FasterIsEasier`, `SlowerIsEasierIff`;
- the rollback: `RepeatedCoinbaseIsLost`, `RollbackRestoresIff`;
- the incremental digest: `DoubleSpendDrifts`, `StepKeepsDigestIff`;
- the restart: `NoRestartAfterConnect`, `RestartPassesIff`;
- the recovery of reorganizations: `SecondReorgIsLost`, `FirstReorgAfterRefusalIsLost` and
  `FailedReorgComesBack`, `StaleAfterUp`, `WrittenOnceIff`, `SamePlan`;
- the reach of a cascading removal: `StaleListingSweeps`, `PreciseIffExact`;
- the order inside a package: `AlwaysOrderedIff`, `WalkPackage`;
- the arithmetic of payments: `PaysMoreThanItHas` with `GivenAwayIff`,
  `FeeFallsBelowEstimate` with `FeeCoversEstimateIff`, `ThreeWhereTwoSuffice` with
  `FewestCoinsIff`;
- the stop hash of a header request: `StopIsReadIff`.

## Model

| member | source | states |
|---|---|---|
| Compact.CompactToTarget | 111/src/utils.rs:165-179 | the shift-by-shift conversion computes the decoding, with the error for exponents above 80 |
| Compact.TargetToCompact | 111/src/utils.rs:180-201 | the result fits 32 bits and, for every target of at most 80 bytes, decodes to the target cut to its leading bytes |
| Compact.Mantissa | 111/src/utils.rs:185-192 | the capped and shifted mantissa, short and long targets alike |
| Compact.DecodeEncode | 111/src/utils.rs:165-201 | decoding after encoding is exactly truncation to three leading bytes capped below the sign bit |
| Compact.RoundTripLoss | 111/src/utils.rs:165-201 | for all 0 < t < 2^640 a round trip never raises t, keeps more than 32767/65536 of it, and is a fixed point of the next one |
| Compact.RoundTripMonotone | 111/src/utils.rs:165-201 | the round trip is monotone |
| Compact.ReencodeIffCanonical | 111/src/utils.rs:165-201 | encoding after decoding gives the bits back if and only if they are canonical; the canonical ones include exponents 3 to 80 with mantissas 0x010000 to 0x7fffff |
| Compact.EncodeCanonical | 111/src/utils.rs:180-201 | every encoding of a representable target is canonical |
| Compact.CappedMantissa | 111/src/utils.rs:190-198 | any target 0xffff shifted by whole bytes loses its low bits, because the mantissa is capped before the sign bit is looked at |
| Compact.GenesisBitsNotCanonical | 111/src/chain.rs:1046-1047 | 0x1d00ffff decodes as promised but re-encodes to 0x1c7fffff |
| Compact.PowerEncodes | 111/src/utils.rs:180-201 | every power of 256 from three bytes on has an encoding of its own |
| Compact.MaxTargetEncodes | 111/src/chain.rs:1048-1049 | 2^256 encodes to 0x21010000, not to the genesis bits |
| MedianTime.MedianReaches | 111/src/chain.rs:1031-1032 | the sorted middle element reaches m exactly when at least half of the window does |
| MedianTime.MedianOfReverse | 111/src/chain.rs:1019-1032 | reading the window from either end gives the same median |
| MedianTime.MedianStep | 111/src/chain.rs:979-983 | a timestamp above the median of a window never lowers the next median, full window or not |
| MedianTime.MedianNeverDecreases | 111/src/chain.rs:979-983 | on every chain whose timestamps exceed the preceding medians, the medians never decrease |
| MedianTime.PushKeepsWindow | 111/src/chain.rs:453-457 | pushing onto the deque of a chain gives the deque of the longer chain |
| MedianTime.ScanMedian | 111/src/chain.rs:1016-1033 | the downward database scan computes the median of the stored timestamps of the last eleven heights, skipping missing records |
| MedianTime.ScanMedianReaches | 111/src/chain.rs:1019-1032 | whatever records are missing, that median reaches m exactly when at least half of the stored heights of the range do |
| MedianTime.StoredTimesAreChain | 111/src/chain.rs:1019-1030 | with every height stored, the scan sees exactly the chain's timestamps |
| Retarget.ClampsAreRedundant | 111/src/chain.rs:1003-1006 | for clamped times the quotient already lies between a quarter and four times the old target |
| Retarget.CalculateNextBits | 111/src/chain.rs:992-1015 | the stepwise calculation, clamps and lagging-timestamp reset included, gives the rule without the two clamps |
| Retarget.AdjustedTarget | 111/src/chain.rs:1001-1012 | the reassigned target ends as the rule's target |
| Retarget.NextTargetInRange | 111/src/chain.rs:1001-1013 | from any old target between 1 and the genesis target, the new bits fit 32 bits and decode into that range again |
| Retarget.RetargetBounds | 111/src/chain.rs:1001-1013 | from an old target of at least 4 the new one is at most four times it and above 32767/65536 of a quarter of it |
| Retarget.CeilingBrokenIff | 111/src/chain.rs:1001-1013 | below that, the fourfold ceiling fails exactly when the quotient is zero |
| Retarget.CeilingBreaks | 111/src/chain.rs:1001-1013 | a target of 1 after a fast interval becomes more than four times as large |
| Retarget.RetargetScales | 111/src/chain.rs:995-1013 | at a retarget, with the last block not lagging and 30240 to 483840 seconds between the first and the last of the last 2016 headers, the bits encode the old target times those seconds over 120960, rounded down and capped |
| Retarget.RetargetSaturates | 111/src/chain.rs:999-1000 | below and above those seconds the answer no longer changes: a quarter and four times the old target; an interval that runs backwards counts as the slowest one |
| Retarget.OnTimeKeepsTarget | 111/src/chain.rs:999-1013 | exactly 120960 seconds keep the target |
| Retarget.LaggingKeepsTarget | 111/src/chain.rs:1008-1011 | a last block that at least six of the last eleven timestamps reach keeps the target, and no other block counts as lagging |
| Retarget.SlowerIsEasierIff | 111/src/chain.rs:995-1013 | from equal bits a longer interval never gives a smaller target, unless the shorter one scales it to zero and the longer one does not, exactly then |
| Retarget.FasterIsEasier | 111/src/chain.rs:995-1013 | from a target of 1 the fastest interval gives an easier target than one on time |
| Retarget.NextBitsInRange | 111/src/chain.rs:903-905 | the bits the rule asks for always decode into the range |
| Retarget.BitsWithinInterval | 111/src/chain.rs:993-994 | on a chain obeying the rule, bits change at multiples of 2016 only |
| Retarget.WorkInRange | 111/src/chain.rs:206-207 | such bits are worth at least 2^32 hashes |
| Retarget.WorkBracket | 111/src/chain.rs:207 | the work is the quotient of 2^256 by the target plus one, rounded down |
| Retarget.WorkOfSmaller | 111/src/chain.rs:680-682 | a smaller target never has less work, and one half as large at least twice the work |
| Retarget.TargetsInRange | 111/src/chain.rs:903-905 | on every chain obeying the bits rule from genesis, every target lies between 1 and the genesis target and every block is worth at least 2^32 |
| Emission.EmissionBound | 111/src/utils.rs:211-218 | n blocks create at most 2 * 2100000 * 10^10 plus the tail subsidy for every block past 134400000 |
| Emission.EmissionBeforeTail | 111/src/utils.rs:211-218 | the emission before the tail, to the unit |
| Emission.BelowTailIff | 111/src/utils.rs:211-218 | between the fifth halving and the tail the subsidy is below the tail subsidy, and zero for the last thirty eras, exactly then |
| Emission.SupplyChecked | 111/src/chain.rs:865-868 | the checked 64-bit loop fails exactly when the emission does not fit, hence never for a 32-bit height |
| Emission.SupplyWrapping | 111/src/chain.rs:882-885 | the 128-bit loop agrees with it for every 32-bit height |
| Emission.FitsU64 | 111/src/chain.rs:319 | the emission of every height that fits the stored field fits 64 bits |
| Emission.SubsidyHalves | 111/src/utils.rs:211-218 | the first era earns 10^10 per block, each later one half of the one before, and the tail 5 * 10^8 |
| Merkle.DepthBounds | 111/src/tx.rs:110-120 | the number of passes is the logarithm of the length, rounded up |
| Merkle.HashPairs | 111/src/tx.rs:111-118 | one pass pairs neighbours and an odd last digest with itself |
| Merkle.ComputeRoot | 111/src/tx.rs:107-122 | the loop computes the root of the recursive tree, and zero for no transactions |
| Merkle.SmallRoots | 111/src/tx.rs:107-122 | the roots of up to four transactions, written out, left before right |
| Merkle.LevelIsOneLayer | 111/src/tx.rs:110-120 | one pass takes exactly one layer off the tree |
| Merkle.LevelKeepsRoot | 111/src/tx.rs:110-120 | one pass keeps the root |
| Merkle.DuplicateLast | 111/src/tx.rs:111 | an odd list longer than one and the list repeating its last element have the same root |
| Merkle.DigestOfBuild | 111/src/tx.rs:107-122 | the root is the digest of the padded binary tree over the leaves |
| Merkle.Collision | 111/src/tx.rs:113-118 | two different trees with one digest contain two different pairs with one hash |
| Merkle.SameRootIff | 111/src/tx.rs:107-122 | under an injective pair hash, lists of the same depth share a root exactly when their padded leaves agree |
| Merkle.RootDeterminesList | 111/src/tx.rs:107-122 | under an injective pair hash, equal-length lists share a root exactly when they are equal |
| Sums.CheckedMapSum | 111/src/utils.rs:90-100 | the checked sum over a column family is the sum of its values in any order, and fails exactly when that does not fit 64 bits |
| SetDigest.XorInto | 111/src/chain.rs:127-131 | the loop replaces the array by the bytewise XOR |
| SetDigest.XorAllInsert | 111/src/chain.rs:116-131 | XOR with a new entry's digest follows its insertion |
| SetDigest.XorAllDelete | 111/src/chain.rs:116-131 | XOR with an entry's digest follows its deletion |
| SetDigest.AnyOrder | 111/src/chain.rs:116-131 | folding the digests of a set gives the same result in every order |
| Ledger.Pending.Perform | 111/src/chain.rs:534-537 | one spend, creation or mark: batch, log, digest and supply move together, or the supply check fails |
| Ledger.Pending.ConnectInput | 111/src/chain.rs:513-570 | one input, transparent or anonymous: script, key image and presence checks in order, then the spend |
| Ledger.Pending.ConnectInputs | 111/src/chain.rs:512-571 | all inputs in order, stopping at the first failure |
| Ledger.Pending.ConnectOutput | 111/src/chain.rs:573-606 | one output: the entry and, if transparent, its address record |
| Ledger.Pending.ConnectOutputs | 111/src/chain.rs:572-607 | all outputs in order |
| Ledger.Pending.ConnectTx | 111/src/chain.rs:484-608 | one transaction: a coinbase leaves only its height record; otherwise inputs, then outputs |
| Ledger.Pending.ConnectBlock | 111/src/chain.rs:609-622 | a block fails exactly as its plan does; otherwise batch, rollback log, digest and supply are those of the plan |
| LedgerInvariants.DigestFollowsSet | 111/src/chain.rs:534-580 | with distinct spends and new outputs the incremental digest ends as the XOR over the new set |
| LedgerInvariants.DigestDrifts | 111/src/chain.rs:534-580 | for every list of effects with new outputs the incremental digest is that of the new set with the digests of all outputs spent an even number of times on top |
| LedgerInvariants.DigestMatchesIff | 111/src/chain.rs:534-580 | so it matches the new set if and only if those digests cancel out |
| LedgerInvariants.ValueFollowsSet | 111/src/chain.rs:549-591 | under the same hypotheses the value of the set changes by created minus spent |
| LedgerInvariants.SupplyFollowsValue | 111/src/chain.rs:535-580 | whenever the checked supply arithmetic succeeds it changes by created minus spent |
| Rollback.BuildRollback | 111/src/chain.rs:418-426 | the reversed log as a batch replays every entry, the first one last |
| Rollback.FirstEntryWins | 111/src/chain.rs:420-426 | the first log entry for a key decides what the key ends with |
| Rollback.RollbackRestoresIff | 111/src/chain.rs:416-438 | after any landed prefix of the batch, the rollback restores the five covered families exactly if and only if every key that is written and held something before had been spent by the block first |
| Rollback.OverwrittenIsLost | 111/src/chain.rs:420-426 | a record written over without having been spent is gone after the rollback, however little has landed |
| Rollback.RepeatedCoinbaseIsLost | 111/src/chain.rs:498-503 | a block whose coinbase has an identifier seen before loses the older height record in the rollback |
| Rollback.RecordsStay | 111/src/chain.rs:416-438 | records outside those families stay as the landed part left them |
| Validation.CheckInputs | 111/src/tx.rs:264-281 | succeeds exactly when the inputs are distinct and no coinbase is immature; otherwise names the first bad input's fault |
| Validation.SumInputs | 111/src/tx.rs:282-295 | succeeds exactly when all inputs are stored and their sum fits, and then is that sum; otherwise names the fault of the first input that is missing or overflows |
| Validation.SumOutputs | 111/src/tx.rs:309 | the output sum, or an overflow exactly when it does not fit |
| Validation.ValidateTransaction | 111/src/tx.rs:256-323 | accepts exactly the valid transactions, and reports the first failing check, down to the first bad input, for any other |
| Validation.LockEnds | 111/src/tx.rs:258 | with an input that is not final, a transaction is refused for its lock exactly below the height it names |
| Validation.FinalHasNoLock | 111/src/tx.rs:258 | with final inputs only it never is |
| Validation.AnonymousOwesMore | 111/src/tx.rs:312-318 | the required fee is ten units per byte, for an anonymous transaction fifteen |
| Validation.AnonymousNeverValid | 111/src/tx.rs:296-311 | a valid transaction that is not a coinbase is never anonymous, because anonymous inputs count as zero |
| Validation.ValidateBlock | 111/src/chain.rs:909-940 | accepts exactly the blocks with a leading coinbase, valid transactions, and a first output worth subsidy and fees; reports a missing coinbase, the first invalid transaction's own error, or the fee error, in that order |
| Conservation.SpentWithinSet | 111/src/chain.rs:549-560 | distinct spends never take more than the set holds |
| Conservation.TxConserves | 111/src/tx.rs:77-81 | a valid transaction connects, and spends what it creates plus its fee |
| Conservation.TxPaysPerByte | 111/src/tx.rs:311-321 | a valid transaction that is not a coinbase takes at least ten units per byte out of the set |
| Conservation.TxSupplySucceeds | 111/src/chain.rs:549-591 | the supply never underflows or overflows inside a valid transaction and ends lower by the fee |
| Conservation.BlockConserves | 111/src/chain.rs:917-940 | all transactions of a valid block together spend what they create plus the total fees |
| Conservation.BlockSupplySucceeds | 111/src/chain.rs:549-591 | the supply never leaves the 64-bit range inside a valid block that starts with at least what it spends |
| Conservation.ValidBlockConnects | 111/src/chain.rs:609-622 | a valid block with distinct spends and new outputs always connects when the supply is at least the set value |
| Conservation.ValidBlockConserves | 111/src/chain.rs:936-940 | it lowers the set value by the total fees, so new set value plus coinbase payout is old set value plus subsidy |
| Conservation.ValidBlockPays | 111/src/chain.rs:909-935 | a valid, clean block lowers the set value by at least ten units for every byte that is not a coinbase's |
| Conservation.ValidBlockSupply | 111/src/chain.rs:549-591 | the running supply drops by the same fees |
| LedgerRuns.Chain.constructor | 111/src/chain.rs:178-188 | an empty store, a zero digest and no supply |
| LedgerRuns.Chain.Connect | 111/src/chain.rs:352-479 | succeeds exactly with clear flags, a plan that does not fail and a whole write, and then takes the step; every other outcome: guards, plan failure, torn write with and without a successful rollback, read-only mode and the pending flag |
| LedgerRuns.StepOuts | 111/src/chain.rs:415-463 | after a connect the stored set is what the block's effects made of it and the stored supply is the one in memory |
| LedgerRuns.StepKeepsDigest | 111/src/chain.rs:461 | a connect with distinct spends and new outputs keeps the digest equal to the XOR over the set |
| LedgerRuns.RunKeepsDigest | 111/src/chain.rs:461 | over every run of such connects the digest is the XOR over all entries in any order |
| LedgerRuns.StepKeepsDigestIff | 111/src/chain.rs:461 | after a connected block with new outputs the digest matches the set if and only if the digests of the outputs spent an even number of times cancel out |
| LedgerRuns.DoubleSpendDrifts | 111/src/chain.rs:553-560 | a block that passes validation with two transactions spending the same output breaks the digest unless that output's own digest is zero |
| LedgerRuns.StepBalances | 111/src/chain.rs:397-400 | one connect keeps the books of set value, payout and recorded supply |
| LedgerRuns.RunConserves | 111/src/chain.rs:397-400 | at every point of every run of valid blocks, set value plus all coinbase payouts is the starting value plus the emission, and the supply in memory follows the emission |
| LedgerRuns.RunNeverSticks | 111/src/chain.rs:609-622 | after any such run the next valid block connects, as long as the emission fits 64 bits |
| LedgerRuns.SetStaysEmpty | 111/src/chain.rs:498-511 | a chain that starts with an empty set keeps it empty: only coinbases are ever valid, and their outputs are never entered |
| LedgerRuns.ValidateSupplyFull | 111/src/chain.rs:855-873 | passes exactly when both family sums fit and their wrapped sum is the emission |
| LedgerRuns.FullCheckComparesValue | 111/src/chain.rs:863-871 | while the value of the whole set fits 64 bits, the check passes exactly when that value is the emission |
| LedgerRuns.FullCheckNeverPasses | 111/src/chain.rs:855-873 | on such a chain it passes at no height |
| LedgerEntries.BlockEffects | 111/src/chain.rs:499-607 | the effects of a block that does not fail are those its transactions name, and no others |
| LedgerEntries.OutputsAreStored | 111/src/chain.rs:573-597 | after a clean block every output of a transaction that is not a coinbase is stored under its identifier and index, and a transparent one also under its address |
| LedgerEntries.InputsAreGone | 111/src/chain.rs:512-569 | every output an input names was there and is gone, and an anonymous input has left its key image, new, with the height |
| LedgerEntries.CoinbaseIsRecorded | 111/src/chain.rs:499-505 | a coinbase leaves the height of its block, so what refers to it matures exactly 100 blocks later |
| LedgerEntries.SetAfterBlock | 111/src/chain.rs:512-592 | the set after a clean block is the set before it, without what the inputs name and with the outputs, and nothing else |
| LedgerEntries.OutputIsSpendable | 111/src/chain.rs:552-559 | a later input that names a stored output finds it, with its value |
| LedgerEntries.OutputLives | 111/src/chain.rs:512-592 | over every clean run an output stays in the set, with its own value, until a block takes it |
| LedgerEntries.OutputDies | 111/src/chain.rs:555-559 | and is gone right after that block |
| LedgerEntries.RefusalNamesInput | 111/src/chain.rs:514-571 | a failing plan names the fault of one of the inputs: short script, known key image, missing or unreadable output |
| LedgerEntries.ImagesUsedOnce | 111/src/chain.rs:515-520 | over every run, clean or not, no two blocks use the same key image |
| LedgerEntries.StepRecords | 111/src/chain.rs:617-620 | a connected block records the digest in memory, the supply less what was spent plus what was created, the header at its height, and every transaction at its position unless a later one has its identifier |
| LedgerEntries.SupplyRecord | 111/src/chain.rs:617-620 | for a valid, clean block the recorded supply is the supply less the fees |
| ChainIndex.IndexesAreInverse | 111/src/chain.rs:444-449 | the two hash indexes of a chain with distinct hashes are inverse to each other |
| ChainIndex.WorkIndexAt | 111/src/chain.rs:377-381 | the work recorded at a height is the sum of the block works up to it |
| ChainIndex.WorkIncreases | 111/src/chain.rs:450-452 | on a chain obeying the bits rule the recorded work grows by at least 2^32 between any two heights |
| ChainIndex.HarderChainWins | 111/src/chain.rs:680-686 | of two chains of one length, the one with targets at or below the other's, block by block, has at least as much work, and more if one of its targets is at most half of the other's |
| ChainIndex.PrunedStep | 111/src/chain.rs:467-470 | connecting keeps exactly the first block and the last 10080 in memory |
| ChainIndex.MedianAgrees | 111/src/chain.rs:1016-1033 | the median of the deque is the median found by the database scan |
| ChainIndex.AppliedIsIndexed | 111/src/chain.rs:374-381 | connecting the next block turns the indexes of a chain into those of the longer chain, and keeps all recent blocks in memory |
| ChainIndex.SavedIsStored | 111/src/chain.rs:307-325 | connecting and saving the next block turns the records of a chain, from any height on, into those of the longer chain |
| ChainIndex.LoadedIsIndexed | 111/src/chain.rs:248-279 | from the records of a chain, loading can read all it needs and rebuilds exactly the indexes of that chain, deque included |
| NodeRuns.ValidateState | 111/src/chain.rs:824-836 | passes exactly when the supply record is missing or equals the supply in memory |
| NodeRuns.ValidateSupplySmart | 111/src/chain.rs:874-897 | with both records passes exactly when the supply record is the emission, and takes both over; otherwise exactly when the full check passes |
| NodeRuns.RestartPassesIff | 111/src/chain.rs:280-281 | both checks of a load pass if and only if not both records are there, the supply record is missing or zero, and the outputs are worth the emission |
| NodeRuns.ConnectRecords | 111/src/chain.rs:619-620 | every connected block leaves both records |
| NodeRuns.NoRestartAfterConnect | 111/src/chain.rs:280-281 | after any connected block no load passes, at any height |
| NodeRuns.Node.constructor | 111/src/chain.rs:174-204 | on an empty database, connecting the genesis block leaves memory describing the chain of one block and only its header in the database |
| NodeRuns.Node.StartAfresh | 111/src/chain.rs:205-211 | over any database the genesis block connects, memory describes the chain of that one block, and only its header record is written |
| NodeRuns.Node.WorkOfBits | 111/src/chain.rs:268-269 | succeeds exactly when the bits decode, with their work |
| NodeRuns.Node.Apply | 111/src/chain.rs:352-479 | succeeds exactly when no batch is pending and the ledger accepts the block; then the new indexes, header record, tip and the pruning of the block that leaves the kept range; otherwise nothing but the pending flag changes, which stays set |
| NodeRuns.Node.Save | 111/src/chain.rs:307-325 | the new records, with the height cut to 32 bits |
| NodeRuns.Node.SaveBest | 111/src/main.rs:253-256 | saves the best block again; for a lone genesis block memory and database then agree |
| NodeRuns.Node.Connect | 111/src/chain.rs:649-653 | extends memory and database to the longer chain exactly when the hash is unknown, the bits decode, no batch is pending and the ledger accepts the block; a known hash is reported as such; otherwise both stay as they were, and after a refusal by the ledger every later new block is refused |
| NodeRuns.Node.Rebuild | 111/src/chain.rs:248-279 | succeeds exactly when every needed record is present and decodes, with the state those records describe; the final work comparison never fails |
| NodeRuns.Node.Load | 111/src/chain.rs:212-284 | succeeds exactly when the rebuild does and both supply checks pass; the indexes are rebuilt either way |
| NodeRuns.Node.Reload | 111/src/chain.rs:212-284 | a restart of a node in step with its chain rebuilds all four indexes unchanged and is then always refused |
| NodeRuns.Node.Restart | 111/src/main.rs:161-163 | a restart after any connected block ends with the genesis block alone in memory, over the database as it was but for the header record of height zero |
| NodeRuns.Node.Run | 111/src/chain.rs:352-479 | over every run of blocks and restarts memory describes one chain, with exactly its first and its last 10080 blocks at hand, and the database holds all of it but perhaps the genesis block; without a restart the chain only grows, and each restart begins it anew from the genesis block |
| Journal.BuildBatch | 111/src/chain.rs:709-717 | succeeds exactly when all blocks above the fork are stored; then the list can be replayed: it disconnects them from the top down and connects the new block |
| Journal.RebuildBatch | 111/src/chain.rs:77-84 | the recovery loop gives the same list, which can be replayed, for every depth up to the stored height, and fails on a depth that has wrapped |
| Journal.ReorgReplays | 111/src/chain.rs:709-717 | the list can be carried out one by one: each step disconnects the block stored at the height reached, and the last connects the new block right above the fork |
| Journal.OnlyReorgReplays | 111/src/chain.rs:709-717 | no other list can |
| Journal.SamePlan | 111/src/chain.rs:699-717 | a record that matches the stored tip is rebuilt to the list of the original attempt for every fork at or below the best height; above it nothing can be rebuilt |
| Journal.NextKeeps | 111/src/chain.rs:54-96 | every step of adding, saving, failing, crashing, recovering and restarting, with any number of pending records and any tip in memory, keeps the accounting invariant |
| Journal.RunKeeps | 111/src/chain.rs:54-96 | so does every run of them from an empty journal |
| Journal.WritesOfSettled | 111/src/chain.rs:60-96 | over every run, a settled reorganization's batch was written once per crash or failure between a write and the removal of its record, and once more unless its record was stale and left behind by a crash or failure; always the planned list if no block was saved while the record was pending |
| Journal.WrittenOnceIff | 111/src/chain.rs:60-96 | without a crash or failure between write and removal it was written exactly once if and only if the record was not both stale and left behind |
| Journal.StaleAfterUp | 111/src/chain.rs:697-706 | the first record after a start is stale exactly when the stored tip or height differs from the tip or height then in memory |
| Journal.StaleAfterFinish | 111/src/chain.rs:720-727 | the record after a finished reorganization is stale exactly when the new block's hash differs from the tip in memory, which was not updated |
| Journal.StaleReorgIsLost | 111/src/chain.rs:68-96 | whenever memory and the stored tip differ, a reorganization cut off before its write is discarded by recovery and never written |
| Journal.SecondReorgIsLost | 111/src/chain.rs:697-722 | a second reorganization after a finished one onto a new tip, cut off before its write, is discarded by recovery and never written |
| Journal.FirstReorgAfterRefusalIsLost | 111/src/main.rs:161-163 | after a refused load, when the genesis block is in memory and another tip is stored, so is the first reorganization |
| Journal.FailedReorgComesBack | 111/src/chain.rs:697-722 | a reorganization whose adding failed before the write, and was reported as failed, is written by the next recovery |
| Dependencies.Walk | 111/src/mempool.rs:83-94 | succeeds exactly when no ancestor is reached by two routes and there are fewer than fifty; the result is the set of all pooled ancestors |
| Dependencies.AncestorsAreClosed | 111/src/mempool.rs:90-92 | that set is closed under recorded dependencies |
| Dependencies.AncestorsAreLeast | 111/src/mempool.rs:84-93 | and it is the least closed set holding the direct parents |
| Dependencies.AddedKeepsShape | 111/src/mempool.rs:83-94 | adding a transaction whose walk succeeded keeps every dependency chain at two links and every ancestor on one route |
| Mempool.DetachedIsConsistent | 111/src/mempool.rs:184-199 | in the middle of a removal all indexes agree again once the removed transaction is counted as in flight |
| Mempool.RemovedIsValid | 111/src/mempool.rs:183-209 | a removal keeps the whole invariant |
| Mempool.NoSurvivorDepends | 111/src/mempool.rs:197-199 | no survivor of a removal depends on anything removed |
| Mempool.AdmittedIsValid | 111/src/mempool.rs:134-155 | entering an admissible transaction keeps the whole invariant |
| Mempool.Pool.Remove | 111/src/mempool.rs:183-209 | removes exactly the least set that holds the transaction and is closed under listed children; dependencies, children lists, fee index, byte count and key images agree afterwards |
| Mempool.Pool.Detach | 111/src/mempool.rs:184-197 | the first half of a removal: pool, key images, byte count and child list |
| Mempool.Pool.Forget | 111/src/mempool.rs:185-192 | drops exactly the key images of the transaction |
| Mempool.Pool.Admit | 111/src/mempool.rs:76-133 | succeeds exactly for admissible transactions, with the entry of the next row |
| Mempool.NewEntryIs | 111/src/mempool.rs:110-134 | every input is stored or pooled; fee plus outputs is the value of the stored inputs; the rate is the fee per byte, rounded down; the dependencies are the pooled transactions spent and all they depend on |
| Mempool.Pool.SumFunding | 111/src/mempool.rs:102-117 | succeeds exactly when every input is stored or pooled and the stored sum fits; adds no dependency the walk had not found |
| Mempool.Pool.PackageFits | 111/src/mempool.rs:95-101 | the early exit decides whether the transaction with all its ancestors fits the package limit |
| Mempool.Pool.CheckImages | 111/src/mempool.rs:125-133 | succeeds exactly when every input of an anonymous transaction carries a key image and none is taken |
| Mempool.Pool.ClaimImages | 111/src/mempool.rs:137-144 | maps exactly the key images of the transaction to it, on top of what was mapped |
| Mempool.Pool.ListChild | 111/src/mempool.rs:152-154 | appends the transaction to the list of each of its dependencies and to no other |
| Mempool.Pool.Add | 111/src/mempool.rs:137-155 | enters the transaction in every index |
| Mempool.Pool.Insert | 111/src/mempool.rs:73-167 | changes nothing unless the transaction is new and admissible; otherwise enters it and takes out exactly the least closed set around the evictions, keeping the whole invariant |
| Mempool.Pool.Evict | 111/src/mempool.rs:210-224 | a removal after which no listed child is left to remove |
| Mempool.Pool.RemoveAll | 111/src/mempool.rs:179-181 | removing a list of transactions takes out exactly the least closed set around them and keeps the whole invariant |
| Mempool.Pool.RemoveOrphaned | 111/src/mempool.rs:168-182 | changes nothing in a valid pool |
| Mempool.Pool.Orphans | 111/src/mempool.rs:169-178 | collects exactly the transactions with a dependency that is not pooled |
| Mempool.Pool.Run | 111/src/mempool.rs:73-224 | every run of insertions, removals and evictions keeps the whole invariant |
| Mempool.ImagesUnshared | 111/src/mempool.rs:125-144 | no two pooled anonymous transactions share a key image |
| Mempool.ScriptsUnshared | 111/src/mempool.rs:125-144 | no two inputs of different pooled anonymous transactions agree in their first 32 script bytes |
| Mempool.CascadeIsFamily | 111/src/mempool.rs:183-199 | a removal takes all dependents along, and nothing else exactly when none of them lists an outsider |
| Mempool.PreciseIffExact | 111/src/mempool.rs:152-154 | every possible removal takes exactly the dependents if and only if every listed pooled child really depends on its parent |
| Mempool.RemovalKeepsPrecise | 111/src/mempool.rs:183-199 | a removal keeps the lists precise |
| Mempool.InsertionKeepsPreciseIff | 111/src/mempool.rs:152-154 | an insertion keeps them precise exactly when no other parent still lists the transaction |
| Mempool.StaleListingSweeps | 111/src/mempool.rs:152-199 | a run of insertions, a removal and an insertion after which removing a transaction sweeps away one that depends on nothing, while an unrelated one stays |
| HashOrder.IsLess | 111/src/mempool.rs:235 | the bytewise comparison, which is total |
| HashOrder.LessIffNumber | 111/src/mempool.rs:235 | it is the order of the hashes as numbers, the first byte counting most |
| HashOrder.SortedIds | 111/src/mempool.rs:235 | the identifiers of one fee rate in ascending order |
| Packages.WalkPackage | 111/src/mempool.rs:238-256 | collects distinct ancestors in front of the transaction, and is cut off exactly when ancestors and their recorded dependencies together exceed fifty; otherwise all ancestors are there, and in order exactly when the dependency set is iterated with every ancestor before its descendants |
| Packages.AlwaysOrderedIff | 111/src/mempool.rs:241-254 | a package is in order for every iteration order if and only if no ancestor of its head has ancestors |
| Packages.SmallFamilyIsWhole | 111/src/mempool.rs:244-256 | up to twenty-five ancestors are never cut off |
| Selection.RatesDescending | 111/src/mempool.rs:230-231 | every fee rate of the index once, highest first |
| Selection.TryPackage | 111/src/mempool.rs:236-262 | a candidate is taken whole, skipped or left, and if not taken then some package holds it, it did not fit, or a candidate that did not fit depends on it; the block size never underflows and the package limit never rejects |
| Selection.TryAll | 111/src/mempool.rs:234-264 | the candidates of one fee rate in ascending order |
| Selection.SelectTxs | 111/src/mempool.rs:225-267 | only pooled transactions, in packages by descending fee per byte and identifier of their heads, never above the block size counting repeats, no head in an earlier package; each pooled transaction is in a package, or had no room at its turn, or is an ancestor of one that had none before; with room for all packages every pooled transaction is taken, and without cut-offs the next three rows hold of the result |
| Selection.LeadsIffPicked | 111/src/mempool.rs:236-262 | a transaction heads a package if and only if no earlier package holds it, it fits at its turn, and nothing that depends on it found no room before |
| Selection.LeadsIff | 111/src/mempool.rs:236-261 | a transaction heads a package if and only if it comes before everything that depends on it |
| Selection.HeadsAndRepeats | 111/src/mempool.rs:236-261 | nothing is selected twice if and only if the families of different heads are disjoint |
| Wallet.SortDescending | 111/src/main.rs:1445-1446 | the coins in descending order of value, equal values in their old order |
| Wallet.OneOrder | 111/src/main.rs:1446 | there is only one such order |
| Wallet.SelectCoins | 111/src/main.rs:1447-1453 | takes the shortest prefix whose wrapped sum reaches the target, or all coins |
| Wallet.FewestCoinsIff | 111/src/main.rs:1445-1453 | when selection stopped early, no smaller set of coins reaches amount plus 100000 exactly when the selected value fits 64 bits |
| Wallet.SettleFee | 111/src/main.rs:1455-1467 | the loop computes the fee after at most twenty rounds |
| Wallet.FeeSettles | 111/src/main.rs:1460-1467 | for any limit of at least two rounds, the final fee is that of one of the three sizes, and it either reproduces itself up to 19 units or alternates with one other fee for ever |
| Wallet.FinalFeeIs | 111/src/main.rs:1460-1467 | twenty rounds come to three fees: the estimate if the next fee is close to it, else that fee if the one after is close, else the one after |
| Wallet.OrdinaryFee | 111/src/main.rs:1455-1468 | without wrapping, in plain numbers for any number of inputs: when the fee is that of two outputs, of one, or the first estimate, and when it exceeds what is left |
| Wallet.FeeCoversEstimateIff | 111/src/main.rs:1458-1467 | the final fee is at least the first estimate exactly when the second fee is close to it, or adding the wrapped fee of the growth in size does not pass 2^64, the size following from the change before it; in particular when the largest size's fee does not wrap |
| Wallet.FeeFallsBelowEstimate | 111/src/main.rs:1458-1469 | an affordable payment of one coin whose final fee is less than a quarter of the estimate |
| Wallet.CreateTx | 111/src/main.rs:1443-1486 | the inputs are the largest coins, as many as the target takes; succeeds exactly when they cover the amount and the amount with the final fee in 64-bit arithmetic, and then the change is what is left |
| Wallet.InputsAreDetermined | 111/src/main.rs:1445-1453 | which coins are spent is determined by the coins and the target |
| Wallet.GivenAwayIff | 111/src/main.rs:1468-1486 | inputs minus outputs lie between the fee and the fee plus 1000 exactly when input value and amount plus fee wrap equally often; with a change output they are exactly the fee |
| Wallet.PaysMoreThanItHas | 111/src/main.rs:1443-1486 | spending a coin of 2^64-1 in full at a fee rate of one builds a payment that hands out more than it takes in |
| Wallet.ThreeWhereTwoSuffice | 111/src/main.rs:1449-1453 | three coins that wrap are all taken although two are worth enough |
| HeaderSync.ParseRequest | 111/src/net.rs:421-423 | fails exactly below 40 bytes; the stop hash is read only from 72 bytes on |
| HeaderSync.StopIsReadIff | 111/src/net.rs:421-423 | a message of kind and two hashes is read without its stop hash unless four more bytes follow |
| HeaderSync.GetHeaders | 111/src/chain.rs:326-347 | nothing for an unknown locator; otherwise consecutive stored headers ended only by the limit of 2000, the best height or the stop hash; an error exactly when a header is missing before one of these ends the reply |
| HeaderSync.StoredIsServable | 111/src/chain.rs:296-306 | a stored chain can be served from its blocks after any of its header records are lost |
| HeaderSync.ReceiveHeaders | 111/src/net.rs:452-469 | accepts exactly the linked sequences, and counts them |
| HeaderSync.ReplyIsStretch | 111/src/chain.rs:335-345 | on such a chain every reply is a contiguous stretch of it |
| HeaderSync.ReplyIsAccepted | 111/src/net.rs:455-462 | every reply from a hash-linked chain passes the receiver's check |
| HeaderSync.Fetch | 111/src/chain.rs:326-347 | one request on a stored chain: a linked stretch of it, empty exactly at its end |
| HeaderSync.Sync | 111/src/chain.rs:326-347 | repeating the request from the last header yields the rest of the chain without gap or repeat, in an exactly given number of rounds for every stop hash |
| HeaderSync.RoundsWithoutStop | 111/src/chain.rs:334-338 | with no matching stop hash that number is one reply for every 2000 headers begun |

## Left out

- Disconnecting a block, and the digest and supply over a reorganization of several blocks: the code reads spent outputs from a snapshot that no longer holds them and reads the same state for every block, so there is no inverse to prove.
- RandomX, SHA-256, RIPEMD, ECDSA, ring signatures, range proofs and commitments: hash functions are parameters, and the verdict of the anonymous checks is a parameter of the validation model.
- Decoding of key images as curve points: any 32 bytes are taken as a key image.
- Block checks that are not about values: size, proof of work, Merkle root, checkpoints and the two-hour limit on timestamps; the bits rule and the median rule are hypotheses on chains.
- Validation.ValidateTransaction: a stored record of the wrong kind is reported as the nearest error, and a failed anonymous proof as one error, where the code reports the foreign library's.
- Validation.ValidateBlock: the stored outputs are looked up directly instead of through the map collected beforehand.
- Average fee, the heap order and the termination of the eviction loop: the average can divide by zero and an eviction may remove nothing, so evictions are any finite list of removals.
- Expiry by age, the expiration index and the least-recently-used list: stale entries and heap order leave no clean invariant.
- Replacement of a pooled transaction by fee: the branch is unreachable, since a pooled identifier returns earlier.
- Mempool.Pool.Evict: takes the transaction to evict as a parameter.
- Journal.NextKeeps: the batch is a list of block operations, not its individual writes.
- Pruning in the database: the deletions are added to a batch that has already been written, so only the block in memory is dropped.
- NodeRuns.Node.Run: says nothing of the records that the chain before a restart left above the new one.
- NodeRuns.Node.Load: recovery of journalled reorganizations, which comes first, is modelled on its own, and the record of the genesis hash is not part of the model.
- The supply record read while connecting uses a function that is not part of the source text; the model reads the record, or zero if there is none.
- The two differently maintained supply records as agreeing checks: one adds subsidies and the other follows the set.
- Orphan blocks, adding light blocks for received headers, and the choice between branches by work.
- Locks, asynchronous tasks, retries, metrics, compaction and clocks: steps are sequential and time is an input.
- Networking beyond the two header messages, RPC, command line, GUI, configuration, database pool and backups.
- Key derivation, addresses, scripts and signing in the wallet: a payment is its inputs, amount, change and fee.
