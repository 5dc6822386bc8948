# A model of the exfer ledger

exfer is a node for a blockchain of unspent outputs. This project models the part of it that decides what the
ledger is: the Merkle tree behind the state root, the UTXO set, the rules that move it block by block, the
database that mirrors it and the ways to open that database, the arithmetic that ranks chains and pays miners,
and around these the mempool, the block template, the event bus and the script builder. It proves what every
step of these keeps, over all inputs and all runs.

The parts that change state are classes and methods with loops, as in the code: `SparseMerkleTree`, `UtxoSet`,
`ChainStorage`, `Mempool`, `EventBus`, `Builder`, and the byte and limb loops of the 256-bit arithmetic. Each
is proved against functions on values, and the results about whole chains and runs are lemmas about those
functions. One subscriber's channel is a state machine whose steps are the atomic operations of its emitters.

Hashing, serialization, script evaluation, signatures, the fee schedule and proof of work are functions in the
record `Rules`. What is assumed of them is stated in two predicates: `Lawful` (transaction ids and leaf keys do
not collide, an id exists for whatever fits the size limits) and `LawfulBlocks` (the same for block ids and for
transaction roots of lists without repetition). `ToyWorld` gives rules that satisfy both, and a chain of
hundreds of blocks in them that satisfies every block rule. A chain is `Accepted` if every block passes block
application, and `Committed` if it also passes every header rule and its state roots are right.

`dafny verify dfyconfig.toml` checks everything.

## Files

- `SmtSpec`, `SmtArena`, `SmtHistory`: the naive tree, the arena that refines it, and whole histories.
- `Ledger`, `UtxoState`, `BlockSpec`, `BlockApply`: transactions, the UTXO set, and block application.
- `Chain`, `Supply`, `Headers`, `MedianTime`, `Ancestry`: chains of blocks and the rules over them.
- `WorkSpec`, `Digits`, `Difficulty`, `ForkChoice`, `Reward`: work, targets and rewards.
- `DiskUndo`, `OrphanOrder`, `StorageSpec`, `Storage`, `StorageInv`, `ReorgInv`, `ReorgTables`, `Indexes`,
  `StorageRuns`, `Boot`, `Connect`: the database, its runs, and opening it.
- `Mempool`, `Miner`, `MiningRound`, `Events`, `ScriptBuilder`, `ScriptEval`, `Htlc`: what surrounds the ledger.
- `ToyWorld`, `Examples`: a world in which the assumptions hold, and inputs on which the code falls short.

## Findings

Where the code does not do what its comments or its callers expect, the model follows the code. Each case has
an input and the exact condition.

- Rollback of a block (src/consensus/validation.rs:1500-1520, 1560-1589, 1674-1810). A transaction that fails to
  apply because one of its outputs is already unspent is undone as if the output were its own, and the older
  output is gone. On any valid set, for every list that the header rules grant (`Headers.HeadersListed`), an error
  restores the set if and only if no transaction that is reached has such an output: the last clauses of
  `BlockApply.ValidateAndApplyBlockAtomic` and `BlockApply.ApplyBlockAssumeValid`. On every accepted chain the
  validating path can only meet it at the coinbase: `Chain.ClashesIffCollision`, `Chain.SafeIffNoCollision`, and
  for the connection of a block `Connect.ApplyChecked`. Input: `Examples.CollisionExample`. The trusted path checks
  no maturity, so that a spent coinbase can come back, be spent in the same block, and let an old payment in:
  `Examples.TrustedExample`. It needs a coinbase that the chain already holds: `Chain.TrustedClashMeans`.
- Order of the orphans (src/chain/storage.rs:1294-1297). The comment says that any order will do. Input:
  `Examples.OldestFirstExample`. The undo is exact if and only if every orphan that spends an output of an
  orphan is another one and listed earlier: `OrphanOrder.ReorgOrderIff`. For the whole commit, logs of the new
  blocks included: `ReorgTables.ReorgKeepsIff`.
- An orphan that spends its own output (src/chain/storage.rs:1473-1504). Its spent row brings the inner output
  back. Input: `Examples.SelfSpendExample`. Exact if and only if it does not: `DiskUndo.OrphanUndoIff`, and for
  orphans newest first `OrphanOrder.NewestFirstIff`.
- Resync before the next event (src/events.rs:201-224). With two emitters an event can go in between a drop and
  its Resync. Input: the run of `Events.EmittersCanOvertake`. It cannot happen if and only if at most one
  emitter sends or nothing fits: `Events.ResyncFirstIff`. That every drop is told in the end does hold:
  `Events.QuietMeansTold`.
- Replay (src/chain/open.rs:603-604). The header of genesis is trusted and its body is not compared with it. Input:
  `Examples.GenesisBodyExample`, a stored genesis with another witness. Whatever the tables, what a replay without
  checkpoint accepts satisfies every rule if and only if the stored genesis body is the sealed one and the row of
  the tip claims the height of the tip: `Boot.ReplayedIff`.
- The hash path of a time-locked contract (src/covenants/htlc.rs:4). The comment says before the timeout; the script
  does not ask for it. Input: `Htlc.ClaimAfterTimeout`, every claim above the timeout. Exactly who can spend and
  when: `Htlc.HtlcUnlocks`.
- The lower end of a retarget (src/consensus/difficulty.rs:206). The comment says a quarter of the old target; the
  shortest window is 10797 of 43190 seconds, which is less. Input: `Difficulty.RetargetQuarterExample`. Exactly
  when the quarter holds: `Difficulty.RetargetQuarterIff`.

## Model

| member | source | states |
|---|---|---|
| SmtSpec.FoldIsNaive | src/chain/smt.rs:721-745 | folding a hash up through empty siblings gives the naive root of the subtree, for every hash function |
| SmtSpec.TreeHashIsNaive | src/chain/smt.rs:767-796 | the hash of a canonical compressed tree is the naive full-depth root of the map it holds |
| SmtSpec.CanonPath | src/chain/smt.rs:263-320 | a canonical tree stays canonical when only the bits below its level of the path change |
| SmtSpec.NodeBound | src/chain/smt.rs:139-159 | a canonical tree over n leaves has at most 4n - 2 nodes |
| SmtArena.SparseMerkleTree.constructor | src/chain/smt.rs:125-136 | the empty tree: valid, no leaves, root of the empty map |
| SmtArena.SparseMerkleTree.Alloc | src/chain/smt.rs:139-148 | a slot that was free, from the free list or new, becomes live; live slots and free list still partition the arena |
| SmtArena.SparseMerkleTree.FreeNode | src/chain/smt.rs:150-155 | exactly the given slot stops being live; the partition is kept |
| SmtArena.SparseMerkleTree.NodeCount | src/chain/smt.rs:157-159 | the number of live nodes of every valid tree: at most 4n - 2 over n >= 1 leaves, none over an empty map |
| SmtArena.SparseMerkleTree.FoldHash | src/chain/smt.rs:721-745 | the loop computes the fold of the specification |
| SmtArena.SparseMerkleTree.FindLeaf | src/chain/smt.rs:204-243 | the walk finds a key exactly if the map has it, with its value |
| SmtArena.SparseMerkleTree.InsertAt | src/chain/smt.rs:246-440 | inserting below any canonical subtree gives a canonical subtree over the updated map and touches no other live slot; the split of a leaf is never reached |
| SmtArena.SparseMerkleTree.SplitBranch | src/chain/smt.rs:343-436 | where the key leaves the prefix of an extension, the two halves meet in a branch: canonical, both children present |
| SmtArena.SparseMerkleTree.RemoveAt | src/chain/smt.rs:442-512 | removing a present key from any canonical subtree gives a canonical subtree over the smaller map, or none |
| SmtArena.SparseMerkleTree.PrependExtension | src/chain/smt.rs:534-587 | a subtree hung higher up keeps its contents and never puts an extension under an extension |
| SmtArena.SparseMerkleTree.TryMergeExtension | src/chain/smt.rs:590-661 | an extension whose child changed is stored or merged so that the result is canonical over the new contents |
| SmtArena.SparseMerkleTree.MergeExtensions | src/chain/smt.rs:607-640 | two extensions in a row become one over the same contents |
| SmtArena.SparseMerkleTree.Insert | src/chain/smt.rs:185-192 | the root is the naive root of the updated map, and every invariant of the arena is kept |
| SmtArena.SparseMerkleTree.Remove | src/chain/smt.rs:194-201 | the root is the naive root of the map without the key, present or not |
| SmtHistory.Run | src/chain/smt.rs:185-201 | after any history of inserts and removes the tree holds the resulting map and its naive root |
| SmtHistory.RunBoth | src/chain/smt.rs:185-201 | two histories that lead to the same map lead to the same root and leaf count |
| SmtHistory.SplitMap | src/chain/smt.rs:767-796 | cutting a sorted leaf list at the first 1-bit cuts its map into the two sides |
| SmtHistory.BatchIsNaive | src/chain/smt.rs:767-796 | the recursive batch root over a sorted leaf list is the naive root of its map |
| SmtHistory.IncrementalMatchesBatch | src/chain/smt.rs:767-808 | the incremental tree after any history and the batch computation over any sorted listing of the same map agree |
| Ledger.LogReplays | src/chain/state.rs:200-233 | a transaction's log replays forward to its effect, and in reverse to the map before it |
| UtxoState.IndexUnique | src/chain/state.rs:149-178 | the script index is determined by the map |
| UtxoState.LeafInsert | src/chain/state.rs:149-162 | an insertion into the map is an insertion of one leaf into the leaf map |
| UtxoState.LeafRemove | src/chain/state.rs:164-178 | a removal from the map is a removal of one leaf |
| UtxoState.UtxoSet.constructor | src/chain/state.rs:109-116 | the empty set, with index and tree that fit it |
| UtxoState.UtxoSet.MapDecides | src/chain/state.rs:95-107 | whenever the map is back to what it was, so are the script index and the state root |
| UtxoState.UtxoSet.GetStateRoot | src/chain/state.rs:308-310 | the root is a function of the map, however it was reached |
| UtxoState.UtxoSet.Insert | src/chain/state.rs:149-162 | succeeds exactly for a new outpoint whose output serializes; map, index and tree move together, else nothing moves |
| UtxoState.UtxoSet.Remove | src/chain/state.rs:164-178 | takes the entry out of map, index and tree together |
| UtxoState.UtxoSet.ApplyTransaction | src/chain/state.rs:200-233 | succeeds exactly when the inputs are there and distinct and no output is blocked, with the full effect and log; a failure leaves one of the described half-applied maps |
| Ledger.AppliedMeans | src/chain/state.rs:200-233 | pointwise: the inputs go, the outputs come with height and coinbase mark, everything else stays |
| Ledger.SumOutputsConcat | src/consensus/validation.rs:461-465 | the sum of outputs is additive, one value over one output |
| Ledger.SumEntriesConcat | src/consensus/validation.rs:437-459 | the sum of inputs is additive, one value over one entry |
| UtxoState.UtxoSet.UndoTransaction | src/chain/state.rs:239-271 | removes the outputs and restores the given entries, or reports where it stopped and what is left |
| UtxoState.UtxoSet.UndoPartialTransaction | src/chain/state.rs:283-305 | from any half-applied map: outputs out, missing inputs back |
| BlockSpec.ValidTxFacts | src/consensus/validation.rs:343-548 | what a valid transaction guarantees: inputs present, distinct and mature, outputs above dust, inputs equal outputs plus fee |
| BlockSpec.ValidTxIff | src/consensus/validation.rs:343-548 | a payment is valid if and only if it is well formed and within size, inputs are distinct, present and mature, outputs above dust with matching datums, values balance, outputs are admissible, scripts and signatures accept and the fee is enough |
| BlockSpec.TxErrorMeans | src/consensus/validation.rs:343-548 | what each reported error says about the transaction |
| BlockSpec.ValidNotCoinbase | src/consensus/validation.rs:343-360 | a valid transaction is no coinbase |
| BlockSpec.NoBadOutput | src/consensus/validation.rs:416-433 | the per-output tests find nothing exactly if all outputs are above dust and every datum has its hash |
| BlockApply.CheckOutputs | src/consensus/validation.rs:416-433 | the loop finds the first bad output, dust before datum |
| BlockApply.ValidateTransaction | src/consensus/validation.rs:343-548 | the checks in the order of the code, with the first error or the fee |
| BlockApply.CheckCoinbase | src/consensus/validation.rs:1060-1176 | the coinbase checks in the order of the code |
| BlockSpec.ValidCoinbaseFacts | src/consensus/validation.rs:1060-1176 | they pass if and only if the coinbase names its height, pays exactly what is expected with no output below dust, and is well formed |
| BlockSpec.UndoLast | src/consensus/validation.rs:1817-1838 | undoing the last transaction of a clean run with the entries selected for it gives the map before it |
| BlockApply.UndoAppliedTransactions | src/consensus/validation.rs:1817-1838 | undoing the first n transactions in reverse restores the starting map, spends inside the block included; from any map it brings back nothing but listed entries |
| BlockSpec.RunReplays | src/consensus/validation.rs:1522-1646 | a clean block's log replays forward to the new map and in reverse to the old one |
| BlockSpec.SpentIsCollected | src/chain/state.rs:84-92 | the spent list derived from the log is the list that block application recorded |
| BlockSpec.CoinbaseApplies | src/consensus/validation.rs:1500-1520 | a coinbase applies exactly if it has an id and none of its outputs is there already |
| BlockSpec.CollisionLoses | src/consensus/validation.rs:1500-1520 | the rollback of a collided coinbase removes outputs that were there before |
| BlockApply.ApplyCoinbase | src/consensus/validation.rs:1500-1520 | a failed coinbase leaves the map as it was exactly if it did not collide; else outputs are lost |
| BlockApply.UndoFailed | src/consensus/validation.rs:1560-1589 | the answer to a failed apply: outputs of it that were there are gone and stay gone; where nothing was, the starting map is back |
| BlockApply.FailsOverClash | src/consensus/validation.rs:1560-1589 | a payment whose inputs are there fails to apply only over an output that was there before the block and that the block has not spent |
| BlockApply.ApplyValidated | src/consensus/validation.rs:1526-1592 | note and apply a valid transaction: exact progress, or an error that is rolled back if and only if nothing clashes |
| BlockApply.ApplyNext | src/consensus/validation.rs:1522-1620 | one step of block application: exact progress, or an error that is rolled back if and only if nothing clashes |
| BlockApply.ValidateAndApplyBlockAtomic | src/consensus/validation.rs:1480-1649 | succeeds on exactly the acceptable blocks with effect, fees and log; on an error map, script index and state root are restored if the ids are new, and for every list that the header rules grant if and only if no reached transaction clashes; a collided coinbase is an error that loses outputs |
| BlockSpec.AcceptsIff | src/consensus/validation.rs:1480-1649 | a block is acceptable if and only if every transaction applies and every payment is valid on the map before it, the undo budget holds, and the coinbase names the height and pays reward and fees |
| BlockSpec.BlockAuthorized | src/consensus/validation.rs:505-548 | every payment of an accepted block passed its scripts and paid its fee on the map before it |
| BlockSpec.SpentBytesMeans | src/consensus/validation.rs:1528-1553 | undo metadata is 53 bytes and the output for every entry |
| BlockSpec.AcceptedIsTrusted | src/consensus/validation.rs:1674-1810 | whatever the validating path accepts the trusted path accepts with the same fees |
| BlockApply.ApplyBlockAssumeValid | src/consensus/validation.rs:1674-1810 | the trusted path on every block: exact acceptance, same map, fees and log as the validating path where that accepts; on an error the set is restored if and only if no reached transaction clashes |
| BlockSpec.TrustedAcceptsIff | src/consensus/validation.rs:1674-1810 | the trusted path accepts if and only if every transaction applies, every payment can be afforded, and undo budget and fees hold |
| Connect.UndoBlockTransactions | src/consensus/validation.rs:1844-1850 | undoing a whole applied block restores the map before it |
| Connect.CleanUnlessCollision | src/consensus/validation.rs:1480-1649 | on the map of a chain, a block with a valid header runs clean or its coinbase collides |
| Connect.ApplyChecked | src/network/sync.rs:2573-2609 | apply, compare the state root, undo on mismatch: succeeds exactly for blocks that extend the chain; otherwise everything is restored exactly if the coinbase does not collide |
| Connect.ConnectBlock | src/network/sync.rs:2573-2632 | memory and disk move together to the longer chain, or the disk stays and the memory is restored exactly if the coinbase does not collide |
| Chain.NewId | src/consensus/validation.rs:442-448 | the id of a transaction that can be applied next has not occurred before |
| Chain.BlockConsistent | src/consensus/validation.rs:1066-1092 | every prefix of an accepted block keeps the history consistent |
| Chain.ChainConsistent | src/consensus/validation.rs:1353-1380 | on every accepted chain no transaction id occurs twice, every outpoint is consumed at most once, and consumed outpoints are gone |
| Chain.ChainAuthorized | src/consensus/validation.rs:505-548 | every payment on an accepted chain passed its scripts and paid its fee on the map it was applied to |
| Chain.ReachedIsNew | src/consensus/validation.rs:1480-1649 | even in a block that fails later, whatever is applied has a new id |
| Chain.ClashesIffCollision | src/consensus/validation.rs:1480-1620 | on every accepted chain, for every block that starts with a coinbase and repeats no id: the validating path clashes if and only if the coinbase collides |
| Chain.TrustedIsNew | src/consensus/validation.rs:1674-1810 | after a coinbase that the chain has not seen, the trusted path applies only transactions that the chain has not seen |
| Chain.TrustedClashMeans | src/consensus/validation.rs:1674-1810 | on every accepted chain the trusted path clashes if the coinbase collides, only if the chain holds that coinbase, and so never if it names the next height |
| Chain.SafeIffNoCollision | src/consensus/validation.rs:1480-1520 | on every accepted chain, for every block that starts with a coinbase and repeats no id: rollback is safe if and only if no output of that coinbase is unspent |
| Supply.TxConserves | src/consensus/validation.rs:435-474 | a transaction changes the total by its outputs minus its inputs |
| Supply.RunConserves | src/consensus/validation.rs:1522-1646 | within a block the total grows by the coinbase and shrinks by the fees |
| Supply.BlockMints | src/consensus/validation.rs:1154-1173 | an accepted block increases the total by exactly its reward |
| Supply.SupplyIsMinted | src/consensus/validation.rs:1154-1173 | on every accepted chain the total value is the sum of all block rewards so far |
| Supply.CurveAboveDust | src/consensus/reward.rs:96-131 | with the node's reward curve every reward is above the dust threshold |
| Supply.SupplyBounds | src/consensus/reward.rs:96-131 | with the node's reward curve the supply after n blocks lies between n times the base and n times the first reward, and grows ever more slowly |
| Headers.CoinbaseRuleMeans | src/consensus/validation.rs:1345-1359 | rule 12 passes exactly if the first transaction and no other is a coinbase |
| Headers.RepeatRuleMeans | src/consensus/validation.rs:1360-1370 | rule 14 passes exactly if every transaction has an id and none repeats |
| Headers.FirstRepeatMeans | src/consensus/validation.rs:1371-1381 | rule 15 passes exactly if no outpoint is spent twice |
| Headers.HeadersListed | src/consensus/validation.rs:1345-1390 | the header rules grant every block above genesis a coinbase first, distinct ids and distinct inputs |
| Headers.CheckCoinbases | src/consensus/validation.rs:1345-1359 | the loop of rule 12 finds the first violation |
| Headers.CheckRepeats | src/consensus/validation.rs:1360-1370 | the loop of rule 14 finds the first violation |
| Headers.CheckDoubleSpends | src/consensus/validation.rs:1371-1381 | the loop of rule 15 finds the first outpoint that occurs again |
| Headers.ValidateBlockHeader | src/consensus/validation.rs:1231-1390 | all rules in the order of the code, with the first error |
| Headers.ValidHeaderFacts | src/consensus/validation.rs:1231-1390 | what a valid header guarantees about height, parent, target, time and transaction list |
| Headers.ValidHeaderIff | src/consensus/validation.rs:1231-1390 | header and body pass if and only if every rule holds, each written out |
| Headers.NextTargetMeans | src/consensus/difficulty.rs:58-100 | within a window the target stays; at its end it is rescaled by the seconds from its first to its last block, or by none if the clock went back |
| Headers.SealedById | src/consensus/validation.rs:1183-1190 | a block that passed is determined by its id |
| Headers.IdsUnique | src/consensus/validation.rs:1240-1270 | no block id occurs at two heights of a chain |
| Headers.CommittedTimes | src/consensus/validation.rs:1297-1333 | every chain that satisfies the block rules satisfies the timestamp rules |
| Headers.MinerAlwaysHasTime | src/main.rs:3839-3874 | on every such chain, from any genesis time that leaves room for 32-bit heights, the miner's interval is not empty and the clamped time passes rules 7 and 9 |
| MedianTime.InsertSorted | src/consensus/validation.rs:1854-1858 | inserting into a sorted list keeps it sorted and adds exactly that element |
| MedianTime.MedianTimePast | src/consensus/validation.rs:1854-1858 | the element at half length of the sorted list |
| MedianTime.MedianUnique | src/consensus/validation.rs:1854-1858 | a list has one median |
| MedianTime.MtpAdvances | src/consensus/validation.rs:1297-1307 | a timestamp above the median moves it forward and not past itself |
| MedianTime.RecentAt | src/consensus/validation.rs:1297-1307 | the window holds the last timestamps, newest first |
| MedianTime.MtpBelowParent | src/consensus/validation.rs:1297-1333 | in every chain that obeys the rules the median is at most the last timestamp |
| MedianTime.MtpNeverDecreases | src/consensus/validation.rs:1297-1333 | in every such chain the median never decreases from any block to any later one |
| MedianTime.TimeGrowth | src/consensus/validation.rs:1322-1333 | timestamps grow by at most the gap per block |
| MedianTime.MinerInterval | src/main.rs:3839-3874 | the miner's interval is empty only if the median is the last 64-bit instant |
| MedianTime.LatestMeans | src/main.rs:3839-3874 | the miner's latest time is the last one that the gap rule admits after the parent |
| MedianTime.ClampNearest | src/main.rs:3839-3874 | the clamped time is the current one where allowed, and else the nearest that is |
| MedianTime.MinerTimestamp | src/main.rs:3839-3874 | the clamped time extends the chain to another one that obeys the rules |
| Ancestry.GetAncestorTimestamps | src/chain/storage.rs:1532-1554 | the loop collects the timestamps back to the window or to genesis |
| Ancestry.ExpectedDifficulty | src/consensus/difficulty.rs:58-100 | the walk computes the target over the header table, or names the missing header |
| Ancestry.ForwardHeaderOverlay.ExpectedDifficultyOverlay | src/consensus/difficulty.rs:174-201 | the copy over an overlay computes the same function of the union of both tables |
| Ancestry.OverlayAgrees | src/consensus/difficulty.rs:120-201 | wherever stored headers suffice, an overlay of any further headers gives the same target |
| Ancestry.TargetOnChain | src/consensus/difficulty.rs:58-100 | from the tip the walk gives the target that the chain prescribes for its next block |
| Ancestry.SteadyWindow | src/consensus/difficulty.rs:58-100 | a window of 43190 seconds leaves a nonzero target as it is, for the chain and for the walk |
| Ancestry.TimesOnChain | src/chain/storage.rs:1532-1554 | from the tip the walk collects the window of the median rule |
| Difficulty.AddBytes | src/consensus/difficulty.rs:421-433 | addition of 32-byte numbers, saturating |
| Difficulty.AtLeast | src/consensus/difficulty.rs:387-397 | the byte comparison is the numeric one |
| Difficulty.SubInPlace | src/consensus/difficulty.rs:400-413 | in-place subtraction is exact when it does not go below zero |
| Difficulty.ShiftLeft | src/consensus/difficulty.rs:362-372 | the in-place shift doubles the number when the top bit is clear |
| Difficulty.NextBit | src/consensus/difficulty.rs:360-384 | taking in one more bit of the dividend |
| Difficulty.NoBitLost | src/consensus/difficulty.rs:360-384 | before every shift the top bit of the remainder is clear, for every nonzero divisor |
| Difficulty.DivBytes | src/consensus/difficulty.rs:355-384 | the bit loop computes the exact quotient for every nonzero divisor |
| Difficulty.WorkBytes | src/consensus/difficulty.rs:309-352 | min(floor(2^256 / t), 2^256 - 1) for every t > 0, and the maximum for 0 |
| Difficulty.WorkMeans | src/consensus/difficulty.rs:309-352 | w * t <= 2^256 < (w + 1) * t for every target above 1 |
| Difficulty.NoOverflow | src/consensus/difficulty.rs:247-306 | no product or carry of the limb multiplication leaves 128 bits |
| Difficulty.MulLimbs | src/consensus/difficulty.rs:255-275 | the limb multiplication is exact |
| Difficulty.DivLimbs | src/consensus/difficulty.rs:276-300 | the limb division gives the exact quotient, and reports overflow exactly when it needs a fifth limb |
| Difficulty.MulDiv | src/consensus/difficulty.rs:247-306 | min(floor(value * numerator / denominator), 2^256 - 1) |
| Difficulty.RetargetBytes | src/consensus/difficulty.rs:211-243 | the byte form computes the retarget rule |
| Difficulty.RetargetBounds | src/consensus/difficulty.rs:211-243 | the new target is never zero, at most 4 times a nonzero old one, and at least 10797/43190 of it |
| Difficulty.RetargetQuarterIff | src/consensus/difficulty.rs:203-243 | exactly when it is at least a quarter of the old one: the window was longer than 10797 seconds, the target is below 8, or its last two bits make up for the missing two seconds |
| Difficulty.RetargetQuarterExample | src/consensus/difficulty.rs:206 | a target that one retarget takes below its quarter |
| Difficulty.RetargetMonotone | src/consensus/difficulty.rs:211-243 | a larger target or a longer time never gives a smaller target |
| Difficulty.RetargetScales | src/consensus/difficulty.rs:211-243 | for windows of 10797 to 172760 seconds the new target is floor(target * time / 43190), at least 1 and at most 256 bits |
| Difficulty.RetargetClamps | src/consensus/difficulty.rs:211-243 | shorter and longer windows count as the limits |
| Difficulty.RetargetSteady | src/consensus/difficulty.rs:211-243 | blocks on schedule leave the target as it is |
| ForkChoice.WorkIsPositive | src/consensus/difficulty.rs:309-352 | every target stands for positive work |
| ForkChoice.ChildIsBetter | src/chain/fork_choice.rs:12-57 | a child tip is always better than its parent, even when work saturates |
| ForkChoice.StrictOrder | src/chain/fork_choice.rs:47-57 | being better is irreflexive, asymmetric and transitive |
| ForkChoice.WorkDecides | src/chain/fork_choice.rs:47-57 | more work is better, less is not, and between equals exactly the higher is |
| StorageInv.WorkIsTotal | src/consensus/difficulty.rs:309-352 | the recorded work of a chain is the sum over its blocks, as far as 256 bits hold it |
| Boot.MoreWorkWins | src/chain/fork_choice.rs:47-57 | of two chains the one with more work is preferred, between equals the longer, and every extension over what it extends |
| Reward.BuildLut | src/consensus/reward.rs:13-88 | the loop fills the table with the recurrence |
| Reward.LutDecreases | src/consensus/reward.rs:13-88 | table entries never increase |
| Reward.LutRecurrence | src/consensus/reward.rs:13-88 | the first entry is 1; each further one is the one before times K, rounded down |
| Reward.LutProduct | src/consensus/reward.rs:13-88 | entries multiply up to one unit of error per product |
| Reward.SquareStep | src/consensus/reward.rs:13-88 | a lower bound for an entry gives one for the entry at twice the index |
| Reward.LastEntry | src/consensus/reward.rs:13-88 | the last entry is at least one half, by twelve squarings |
| Reward.ComputeReward | src/consensus/reward.rs:96-131 | the arithmetic stays in range, never indexes past the table and gives the reward function |
| Reward.OnGrid | src/consensus/reward.rs:96-131 | at multiples of 1540 blocks the fraction is the table entry |
| Reward.OnChord | src/consensus/reward.rs:96-131 | between entries it lies within one unit of the chord |
| Reward.FirstReward | src/consensus/reward.rs:96-131 | the first block pays 10000000000 |
| Reward.FirstHalfLife | src/consensus/reward.rs:96-131 | in the first half-life the decaying part is the fraction of the whole, rounded down |
| Reward.Halves | src/consensus/reward.rs:96-131 | a half-life later the decaying part is half, rounded down, at every height |
| Reward.BucketInRange | src/consensus/reward.rs:105-120 | both table indexes of every height are in range |
| Reward.ProductFits | src/consensus/reward.rs:96-131 | every product fits 128 bits |
| Reward.InterpolateDecreases | src/consensus/reward.rs:105-120 | the interpolated value never increases within a half-life |
| Reward.HalfLifeBoundary | src/consensus/reward.rs:96-131 | it does not increase across a half-life boundary either |
| Reward.RewardBounds | src/consensus/reward.rs:96-131 | the reward lies between the base and the base plus the decaying part |
| Reward.RewardNeverIncreases | src/consensus/reward.rs:96-131 | the reward never increases with height |
| DiskUndo.RunStripped | src/chain/storage.rs:1473-1504 | apart from its own outputs, a block leaves the old map without what it consumed |
| DiskUndo.RowKeys | src/consensus/validation.rs:1528-1556 | the spent rows of a block are keyed by what it consumed |
| DiskUndo.RowValues | src/consensus/validation.rs:1528-1556 | for what the block did not create, the row is the old entry |
| DiskUndo.UndoExactIff | src/chain/storage.rs:1473-1504 | from any map: the disk undo of a clean block is exact if and only if it spends none of its own outputs |
| DiskUndo.OrphanUndoIff | src/chain/storage.rs:1473-1504 | the same on every accepted chain |
| OrphanOrder.UndoneAt | src/chain/storage.rs:1473-1504 | in a list of undos an outpoint is wrongly left behind if and only if it is created by one block and written back by the same or a later listed one |
| OrphanOrder.OutputsApart | src/consensus/validation.rs:1353-1380 | no outpoint is created at two heights |
| OrphanOrder.EntryPasses | src/chain/storage.rs:1473-1504 | an entry that the blocks above a height do not create survives them exactly if none consumes it |
| OrphanOrder.ReorgOrderIff | src/chain/storage.rs:1294-1297 | for every accepted chain, fork point and listing of the orphans: the undo leads back to the fork point if and only if every orphan that spends an output of an orphan is another one and listed earlier |
| OrphanOrder.NewestFirstIff | src/chain/storage.rs:1294-1297 | newest first is such a listing if and only if no orphan spends its own output |
| OrphanOrder.OldestFirstIff | src/chain/storage.rs:1294-1297 | the last two blocks oldest first: exact if and only if neither spends its own output and the newer spends none of the older |
| Storage.ApplyUtxoMutations | src/chain/storage.rs:310-332 | the loop applies the whole log in order, or fails if an entry does not serialize |
| Storage.ApplySpentBy | src/chain/storage.rs:249-273 | every input of every payment points to its spender |
| Storage.RevertSpentBy | src/chain/storage.rs:275-290 | the rows of everything the block consumed go |
| Storage.IndexBlock | src/chain/storage.rs:1264-1270 | every transaction id of the block maps to its height |
| Storage.UnindexHeights | src/chain/storage.rs:1371-1410 | the ids of all blocks at the given heights go |
| Storage.UndoOrphanBlocks | src/chain/storage.rs:1473-1504 | the loop is the undo of the specification, orphan by orphan as listed |
| Storage.ChainStorage.constructor | src/chain/storage.rs:476-508 | an empty database |
| Storage.ChainStorage.CommitGenesis | src/chain/storage.rs:1151-1207 | the whole write or nothing |
| Storage.ChainStorage.CommitBlock | src/chain/storage.rs:1218-1283 | the whole write or nothing |
| StorageInv.CommitTouches | src/chain/storage.rs:1218-1283 | a commit touches the rows of no other block |
| Storage.ChainStorage.CommitReorg | src/chain/storage.rs:1309-1528 | the whole write or nothing |
| Storage.ChainStorage.StoreForkBlock | src/chain/storage.rs:1117-1142 | the whole write or nothing |
| StorageInv.ForkStored | src/chain/storage.rs:1117-1142 | a stored fork block is found with body, header and work, and no other block is touched |
| Storage.ChainStorage.EvictForkBlock | src/chain/storage.rs:976-1039 | a block that became canonical keeps its rows; any other keeps header and work only and is tracked |
| StorageInv.EvictMeans | src/chain/storage.rs:976-1039 | an evicted fork block loses body and spent row, keeps header and work and is tracked with its height; a canonical one only leaves the fork table |
| Storage.ChainStorage.PlanCap | src/chain/storage.rs:1045-1075 | the victims are tracked headers with their recorded heights |
| Storage.ChainStorage.EnforceCap | src/chain/storage.rs:1076-1098 | victims leave the tracker, and their rows go unless they are canonical by now |
| StorageInv.CapMeans | src/chain/storage.rs:1076-1098 | exactly the planned blocks leave the tracker, and exactly those not canonical at the planned height lose header, work and spent row |
| Storage.ChainStorage.FinalizeSnapshot | src/chain/storage.rs:857-881 | entries are written over what is there and the markers set |
| Storage.ChainStorage.ClearSnapshot | src/chain/storage.rs:897-911 | table and markers are emptied |
| Storage.ChainStorage.SetWalkTip | src/chain/storage.rs:937-945 | only the walk marker moves |
| StorageInv.SharedPrefix | src/chain/storage.rs:1309-1528 | two chains that share a block id share everything below it |
| StorageInv.BlockKeeps | src/chain/storage.rs:1218-1283 | a block commit keeps every table right for the longer chain |
| StorageInv.GenesisKeeps | src/chain/storage.rs:1151-1207 | after the genesis commit every table is right for the first block |
| StorageInv.ForkKeeps | src/chain/storage.rs:1117-1142 | storing a fork block keeps the canonical data |
| StorageInv.Guarded | src/chain/storage.rs:1045-1098 | the canonical check at write time protects every block of the chain, whatever happened since the read |
| StorageInv.EvictKeeps | src/chain/storage.rs:976-1039 | eviction keeps the canonical data |
| StorageInv.CapKeeps | src/chain/storage.rs:1045-1098 | the cap keeps the canonical data for victims read at any earlier time |
| StorageInv.FinalizeKeeps | src/chain/storage.rs:857-881 | finalizing onto a partly filled table gives exactly the map of the chain |
| StorageInv.ClearKeeps | src/chain/storage.rs:897-911 | clearing keeps everything else right |
| ReorgInv.CleanOrderHeals | src/chain/storage.rs:1294-1297 | orphans newest first, none spending its own output, leave nothing behind |
| ReorgInv.ReorgChainOk | src/chain/storage.rs:1309-1528 | after a reorg every height resolves to a linked block of the new chain with body, header, work and spent row, and no index entry lies above the tip |
| ReorgTables.SpentRowsKept | src/chain/storage.rs:1363-1370 | the orphans find their own spent rows after the new ones have been written |
| ReorgTables.LogsReplayed | src/chain/storage.rs:1513-1515 | the new logs replay from the fork point to the new tip |
| ReorgTables.ReorgUtxosIff | src/chain/storage.rs:1473-1524 | the UTXO table is right for the new chain if and only if whatever the orphans leave behind is logged again |
| ReorgTables.ReorgIndexesOk | src/chain/storage.rs:1371-1452 | both indexes are right for the new chain, in whatever order the orphans are listed |
| ReorgTables.ReorgKeepsIff | src/chain/storage.rs:1309-1528 | a reorg commit with its orphans in any order keeps the whole database right for the new chain if and only if whatever they leave behind is logged again |
| ReorgTables.ReorgTouches | src/chain/storage.rs:1309-1528 | a reorg touches the rows of no block that is not new, so orphans keep everything; new blocks leave the fork table |
| Indexes.TxIndexExact | src/chain/storage.rs:1371-1452 | the transaction index maps exactly the transactions of the chain to their heights |
| Indexes.SpentByExact | src/chain/storage.rs:249-290 | the spent-by table maps every consumed outpoint of the chain to its one spender |
| Indexes.BackfillPop | src/chain/storage.rs:275-290 | taking the last block out of the spent-by table gives the table of the shorter chain |
| StorageRuns.Storable | src/chain/storage.rs:130-160 | whatever the chain accepted can be serialized |
| StorageRuns.BuildSpentByIndex | src/chain/storage.rs:1605-1686 | on a right database the backfill adds the spenders of exactly the chain; an abort leaves whole chunks |
| StorageRuns.RebuildKeeps | src/chain/storage.rs:1605-1686 | running the backfill again changes nothing |
| StorageRuns.Perform | src/chain/storage.rs:857-1528 | every legal step keeps the database right for the resulting chain |
| StorageRuns.Run | src/chain/storage.rs:857-1528 | every legal run of commits, reorgs, fork stores, evictions, split caps, clears, finalizes and backfills keeps every table right for the canonical chain |
| StorageRuns.GenesisStays | src/chain/storage.rs:857-1528 | no legal run changes genesis |
| Boot.ReadBlock | src/chain/open.rs:576-602 | a height is read exactly if index, body and link agree |
| Boot.CheckHeader | src/chain/open.rs:603-666 | passes exactly if the header rules hold against the stored ancestors |
| Boot.PassesIffFollows | src/chain/open.rs:603-666 | with the headers of the chain stored, that is the rule for following the chain |
| Boot.PassedFacts | src/chain/open.rs:603-666 | what passes names a stored parent row that hashes to its key, is one above it, and starts with a coinbase |
| Boot.ReplayBlock | src/chain/open.rs:564-718 | one turn of the replay: it succeeds on whatever a validating replay reads, and what succeeds untrusted is read, checked, applied and rooted |
| Boot.TrustMore | src/chain/open.rs:564-718 | trusting more blocks accepts no fewer chains |
| Boot.ReplayStored | src/chain/open.rs:527-752 | it succeeds on exactly one chain, with tip, work and map: the one whose blocks above the checkpoint are validated, and all of them unless the checkpoint is asked for, reached and stored |
| Boot.ClaimsExactly | src/chain/open.rs:527-752 | if the last replayed block claims its position, so do all of them, and the header rows below it are theirs |
| Boot.ReplayedIff | src/chain/open.rs:527-752 | from any tables, a replayed chain satisfies every rule if and only if the stored genesis body is the sealed one and the row of the tip claims the height of the tip |
| Boot.GoodReplays | src/chain/open.rs:527-752 | on a database that is right for a chain, that chain is what a replay reads |
| Boot.Bootstrap | src/chain/open.rs:455-526 | the first start commits genesis and leaves database and memory right for it |
| Boot.ReplayChain | src/chain/open.rs:455-771 | both starts: the chain of a right database or genesis; and the if-and-only-if for whatever a replay without checkpoint accepts |
| Boot.RunReplayAndMaybeMigrate | src/chain/open.rs:403-448 | after the replay the snapshot is rebuilt exactly |
| Boot.PlanWalk | src/chain/open.rs:180-272 | full, suffix or no walk: the planned start, its parent and its work fit the tables |
| Boot.Walk | src/chain/open.rs:273-354 | on a right database the walk from any planned height gives the work of the chain; a full walk gives the work of what it read, with proof of work above the checkpoint |
| Boot.LoadSnapshot | src/chain/open.rs:355-374 | loading the table gives the set whose map it is |
| Boot.WalkedIff | src/chain/open.rs:273-354 | what a full walk without checkpoint accepts is linked from genesis to the tip and satisfies the header rules, if and only if genesis claims height 0 |
| Boot.VerifyChain | src/chain/open.rs:180-354 | the tip and work of the chain on a right database; without marker and checkpoint, of a chain that satisfies the header rules |
| Boot.OpenSnapshot | src/chain/open.rs:129-395 | the fast path gives the tip, work and map of the chain; from any tables, without marker and checkpoint, the tip and work of a chain that satisfies the header rules, and a map with the root of the tip |
| Boot.OpenChain | src/chain/open.rs:57-395 | whatever path is taken, a right database opens to the tip, work and map of its chain |
| Boot.RunThenOpen | src/chain/open.rs:57-395 | after every legal run of the database, every way to open it gives the same tip, work and UTXO set |
| Mempool.IndexEntry | src/mempool/mempool.rs:149-166 | the script table gains exactly the rows of the entry |
| Mempool.DeindexEntry | src/mempool/mempool.rs:168-191 | it loses exactly those rows, and no empty set stays |
| Mempool.InsertConsistent | src/mempool/mempool.rs:313-388 | inserting an entry with unspent inputs keeps all five tables consistent |
| Mempool.RemoveConsistent | src/mempool/mempool.rs:391-407 | removing an entry keeps all five tables consistent |
| Mempool.EvictOne | src/mempool/mempool.rs:410-424 | taking the lowest-ranked entry out keeps what is left above everything evicted |
| Mempool.Mempool.constructor | src/mempool/mempool.rs:88-101 | the empty pool is consistent |
| Mempool.Mempool.PreCheck | src/mempool/mempool.rs:198-216 | the pre-check gives the verdict of admission, and with it the first reason and the first conflicting input |
| Mempool.Mempool.Remove | src/mempool/mempool.rs:391-407 | exactly the entry goes, and the pool stays consistent |
| Mempool.Mempool.EvictLowest | src/mempool/mempool.rs:410-424 | the lowest-ranked entry goes |
| Mempool.Mempool.MakeRoom | src/mempool/mempool.rs:359-375 | the shortest lowest-ranked prefix goes that makes room, so every survivor outranks every evicted entry |
| Mempool.DensityMeans | src/mempool/mempool.rs:343-347 | the density is floor(fee * 10^6 / cost); a fee beyond 64 bits counts as the largest, and without cost it is 0 |
| Mempool.DensityOrder | src/mempool/mempool.rs:343-347 | more of the fee that counts for the cost never ranks lower |
| Mempool.FeeOrder | src/mempool/mempool.rs:343-347 | so more fee for the cost never ranks lower, unless the fee is beyond what counts and the cost larger |
| Mempool.DensitySaturates | src/mempool/mempool.rs:343-347 | there it can |
| Mempool.DenserStay | src/mempool/mempool.rs:359-375 | nothing that stays is less dense than anything that went |
| Mempool.Mempool.AddValidated | src/mempool/mempool.rs:313-388 | admitted if and only if nothing speaks against it, it has a cost and there is room or it is denser than the bottom; which error else; the new entry has the resolved outputs, both caps hold and the pool stays consistent |
| Mempool.Mempool.RemoveConfirmed | src/mempool/mempool.rs:458-493 | exactly the confirmed entries and those that spend a confirmed outpoint go |
| Mempool.UnaffectedMeans | src/mempool/mempool.rs:458-493 | an entry stays if and only if the block neither confirms it nor spends one of its inputs |
| Mempool.GreedyBounds | src/mempool/mempool.rs:434-455 | what is taken fits the limit, fees do not overflow, and everything comes from the pool |
| Mempool.GreedyTurn | src/mempool/mempool.rs:434-455 | each entry in its turn is taken exactly if it fits what is left, and brings its fee |
| Mempool.LeftOutDidNotFit | src/mempool/mempool.rs:434-455 | an entry is selected or did not fit when its turn came |
| Mempool.DenserFirst | src/mempool/mempool.rs:434-455 | along the ranking the density never rises |
| Mempool.SelectTransactions | src/mempool/mempool.rs:434-455 | the walk from the top of the ranking takes greedily |
| Miner.Partition | src/miner/miner.rs:97-140 | applied and skipped transactions partition the candidates |
| Miner.CandidateTurn | src/miner/miner.rs:97-140 | a candidate is in the template or was invalid or did not apply when its turn came |
| Miner.ChosenPaid | src/miner/miner.rs:97-140 | what is taken is valid one after the other |
| Miner.BehindCoinbase | src/miner/miner.rs:141-175 | behind a fresh coinbase the same transactions are valid with the same fees |
| Miner.TemplateAccepted | src/miner/miner.rs:79-195 | the block is accepted with those fees under the stated conditions |
| Miner.RewardPaid | src/miner/miner.rs:30-45 | the coinbase names the height and pays reward and fees to the script, and once the block is applied the set holds that entry unspent |
| Miner.TryCandidate | src/miner/miner.rs:97-140 | a candidate is taken exactly if valid and applicable, and a failed one leaves no trace |
| Miner.TryAll | src/miner/miner.rs:97-140 | all candidates in order |
| Miner.BuildTemplate | src/miner/miner.rs:79-195 | the template holds the taken candidates behind the coinbase, its roots are right, and block application accepts it with the same fees under the stated conditions |
| MiningRound.BlockApart | src/consensus/validation.rs:1345-1381 | what is applied on an accepted chain repeats no id and no input |
| MiningRound.BodyPasses | src/consensus/validation.rs:1345-1390 | so it passes the rules over the transaction list |
| MiningRound.CoinbaseUnseen | src/consensus/validation.rs:1066-1092 | the coinbase of the next height is new to the chain |
| MiningRound.TemplateExtends | src/miner/miner.rs:79-195 | a template on the chain's own map, target and time extends the chain exactly if its proof of work holds |
| MiningRound.BuildNext | src/main.rs:3800-3898 | one mining round: within the limits the template extends the chain exactly if its proof of work holds, and none is built only past the gap or when the coinbase overflows |
| Events.StepCovers | src/events.rs:201-224 | every step keeps every dropped event covered |
| Events.DropsCovered | src/events.rs:201-224 | in every run with any number of emitters each dropped event is covered by the flag, by an emitter in flight, or by a Resync queued after it |
| Events.QuietMeansTold | src/events.rs:201-224 | once all emitters are idle and the flag is clear, every drop was followed by a Resync |
| Events.QueueExact | src/events.rs:201-224 | the receiver gets exactly what was accepted, in order, within the capacity |
| Events.SingleEmitterResyncs | src/events.rs:201-224 | with at most one emitter the first message accepted after a drop is a Resync |
| Events.EmittersCanOvertake | src/events.rs:201-224 | for every buffer and two or more emitters there is a run in which an event goes in first |
| Events.ResyncFirstIff | src/events.rs:201-224 | in every run the first message after a drop is a Resync, if and only if at most one emitter sends or nothing fits |
| Events.RoutesUnique | src/events.rs:97-143 | the routing table is determined by the subscriptions |
| Events.EventBus.Subscribe | src/events.rs:97-127 | the new subscriber is routed from exactly its scripts |
| Events.EventBus.Unsubscribe | src/events.rs:130-143 | exactly its routes go, and no empty route stays |
| Events.EventBus.SubscribeThenLeave | src/events.rs:97-143 | leaving undoes subscribing |
| ScriptBuilder.Remap | src/covenants/builder.rs:214-228 | remapping keeps the label and maps every child |
| ScriptBuilder.BuiltTopDown | src/covenants/builder.rs:195-212 | in the built program all children have larger indices |
| ScriptBuilder.BuildPreserves | src/covenants/builder.rs:195-212 | turning the arena over changes no tree |
| ScriptBuilder.PushUnfolds | src/covenants/builder.rs:24-28 | a pushed node unfolds over the terms of its children, and every earlier term stays |
| ScriptBuilder.Builder.Push | src/covenants/builder.rs:24-28 | the next index, with everything before unchanged |
| ScriptBuilder.Builder.Build | src/covenants/builder.rs:195-212 | for every bottom-up push sequence the root unfolds to the tree of the last pushed node |
| Htlc.SigCheck | src/covenants/builder.rs:110-129 | the nodes pushed and the tree they stand for |
| Htlc.SigCheckMeans | src/covenants/builder.rs:110-129 | it reads one signature and is true exactly if that is the key's over this transaction |
| Htlc.HashEq | src/covenants/builder.rs:131-142 | the nodes pushed and the tree they stand for |
| Htlc.HashEqMeans | src/covenants/builder.rs:131-142 | it reads one preimage and is true exactly if that hashes to the lock |
| Htlc.HeightGt | src/covenants/builder.rs:144-153 | the nodes pushed and the tree they stand for |
| Htlc.HeightGtMeans | src/covenants/builder.rs:144-153 | it reads nothing and is true exactly above the threshold |
| Htlc.And | src/covenants/builder.rs:171-182 | the nodes pushed and the tree they stand for |
| Htlc.AndMeans | src/covenants/builder.rs:171-182 | a false first part ends it without reading on; otherwise it is the second part |
| Htlc.BuildHtlc | src/covenants/htlc.rs:19-42 | the program of the parameters, and the tree it stands for |
| Htlc.HtlcUnlocks | src/covenants/htlc.rs:3-42 | for every witness and input the output unlocks if and only if the receiver signs with a preimage of the lock, or the sender signs above the timeout |
| Htlc.ClaimAfterTimeout | src/covenants/htlc.rs:4 | the receiver can still claim above the timeout |
| Htlc.TemplateConstants | src/covenants/htlc.rs:187-230 | the constants of the template, in order |
| Htlc.TemplateScans | src/covenants/htlc.rs:187-250 | the scan of the template recovers its parameters |
| Htlc.ScriptsDiffer | src/covenants/htlc.rs:19-42 | different parameters give different scripts |
| Htlc.TryParseHtlc | src/covenants/htlc.rs:187-260 | succeeds with given parameters if and only if the script is byte for byte the one they build |
| ToyWorld.ToyLawful | src/chain/smt.rs:43-58 | there are rules in which ids and leaf keys never collide |
| ToyWorld.ToyLawfulBlocks | src/consensus/validation.rs:1183-1190 | and in which block ids and transaction roots never collide |
| ToyWorld.ToyChainGood | src/consensus/validation.rs:1231-1649 | in them there are chains of up to a thousand blocks that satisfy every block rule |
| Examples.SelfSpendExample | src/chain/storage.rs:1473-1504 | on such a chain, whose last block spends its own output, the disk undo does not lead back |
| Examples.OldestFirstExample | src/chain/storage.rs:1294-1297 | on such a chain, two blocks without self-spend undone newest first lead back and oldest first do not |
| Examples.CollidingBlock | src/consensus/validation.rs:1231-1390 | a block that passes every header rule on such a chain and whose coinbase collides |
| Examples.ConnectTwo | src/network/sync.rs:2573-2609 | connecting a colliding block fails and loses outputs |
| Examples.CollisionExample | src/consensus/validation.rs:1500-1520 | connecting that block fails, and the unspent output of genesis is gone from the set |
| Examples.TrustedExample | src/consensus/validation.rs:1674-1810 | on such a chain, a block that passes every header rule and whose coinbase collides with nothing clashes on the trusted path |
| Examples.GenesisBodyUnchecked | src/chain/open.rs:603-604 | whatever body is stored with genesis, the replay accepts it if it applies and has the state root of the header |
| Examples.GenesisBodyExample | src/chain/open.rs:603-604 | a database that is right but for the witness stored with genesis, which the replay accepts |

## Left out

- Type checks, cost analysis and the program and transaction codecs: functions in `Rules` and `Codec`, with only
  the facts named above; for the codec, that a template decodes to itself.
- Htlc.HtlcUnlocks: the evaluator has no budget, memory or depth limit and no type check of witness values and case
  payloads, each of which can only turn a spend down; its witness is a list of decoded values.
- Which verdict `Rules.scriptsAccept` gives is not tied to the evaluator.
- Ed25519, Argon2id and SHA-256: functions without further properties.
- The storage engine: a write transaction is one atomic step, a table is a map, and a write that serializes
  does not fail; so the undo after a failed commit (src/network/sync.rs:2616-2625) is not modelled.
- Peers, sync and fork choice between candidates, apart from connecting a block to the tip: the arguments of a
  reorg commit are described by `ReorgInv.WellFormed`.
- The HTTP and command line layers, the wallet, bans and the address book, the loading of fork blocks at start.
- Mempool revalidation and address queries, paged UTXO queries and balances.
- The other covenant templates and the other combinator shorthands of the builder.
- The coinbase maturity of a devnet: the model uses the 360 blocks of the network.
- 32-bit node and output indexes: the arena, the builder and outpoints use natural numbers.
- The second check of the assume-valid checkpoint inside the replay loop, which repeats the one before it, and
  the test for a quotient limb above 64 bits, which cannot be one.
- Mempool.Mempool.AddValidated: asks for a transaction no larger than the whole pool, which validation grants.
- UtxoState.UtxoSet.Insert: asks for an outpoint of some transaction, because leaf keys are taken to be distinct
  only on those; every caller in the node has one.
- Boot.ReplayStored: that a replayed chain satisfies every rule is stated where the checkpoint is not used; it asks
  that a stored block that claims height 0 starts with a coinbase.
- Boot.OpenSnapshot: the header rules are stated where neither the checkpoint nor the walk marker is used.
- Headers.MinerAlwaysHasTime: asks for a genesis time that leaves room for 32-bit heights.
- MiningRound.BuildNext: asks for the same, and names version, size, undo budget and total fees as conditions.
