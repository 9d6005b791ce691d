# A verified model of the rollup test harness and its tooling

This Dafny project models the state machines of base/node-reth on which its action tests and release tooling rest, and proves what they promise over every run and every input.

| module | models |
|---|---|
| `L1Chain`, `Miner`, `MinerRuns`, `MinerPointers` | the in-process L1 miner: blocks, receipts, reorgs, safe and finalized pointers, and what holds over every run of calls |
| `Deposit`, `DepositLayout` | the deposit-log encoder, beside the decoder that derivation uses |
| `Mirror` | the shared L1 chain that the providers read, and the blob lookup |
| `TxManager`, `TxManagerRuns`, `TxManagerOrder`, `TxManagerReceipts`, `TxManagerMining`, `TxManagerContents` | the batcher's transaction manager as a concurrent protocol on top of the miner |
| `RollupNode`, `RollupNodeRuns`, `RollupNodeDerived` | the rollup node's three heads under gossip, derivation, finality signals and resets |
| `Engine`, `EngineRuns`, `EngineBuilds` | the engine client's payload lifecycle and block index |
| `TextLines`, `PinDeps`, `PinReth`, `PinRoundTrip`, `PinRefs` | parsing, rewriting and verifying the git pins in `Cargo.toml` |
| `AffectedCrates` | which crates a set of changed files affects |
| `UpgradeGuard` | the exclusive guard on runtime upgrade overrides |
| `BlockMetrics` | per-block attribution of scraped counters |

Code that updates fields or loops is a class or a method with loops, proved equal to a function of the old state; the theorems are about those functions. A run is a sequence of steps, each one locked section or one call, chosen freely by the environment, so a theorem about runs covers every interleaving.

## How the model reads the code

- Header, block and transaction hashes are injective on the modelled fields. An L1 header does not commit to its transactions, so that an L1 hash identifies a block is a theorem here and not an assumption. An L2 header does commit to them, so an L2 block's epoch is a function of its header.
- Fork counters, nonces, payload counters and block numbers are unbounded naturals. Measurements are exact reals.
- Signing, signature recovery, the logs bloom, block building, database errors, the derivation pipeline, HTTP scrapes, `git` and `cargo` are the environment's: their answers are arguments, chosen anew at each call.
- A documented panic of the miner and the manager is a `requires` of the method, and in runs a step that changes nothing. A state-root mismatch in the engine is the answer `Aborted` beside the state the panic leaves; runs may go on from it, so what holds of all runs of the model holds of all runs of the code, which stops there.
- The debug assertion on an unknown parent hash in the engine is not a precondition: the model takes the fallback to genesis that follows it.
- `send_async` is three steps, one for each time it takes the lock, with signing in between.
- In runs of the transaction manager anyone may call the miner and submit anything, under the manager's key too, as tests and a second manager do. Confirmation is asked only for blocks of the same miner. While `mine_block` borrows the miner, other tasks can still send, drop, cancel and inject.
- The mirror of the L1 chain finds blocks by position. What is pushed onto it are blocks of the miner at their own height, in any order with miner calls and truncations.
- The last poll of the metrics collector is the end of the list of polls.
- URL normalization in the pin tooling is an arbitrary function.

Where the code does less than its documentation or its evident purpose, the model follows the code, and a lemma shows the failing input beside the exact condition:

- The finalized L1 pointer can end up above the safe one (`FinalizedCanPassSafe`; exactly when: `FinalizedBelowSafeIff`).
- Overlapping sends can queue out of nonce order (`OverlappingSendsCanQueueOutOfOrder`; exactly when: `RunInOrderIff`).
- Another holder of the manager's key can have a handle confirmed before its own submission is mined (`ForeignReceiptCanConfirm`; exactly when: `ConfirmableWhileQueuedIff`, `SubmittedExactlyOnce`).
- A reset to a block off the safe chain leaves the L2 provider stale (`ForeignResetGoesStale`; exactly when: `ProviderAgreesIff`, `ProviderIsChainIff`).
- Looking up a block's info and its header by number can name different blocks (`InfoLookupCanBeStale`; exactly when: `InfoLookupAgreesIff`).
- Rewriting pins merges lines that end in a form feed or another separator without a line feed (`FormFeedIsNotFaithful`; exactly when: `RewriteIsFaithfulIff`).
- A counter named like a distribution's average is shadowed by it, and a restarted counter is counted in full (`ShadowedCounterDoesNotAddUp`; exact account: `TotalIsAccountedFor`, `BlocksAddUpIff`).

## Model

| member | source | states |
|---|---|---|
| `L1Chain.BuildTransactionReceipts` | actions/harness/src/l1/miner.rs:744-801 | the one-pass builder with its running log count numbers each transaction's logs after all logs of the transactions before it |
| `L1Chain.LogIndicesCount` | actions/harness/src/l1/miner.rs:704-801 | over any prefix of a block the RPC log indices count 0, 1, 2, … without gap or repeat over exactly the consensus logs |
| `L1Chain.BuiltReceiptsAligned` | actions/harness/src/l1/miner.rs:704-801 | bodies, consensus receipts and RPC receipts line up index by index and cumulative gas is 21000 times (index + 1) |
| `Miner.ApplyValid` | actions/harness/src/l1/miner.rs:486-695 | every call keeps the chain numbered from genesis, parent-linked, evenly timed and receipt-aligned, with safe and finalized on the chain |
| `Miner.NextBlockAligned` | actions/harness/src/l1/miner.rs:645-684 | the block mined from any queue is receipt-aligned |
| `Miner.FinalizedStaysBelowSafeUnless` | actions/harness/src/l1/miner.rs:486-521 | a call keeps finalized at or below safe if and only if it does not set the safe pointer below the finalized one |
| `Miner.L1Miner.constructor` | actions/harness/src/l1/miner.rs:242-262 | a fresh miner holds only genesis, with empty queues |
| `Miner.L1Miner.SubmitTransaction` | actions/harness/src/l1/miner.rs:606-623 | appends to the queue and changes nothing else |
| `Miner.L1Miner.EnqueueLogWithStatus` | actions/harness/src/l1/miner.rs:279-290 | queues the log as a transaction of the event signer under a nonce that is then used up |
| `Miner.L1Miner.EnqueueSidecar` | actions/harness/src/l1/miner.rs:297-299 | appends to the blob queue and changes nothing else |
| `Miner.L1Miner.MineBlock` | actions/harness/src/l1/miner.rs:645-695 | appends exactly one block with all that is queued, on the tip's hash and stamped with the fork counter, and empties both queues |
| `Miner.L1Miner.ReorgTo` | actions/harness/src/l1/miner.rs:552-567 | refuses a target beyond the tip without effect; otherwise cuts the chain there, returns the cut blocks, raises the fork counter by one, lowers safe to the target if it was above and finalized to safe if it was above |
| `Miner.L1Miner.ActSafeNext` | actions/harness/src/l1/miner.rs:486-488 | moves safe up by one, at most to the tip |
| `Miner.L1Miner.ActFinalizeNext` | actions/harness/src/l1/miner.rs:491-493 | moves finalized up by one, at most to safe |
| `Miner.L1Miner.ActSafe` | actions/harness/src/l1/miner.rs:500-507 | sets safe to any height on the chain |
| `Miner.L1Miner.ActFinalize` | actions/harness/src/l1/miner.rs:514-521 | sets finalized to any height up to safe |
| `MinerRuns.ReachableValid` | actions/harness/src/l1/miner.rs:486-695 | the chain invariant holds after every sequence of calls |
| `MinerRuns.FinalizedBelowSafeIff` | actions/harness/src/l1/miner.rs:486-521 | finalized stays at or below safe throughout a run if and only if safe is never set below finalized |
| `MinerRuns.FinalizedCanPassSafe` | actions/harness/src/l1/miner.rs:500-507 | some run leaves the finalized pointer above the safe one |
| `MinerRuns.ForksNeverShareHashes` | actions/harness/src/l1/miner.rs:552-567 | at any two moments of any run the chains share the blocks up to the lower of the earlier tip and the lowest reorg target in between, and no block hash at any higher height |
| `MinerRuns.MiningOrder` | actions/harness/src/l1/miner.rs:645-684 | over all blocks ever mined, fork counter and height together strictly increase |
| `MinerRuns.MinedIsKeptOrDiscarded` | actions/harness/src/l1/miner.rs:552-567 | as multisets, the blocks ever mined are the canonical ones after genesis plus the discarded ones |
| `MinerRuns.HashIdentifiesBlock` | actions/harness/src/l1/miner.rs:659-684 | over everything one miner ever mined, kept or discarded, equal hashes mean equal blocks, transactions and blobs included |
| `MinerRuns.DiscardedHashIsGone` | actions/harness/src/l1/miner.rs:552-567 | the hash of a discarded block is on no later chain of the run |
| `MinerRuns.SubmissionsAreMinedInOrder` | actions/harness/src/l1/miner.rs:645-684 | read in mining order, the contents of all blocks ever mined followed by the queue are exactly what was submitted, and likewise for blobs |
| `MinerRuns.SubmissionsAreConserved` | actions/harness/src/l1/miner.rs:552-695 | as multisets, what was ever submitted is the queue plus the canonical blocks plus the discarded blocks |
| `MinerPointers.PointersMove` | actions/harness/src/l1/miner.rs:486-567 | only `act_l1_safe_next` and `act_l1_safe` raise safe, by one or to the named height, up to the tip; a reorg below it puts it on the target and leaves it otherwise; finalized goes up only to safe and comes down to safe when a call finds it above |
| `MinerPointers.ReorgKeepsMarks` | actions/harness/src/l1/miner.rs:558-562 | after a reorg exactly the safe blocks still on the chain are safe, and exactly the finalized ones among these are final |
| `MinerPointers.SafeWasMarked` | actions/harness/src/l1/miner.rs:486-567 | in every run a block at or below the safe pointer was marked safe by a call meant to, while on the chain, and has been on the chain and safe ever since |
| `MinerPointers.FinalizedWasMarked` | actions/harness/src/l1/miner.rs:491-567 | in every run a block at or below the finalized pointer was finalized by a call meant to, while safe, and has been at or below the pointer ever since |
| `MinerPointers.ForkIdCounts` | actions/harness/src/l1/miner.rs:552-562 | the fork counter is the number of reorgs carried out so far |
| `MinerPointers.EventIsQueued` | actions/harness/src/l1/miner.rs:279-290 | an event is queued as an empty call of the event signer to the emitting contract, with exactly its log and status, under the number of events before it as nonce |
| `MinerPointers.EventsAreDistinct` | actions/harness/src/l1/miner.rs:279-290 | no two events of a run share a transaction hash, even with equal logs |
| `MinerPointers.MinedBlockIs` | actions/harness/src/l1/miner.rs:645-695 | a mined block stands at the height of the chain length, at genesis time plus that many block times, on the tip, with the bloom, base fee and number of reorgs so far, and holds the queue transaction by transaction and the blobs |
| `MinerPointers.GenesisIs` | actions/harness/src/l1/miner.rs:242-262 | every chain of a run starts with the empty block at the configured time |
| `MinerPointers.LogsSayWhereTheyStand` | actions/harness/src/l1/miner.rs:744-801 | in every block ever mined each RPC log is the consensus log at its place and carries its own block, transaction and index, and each receipt 21000 gas |
| `Deposit.CopyInto` | actions/harness/src/l1/miner.rs:413-440 | one field write at an offset stays inside the buffer and leaves the bytes before it and the zeros after it |
| `Deposit.EncodeLogData` | actions/harness/src/l1/miner.rs:413-440 | filling the buffer field by field at absolute offsets never leaves it and yields the ABI layout |
| `Deposit.EnqueueUserDeposit` | actions/harness/src/l1/miner.rs:413-450 | queues the deposit event with the selector, both addresses and version 0 as topics |
| `Deposit.LogDataShape` | actions/harness/src/l1/miner.rs:413-440 | the log data is two header words and the opaque bytes, zero-padded to whole words |
| `Deposit.OpaqueRoundTrip` | crates/consensus/protocol/src/deposits.rs:218-267 | mint, value, gas limit, recipient and calldata read back from the opaque bytes |
| `Deposit.DepositRoundTrip` | crates/consensus/protocol/src/deposits.rs:38-148 | the production decoder recovers every deposit from the log the encoder builds for it |
| `Deposit.DepositLogInjective` | actions/harness/src/l1/miner.rs:413-450 | distinct deposits give distinct logs |
| `DepositLayout.LogDataLayout` | actions/harness/src/l1/miner.rs:413-440 | read as big-endian numbers at absolute offsets, the log data is 32, the opaque length, mint, value and gas limit, then a zero, the calldata, and zeros to a whole word |
| `DepositLayout.DepositTopics` | actions/harness/src/l1/miner.rs:430-447 | the topics are, as numbers, the event selector, the sender, the recipient and zero, on the deposit contract |
| `DepositLayout.FromBigEndianIsWeighted` | crates/consensus/protocol/src/deposits.rs:218-267 | numbers are read with the first byte the most significant |
| `DepositLayout.DecodesExactlyDepositEvents` | crates/consensus/protocol/src/deposits.rs:38-148 | the decoder accepts a log if and only if it is a version-zero deposit event with padded addresses, a 64-bit length and zero padding, and yields exactly the fields that stand there |
| `Mirror.SharedL1Chain.FromBlocks` | actions/harness/src/l1/provider.rs:21-23 | a mirror starts with the given blocks |
| `Mirror.SharedL1Chain.Push` | actions/harness/src/l1/provider.rs:26-28 | appends one block |
| `Mirror.SharedL1Chain.TruncateTo` | actions/harness/src/l1/provider.rs:34-36 | keeps exactly the blocks up to the given number |
| `Mirror.BlockByHash` | actions/harness/src/l1/provider.rs:49-51 | an answer is a mirrored block with that hash; no answer means there is none |
| `Mirror.FindBlob` | actions/harness/src/l1/blob.rs:46-57 | an answer is one of the sidecars under that hash; no answer means there is none |
| `Mirror.GetAndValidateBlobs` | actions/harness/src/l1/blob.rs:31-60 | one blob per requested hash in order, all from the block with the named number and hash; an error for a missing or different block, or for the first hash that block lacks |
| `Mirror.RunMirrored` | actions/harness/src/l1/provider.rs:17-57 | in every run of miner calls, truncations and pushes of any block the miner ever mined at its own height, onto a stale mirror too, each mirrored block stands at its own number and came from the miner, and the part not outdated by a reorg agrees with its chain |
| `Mirror.PushKeepsHeightsIff` | actions/harness/src/l1/provider.rs:25-28 | a push keeps every mirrored block at its own height if and only if the pushed block's number is the next position |
| `Mirror.InSyncIsPrefix` | actions/harness/src/l1/provider.rs:26-36 | a mirror without stale blocks is a prefix of the miner's chain |
| `Mirror.LookupsAgree` | actions/harness/src/l1/provider.rs:39-51 | at every moment of every such run, for every block the miner ever mined, lookup by hash, lookup by number and the number-and-hash check give that block if it is mirrored and nothing otherwise, whether it or the mirror is stale or not |
| `Mirror.ProvidersAnswer` | actions/harness/src/l1/provider.rs:125-166 | at every moment of every such run the provider answers for a mirrored block with exactly its header, info, receipts and transactions, for any other block ever mined with nothing, and for a height exactly if the mirror reaches it |
| `Mirror.TruncateKeeps` | actions/harness/src/l1/provider.rs:34-36 | truncating keeps, in order, exactly the mirrored blocks up to the number |
| `Mirror.FindBlobIsFirst` | actions/harness/src/l1/blob.rs:46-57 | of several sidecars under one hash the first is found |
| `Mirror.ReorgedOutBlocksAreGone` | actions/harness/src/l1/blob.rs:36-59 | on a mirror without stale blocks, header, transactions, receipts and blobs of a reorged-out block are not found |
| `TxManager.ReceiptIffIncluded` | actions/harness/src/batcher/tx_manager.rs:226-246 | in an aligned block a submission has a receipt exactly if the block contains its transaction, and it is the one at the transaction's first index |
| `TxManager.StillStagedIn` | actions/harness/src/batcher/tx_manager.rs:226-246 | a submission keeps waiting exactly if it was waiting and has no receipt in the block |
| `TxManager.ConfirmationsIn` | actions/harness/src/batcher/tx_manager.rs:226-246 | the answers sent are exactly those of waiting submissions with a receipt in the block |
| `TxManager.L1MinerTxManager.constructor` | actions/harness/src/batcher/tx_manager.rs:114-122 | a fresh manager has nothing queued and nonce 0 |
| `TxManager.L1MinerTxManager.FailNextN` | actions/harness/src/batcher/tx_manager.rs:159-161 | adds to the failures still to be injected |
| `TxManager.L1MinerTxManager.BlockNextN` | actions/harness/src/batcher/tx_manager.rs:177-179 | adds to the rejections still to be injected |
| `TxManager.L1MinerTxManager.CancelTx` | actions/harness/src/batcher/tx_manager.rs:444-453 | counts one cancellation and touches no submission |
| `TxManager.L1MinerTxManager.DropN` | actions/harness/src/batcher/tx_manager.rs:193-198 | removes the first `n` pending submissions, or all if fewer, and closes their responders unanswered |
| `TxManager.L1MinerTxManager.SendAdmit` | actions/harness/src/batcher/tx_manager.rs:402-417 | injected failures go before injected rejections, one per send |
| `TxManager.L1MinerTxManager.SendAllocateNonce` | actions/harness/src/batcher/tx_manager.rs:419-424 | hands out the next nonce and uses it up |
| `TxManager.L1MinerTxManager.SendEnqueue` | actions/harness/src/batcher/tx_manager.rs:434-437 | appends the signed submission to the pending queue |
| `TxManager.L1MinerTxManager.SendAsync` | actions/harness/src/batcher/tx_manager.rs:401-438 | an uninterrupted send is rejected, or uses up one nonce and then either queues the submission or answers with the signing error; what is queued carries the candidate field by field under the next nonce |
| `TxManager.L1MinerTxManager.StageNToL1` | actions/harness/src/batcher/tx_manager.rs:204-216 | the first `n` pending submissions go in order to the staged buffer and, each envelope before its blobs, to the miner's queues |
| `TxManager.L1MinerTxManager.ConfirmBlock` | actions/harness/src/batcher/tx_manager.rs:226-254 | answers exactly the staged submissions with a receipt, keeps the others in order, and announces the head last |
| `TxManager.L1MinerTxManager.ReorgTo` | actions/harness/src/batcher/tx_manager.rs:287-303 | cuts the chain, fails every pending and then every staged submission, and only then announces the head |
| `TxManager.L1MinerTxManager.MineBlock` | actions/harness/src/batcher/tx_manager.rs:324-330 | stages everything pending, mines one block of it and answers what the block includes |
| `TxManagerRuns.EveryHandleInOnePlace` | actions/harness/src/batcher/tx_manager.rs:193-303 | in every interleaving, whatever others do with the miner, each handle handed out is exactly once in flight, pending, staged or decided, so none is lost or answered twice |
| `TxManagerRuns.ConfirmSplits` | actions/harness/src/batcher/tx_manager.rs:226-246 | a confirmation splits the staged handles, with multiplicity, into those that keep waiting and those answered |
| `TxManagerOrder.RunSentInOrder` | actions/harness/src/batcher/tx_manager.rs:226-303 | in every interleaving what a section has sent is a prefix of what it decided, in order |
| `TxManagerOrder.FailuresBeforeNewHead` | actions/harness/src/batcher/tx_manager.rs:287-303 | when a reorg's new-head event is sent, exactly one RPC failure has been sent for each submission that was waiting, pending before staged |
| `TxManagerOrder.SectionsOwe` | actions/harness/src/batcher/tx_manager.rs:193-303 | a drop owes the closing of what it drops, a confirmation only receipts, a reorg one RPC failure for each waiting submission, pending first; the last two then owe the new head exactly if heads are published |
| `TxManagerOrder.StaysInOrderIff` | actions/harness/src/batcher/tx_manager.rs:401-438 | from queued nonces in order, a step keeps staged followed by pending strictly increasing in nonce if and only if it enqueues no nonce that is not above all queued ones |
| `TxManagerOrder.RunInOrderIff` | actions/harness/src/batcher/tx_manager.rs:401-438 | the queue is in nonce order throughout a run if and only if every submission is enqueued when only lower nonces are queued, whether sends overlap or not |
| `TxManagerOrder.SequentialSendsQueueInOrder` | actions/harness/src/batcher/tx_manager.rs:401-438 | sends that do not overlap meet that condition: in such runs staged followed by pending is strictly increasing in nonce |
| `TxManagerOrder.OverlappingSendsCanQueueOutOfOrder` | actions/harness/src/batcher/tx_manager.rs:401-438 | two overlapping sends can break it: a run that enqueues the later nonce first ends out of order |
| `TxManagerReceipts.RunSound` | actions/harness/src/batcher/tx_manager.rs:204-254 | in every run nonces name handles uniquely, the manager's own submissions to the miner are the staged handles' envelopes in staging order, and no handle is staged twice |
| `TxManagerReceipts.SubmittedExactlyOnce` | actions/harness/src/batcher/tx_manager.rs:204-216 | a staged handle's envelope reaches the miner once from the manager and once for each foreign submission of it, so exactly once over the whole run if and only if nobody else submitted an equal envelope |
| `TxManagerReceipts.ReceiptsNeverCross` | actions/harness/src/batcher/tx_manager.rs:226-301 | whatever others submit, under the manager's key too, a confirmed handle is answered with a receipt that stands beside an envelope equal to its own and is that of no other handle, so a transaction left queued by a reorg never confirms the resubmitted frame; and unless somebody else submitted an equal envelope, the handle's own submission has been mined |
| `TxManagerReceipts.ConfirmableWhileQueuedIff` | actions/harness/src/batcher/tx_manager.rs:226-246 | at any moment of any run, a staged submission that is itself still queued at the miner can be confirmed by some block, if and only if somebody else's submission of an equal envelope has been mined |
| `TxManagerReceipts.ForeignReceiptCanConfirm` | actions/harness/src/batcher/tx_manager.rs:226-246 | if another holder of the key has submitted an equal envelope, its receipt confirms the handle while the handle's own submission is still queued |
| `TxManagerMining.IncludedOnce` | actions/harness/src/batcher/tx_manager.rs:324-330 | unless somebody else submitted an equal envelope, a staged or pending submission's envelope stands at most once in the block mined from here |
| `TxManagerMining.StagedIsQueuedOrMined` | actions/harness/src/batcher/tx_manager.rs:204-254 | a staged submission is still queued at the miner or was mined earlier |
| `TxManagerMining.InterleavedMining` | actions/harness/src/batcher/tx_manager.rs:324-330 | any sends, drops and injections between the locked sections of a `mine_block` leave its effect that of the uninterrupted call |
| `TxManagerMining.MineBlockAnswersEverythingQueued` | actions/harness/src/batcher/tx_manager.rs:324-330 | in every run, with other tasks' sends between its sections, mining adds one block, answers every submission pending when it staged and every staged one still queued with the receipt at the first index of its envelope in the block, its only one unless somebody else submitted an equal envelope, leaves staged exactly those mined earlier and not queued, in order, and leaves what arrived meanwhile pending |
| `TxManagerContents.SubmissionsCarryTheirCandidates` | actions/harness/src/batcher/tx_manager.rs:334-394 | in every interleaving everything in flight, issued, pending or staged carries what its own handle was asked to send: signer, chain, recipient or else inbox, value, gas limit but at least 21000, calldata, blob hashes and blobs |
| `TxManagerContents.ConfirmedCarriesCandidate` | actions/harness/src/batcher/tx_manager.rs:226-246 | the transaction beside a confirming receipt carries what the confirmed handle was asked to send |
| `TxManagerContents.NoncesCountSends` | actions/harness/src/batcher/tx_manager.rs:419-424 | in every interleaving the nonce of a send is its place in the order of numbering, from zero without gap or repeat |
| `TxManagerContents.OwnSubmissionsArePlain` | actions/harness/src/batcher/tx_manager.rs:204-216 | what the manager submits to the miner is the signed envelope of a handle, to succeed and without logs |
| `TxManagerContents.BlobsTravelWithTheirTransaction` | actions/harness/src/batcher/tx_manager.rs:204-216 | in every interleaving with the miner a staged transaction and all blobs it was asked to carry wait there together or were mined in one block |
| `TxManagerContents.InjectedErrorsComeFirst` | actions/harness/src/batcher/tx_manager.rs:401-417 | with `f` failures and `b` rejections injected, the next `f` sends fail, the next `b` are rejected and later ones go in, whatever else interleaves |
| `TxManagerContents.ControlsMove` | actions/harness/src/batcher/tx_manager.rs:159-179 | injected errors and cancellations change only by the step meant for it and by exactly what it says |
| `TxManagerContents.UninterruptedSend` | actions/harness/src/batcher/tx_manager.rs:401-438 | the steps of one send taken without interruption do what the uninterrupted send is stated to do |
| `RollupNode.TestRollupNode.constructor` | actions/harness/src/node.rs:184-215 | all three heads start at genesis, which the provider holds |
| `RollupNode.TestRollupNode.TryNextUnsafeBlock` | actions/harness/src/p2p.rs:148-156 | returns the first validly signed payload and removes it and all before it, or empties the queue |
| `RollupNode.TestRollupNode.DrainGossip` | actions/harness/src/node.rs:625-653 | terminates with an empty queue and the head that following every payload in turn gives |
| `RollupNode.TestRollupNode.ActL2UnsafeGossipReceive` | actions/harness/src/node.rs:423-451 | advances the unsafe head exactly on the next number |
| `RollupNode.TestRollupNode.TryFinalizePending` | actions/harness/src/node.rs:358-373 | the search from the end of the history finds the last entry within the retained signal and never moves the finalized head back |
| `RollupNode.TestRollupNode.ActL1FinalizedSignal` | actions/harness/src/node.rs:349-355 | ignores a signal below the retained one; otherwise retains it and retries finalization |
| `RollupNode.TestRollupNode.ActL1SafeSignal` | actions/harness/src/node.rs:343-346 | records the safe L1 number and nothing else |
| `RollupNode.TestRollupNode.CountUserTxs` | actions/harness/src/node.rs:663-680 | counts the transactions that are not deposits |
| `RollupNode.TestRollupNode.RecordDerived` | actions/harness/src/node.rs:663-705 | records counts and history for the derived block and makes it the safe head, with its epoch and sequence number; the new safe head stands for the attributes on the old one |
| `RollupNode.TestRollupNode.ExecuteAndAdvance` | actions/harness/src/node.rs:663-750 | records the block, retries finalization, and pulls the unsafe head up to the safe one |
| `RollupNode.TestRollupNode.ActReset` | actions/harness/src/node.rs:381-409 | sets all three heads to the target and clears the records, keeping the retained signal, the provider and the queue |
| `RollupNodeRuns.SafeHistoryIsLinked` | actions/harness/src/node.rs:663-728 | in every run the safe history is a gap-free parent-hash chain from the reset point, and each sequence number is the distance to the start of its run of equal L1 origins, plus the reset point's if the run reaches it |
| `RollupNodeRuns.FinalizeMeetsSpecification` | actions/harness/src/node.rs:358-373 | one retry reaches the highest settled block from any settled or reset finalized head |
| `RollupNodeRuns.FinalizedHeadIsAsSpecified` | actions/harness/src/node.rs:349-393 | in every run the finalized head is the highest block derived since the last reset from an L1 origin at or below the largest signal ever received, or else the reset point |
| `RollupNodeRuns.OrderOfSignalsDoesNotMatter` | actions/harness/src/node.rs:349-373 | two runs with the same reset point, derived history and signals in any order end with the same finalized head |
| `RollupNodeRuns.HeadsAreOrdered` | actions/harness/src/node.rs:358-393 | in every run finalized <= safe <= unsafe by number, and the finalized head is the reset point or in the safe history |
| `RollupNodeRuns.DerivedBlocksAreRecorded` | actions/harness/src/node.rs:318-328 | a derived-block summary exists exactly for the heights after the reset point up to the safe head, with the counts of the attributes that block came from |
| `RollupNodeRuns.ProviderFollowsSafeChain` | actions/harness/src/providers/l2.rs:89-118 | while every reset goes to a block of the current safe chain, that chain is parent-hash linked from genesis to the safe head and lookup by number gives its block at every height, though entries above a reset point stay |
| `RollupNodeRuns.AgreesStepIff` | actions/harness/src/node.rs:381-409 | from agreement, a step keeps the provider in agreement with the safe chain if and only if it does not reset to a block the provider does not hold at its height |
| `RollupNodeRuns.HeldIffOnChain` | actions/harness/src/node.rs:381-409 | within the heights of an agreeing safe chain, a block is held exactly if it is on that chain |
| `RollupNodeRuns.ProviderAgreesIff` | actions/harness/src/node.rs:381-409 | the provider agrees with the safe chain throughout a run if and only if every reset goes to a block it holds |
| `RollupNodeRuns.ProviderIsChainIff` | actions/harness/src/providers/l2.rs:89-118 | read by itself from genesis to the safe head, the provider is a parent-hash chain throughout a run if and only if every reset goes to a held block from genesis on, over linked entries if it goes up |
| `RollupNodeRuns.ForeignResetGoesStale` | actions/harness/src/node.rs:381-409 | a reset to another block leaves the provider answering with the abandoned one |
| `RollupNodeRuns.DrainAcceptsConsecutive` | actions/harness/src/node.rs:625-653 | the accepted payloads are validly signed, numbered consecutively from the unsafe head on, and the last of them is the new head |
| `RollupNodeRuns.InvalidSignaturesMakeNoDifference` | actions/harness/src/p2p.rs:135-156 | removing all invalidly signed payloads first gives the same head |
| `RollupNode.UserTxCountIs` | actions/harness/src/node.rs:671 | the user transactions are those that are empty or do not start with byte 0x7E |
| `RollupNodeDerived.DerivedBlocksStandForAttributes` | actions/harness/src/node.rs:663-705 | in every run each block since the reset has the number and time of the attributes it was derived from, the hash the engine answered, and as L1 origin their decoded epoch, else the block they were derived from, else zero |
| `RollupNodeDerived.FinalizedHeadFollowsAttributes` | actions/harness/src/node.rs:349-373 | in every run the finalized head stands for the last attributes since the reset whose L1 block is at or below some finality signal ever received, or is the reset point |
| `RollupNodeDerived.FinalizeOnlyAdvances` | actions/harness/src/node.rs:358-373 | from any state a retry leaves the finalized head or moves it up to a block of the history within the signal |
| `RollupNodeDerived.DerivedBlockCounts` | actions/harness/src/node.rs:318-328 | a height has a summary exactly since the reset, with the number of its transactions and of the user transactions among them |
| `RollupNodeDerived.EpochsAreRecorded` | actions/harness/src/node.rs:674-676 | in every run the recorded L1 infos are those of the attributes since the reset that have one, by increasing height |
| `RollupNodeDerived.DrainFollows` | actions/harness/src/node.rs:625-653 | payloads are taken in order, each exactly if it is signed as required and is the next block, and become the unsafe head with their own fields, counted within their epoch |
| `RollupNodeDerived.UnsafeMoves` | actions/harness/src/node.rs:381-451 | a reset sets the unsafe head, derivation replaces it once it catches up, gossip extends it, and nothing else moves it |
| `RollupNodeDerived.UnsafeHeadMeetsSafeHead` | actions/harness/src/node.rs:724-728 | in every run the unsafe head is above the safe head or is the safe head |
| `RollupNodeDerived.DeliveredIsKept` | actions/harness/src/node.rs:343-409 | a reset forgets the safe L1 number and keeps the queue, and only a drain takes payloads off it |
| `Engine.ActionEngineClient.constructor` | actions/harness/src/engine.rs:267-299 | a fresh client has executed nothing and issued no payload |
| `Engine.ActionEngineClient.FindByHash` | actions/harness/src/engine.rs:735-745 | whatever order the map yields its headers in, the search finds the header with the hash if and only if there is one |
| `Engine.ActionEngineClient.BuildPayload` | actions/harness/src/engine.rs:370-437 | the builder's answer on the executed header with the named hash, and on genesis if no executed header has it |
| `Engine.ActionEngineClient.CommitBuiltPayload` | actions/harness/src/engine.rs:440-536 | a known block changes nothing; each failure leaves exactly what was written before it; success writes receipts, registry, header and info |
| `Engine.ActionEngineClient.ExecuteV1Inner` | actions/harness/src/engine.rs:543-590 | a stored block with the payload's hash, or any stored block for a zero hash, is returned without executing |
| `Engine.ActionEngineClient.ExecuteAttributes` | actions/harness/src/engine.rs:603-624 | a stored number is returned without executing; otherwise the block is built and committed |
| `Engine.ActionEngineClient.BuildPayloadInner` | actions/harness/src/engine.rs:630-641 | a build that succeeds is kept pending under the counter, which goes up by one |
| `Engine.ActionEngineClient.TakePending` | actions/harness/src/engine.rs:674-683 | returns and removes the payload, or fails without effect |
| `Engine.ActionEngineClient.GetSealedPayload` | actions/harness/src/engine.rs:1003-1018 | moves the payload from pending to sealed under its block hash |
| `Engine.ActionEngineClient.InsertUnsafePayload` | actions/harness/src/engine.rs:1020-1050 | commits the sealed block of that hash or executes the payload, and moves the head only on success |
| `Engine.ActionEngineClient.ForkChoiceUpdated` | actions/harness/src/engine.rs:874-899 | moves the head to an executed block, and builds if attributes are given |
| `EngineRuns.LookupsCoincide` | actions/harness/src/engine.rs:720-750 | at every moment header and info maps share keys and agree on number and hash, and a block is found by number exactly if it is found by hash |
| `EngineRuns.IdsAreNeverReissued` | actions/harness/src/engine.rs:630-641 | a later call always hands out a larger payload ID |
| `EngineRuns.PayloadsAreTakenOnce` | actions/harness/src/engine.rs:674-683 | a payload taken out once cannot be taken again |
| `EngineRuns.TakenIsWhatWasBuilt` | actions/harness/src/engine.rs:630-683 | what comes out for an ID is what was built when it was issued, whatever calls came between |
| `EngineRuns.SealedPayloadBecomesHead` | actions/harness/src/engine.rs:1003-1050 | a payload sealed and later inserted, with any other calls in between, makes exactly its block the head and the stored block at its number, until a call moves the head; it fails exactly on a database error, a state-root mismatch or an undecodable epoch |
| `EngineRuns.InsertingAgainChangesNothing` | actions/harness/src/engine.rs:440-456 | inserting the same payload again gives the same answer and the same state |
| `EngineRuns.ForkChoiceMakesHead` | actions/harness/src/engine.rs:874-899 | a fork choice makes the named block the head if it is executed and otherwise leaves the head |
| `EngineRuns.InfosStayInAgreementIff` | actions/harness/src/engine.rs:801-821 | from agreement of the info and header lookups, a call keeps them in agreement if and only if it does not store another block at the head's height and leave the head; of the calls that store a block only an insert moves the head, and only if its payload was sealed here, or its number is in the index or is the stored block's |
| `EngineRuns.InfoLookupAgreesIff` | actions/harness/src/engine.rs:801-821 | the two lookups name the same block at every executed height throughout a run if and only if no call of it does that |
| `EngineRuns.InfoLookupCanBeStale` | actions/harness/src/engine.rs:801-821 | executing a second block at the head's height makes the two lookups differ |
| `EngineBuilds.IssuedIsBuilt` | actions/harness/src/engine.rs:370-437 | a call that hands out an ID files under it the builder's answer on the executed header with the hash it names, or on genesis if no executed header has it |
| `EngineBuilds.TakenWasBuiltOnItsParent` | actions/harness/src/engine.rs:370-437 | what comes out for an ID, whatever calls came between, is that answer |
| `EngineBuilds.IdsCountUp` | actions/harness/src/engine.rs:630-641 | an ID is the number of IDs handed out before |
| `EngineBuilds.EverythingWasBuilt` | actions/harness/src/engine.rs:370-536 | at every moment of every run all that is pending, sealed or executed and every entry of receipts is the builder's answer to an earlier call on the parent that call named |
| `EngineBuilds.InfosDescribeHeaders` | actions/harness/src/engine.rs:526-535 | at every moment each executed height has an info with its header's number, hash, parent and time, and the decoded epoch, or at genesis the configured one |
| `EngineBuilds.ExecuteAnswers` | actions/harness/src/engine.rs:543-590 | executing a payload answers with the hash of the block then executed at its number: the one there if the payload names it or no hash, else the builder's answer on its parent; a failure leaves the executed blocks |
| `EngineBuilds.ExecuteAttrsAnswers` | actions/harness/src/engine.rs:603-624 | the same for attributes, with the block already at the number taken as it is |
| `EngineBuilds.ExecutingAgainChangesNothing` | actions/harness/src/engine.rs:543-566 | executing again under the answered hash gives the same answer and changes nothing |
| `EngineBuilds.InsertAnswersHead` | actions/harness/src/engine.rs:1020-1050 | a successful insert answers with the new head, which is the info of the sealed block or of the payload's number |
| `EngineBuilds.RootsNeverChange` | actions/harness/src/engine.rs:517-524 | without outside writes to the registry the block executed at a height is never replaced by one with another state root |
| `EngineBuilds.CommitAbortsIff` | actions/harness/src/engine.rs:517-522 | a commit aborts if and only if the block is new, its database write succeeds and its number is registered with another state root |
| `EngineBuilds.CommitRegisters` | actions/harness/src/engine.rs:440-524 | a commit enters hash and root in the registry unless the block is known, the database fails or the root differs |
| `EngineBuilds.CommitFilesReceipts` | actions/harness/src/engine.rs:459-515 | receipts are filed under the number exactly of a new block that comes with them and whose database write succeeds |
| `TextLines.LinesAreWellSplit` | etc/scripts/local/pin-reth.py:264-284 | splitting with kept ends loses nothing, and every line but the last is terminated |
| `TextLines.LinesOfConcat` | etc/scripts/local/pin-reth.py:264-284 | joining well-split lines and splitting again gives the same lines |
| `TextLines.FewerLines` | etc/scripts/local/pin-reth.py:271-284 | a line that loses its terminator runs into the next one and the text has fewer lines |
| `PinDeps.ReadOfWrite` | etc/scripts/local/pin-reth.py:36-41 | the dependency-line grammar reads back every written dependency whose repository and ref are nonempty and free of quotes and line breaks |
| `PinReth.SpanCuts` | etc/scripts/local/pin-reth.py:206-215 | the span starts at the first header, contains no other section start, and ends at one or at the end of the text |
| `PinReth.CutIsSpan` | etc/scripts/local/pin-reth.py:206-215 | any such cut of a text is the span |
| `PinReth.ParseGitDeps` | etc/scripts/local/pin-reth.py:218-250 | the loop over lines yields the dependencies in order, the error of the first refused line, or an error for none |
| `PinReth.RewriteGitDeps` | etc/scripts/local/pin-reth.py:263-285 | the loop over lines replaces exactly the git lines of the section, after parsing and the uniformity check |
| `PinRoundTrip.GitLineIsDep` | etc/scripts/local/pin-reth.py:222-248 | a line matching the grammar is never passed over and never refused by the parser |
| `PinRoundTrip.RewrittenLine` | etc/scripts/local/pin-reth.py:272-284 | a rewritten git line reads back with the same name and trailing options at the pin, and rewriting it again does nothing |
| `PinRoundTrip.RepinnedVerifies` | etc/scripts/local/pin-reth.py:253-337 | repinned dependencies are uniform and pass verification, for any URL normalization |
| `PinRoundTrip.ParsedIsClean` | etc/scripts/local/pin-reth.py:218-250 | whatever is parsed has a nonempty repository and ref without quotes or line breaks |
| `PinRoundTrip.UnterminatedLosesALine` | etc/scripts/local/pin-reth.py:271-284 | a git line in the middle that does not end in a line feed is merged with the next line |
| `PinRoundTrip.RewriteIsFaithfulIff` | etc/scripts/local/pin-reth.py:263-337 | a rewrite that succeeds parses back to the same crates and options at the pin, verifies, is idempotent and leaves all other text alone, if and only if the pin's fields are clean and every git line but the section's last line ends in a line feed |
| `PinRoundTrip.FormFeedIsNotFaithful` | etc/scripts/local/pin-reth.py:271-284 | for every dependency and pin, a git line that ends in a form feed is not rewritten faithfully |
| `PinRefs.RewritePinsIff` | etc/scripts/local/pin-reth.py:109-337 | a successful rewrite leaves every dependency with the pin's repository and, if its reference is 40 hexadecimal digits, `rev` and its revision, else `tag` and its reference, keeps crates, options and other text, verifies and is idempotent, if and only if what is written is nonempty without quotes or breaks and every git line but the last ends in a line feed |
| `PinRefs.VerifyAcceptsIff` | etc/scripts/local/pin-reth.py:253-337 | verification accepts exactly dependencies that all have that kind and value and, up to normalization, that repository |
| `PinRefs.ReadsExactlyWhatIsSpelled` | etc/scripts/local/pin-reth.py:30-40 | a line is read as a dependency if and only if it spells it, with any white space at the nine places the pattern allows and anything after |
| `PinRefs.WriteIsSpelled` | etc/scripts/local/pin-reth.py:277-280 | a dependency is written with single spaces and none before the comma |
| `PinRefs.RewrittenLineSpells` | etc/scripts/local/pin-reth.py:271-284 | a rewritten line is its indentation, the dependency spelled at the pin, and a line feed if it had one |
| `PinRefs.TakenIff` | etc/scripts/local/pin-reth.py:222-248 | a line is taken as a dependency if and only if it spells one |
| `PinRefs.RefusedIff` | etc/scripts/local/pin-reth.py:222-240 | a line is refused if and only if its key names a Reth crate, it is no comment, it spells no dependency and it is no mere version |
| `PinRefs.RethNames` | etc/scripts/local/pin-reth.py:30 | the crate names are `reth` and `reth-` before letters, digits and dashes |
| `AffectedCrates.BuildReverseDeps` | etc/scripts/local/affected-crates.py:49-61 | the reverse graph is exactly the inverse of the dependency relation within the workspace, with no empty entries |
| `AffectedCrates.TransitiveRdeps` | etc/scripts/local/affected-crates.py:72-82 | the worklist terminates with exactly the packages from which a chain of dependencies leads to a changed one |
| `AffectedCrates.LongestIsUnique` | etc/scripts/local/affected-crates.py:119-130 | two directories of equal length containing the same file are the same, so the order of ties does not matter |
| `AffectedCrates.CrateOf` | etc/scripts/local/affected-crates.py:127-130 | scanning longest first finds the crate of the longest directory containing the file, or none if none does |
| `AffectedCrates.InsideIff` | etc/scripts/local/affected-crates.py:127-130 | a file is inside a directory if its path is the directory's or continues it after a slash |
| `AffectedCrates.RootFileIff` | etc/scripts/local/affected-crates.py:123-126 | a root file is one whose path continues a listed pattern |
| `AffectedCrates.NamesIff` | etc/scripts/local/affected-crates.py:101 | the members are the packages by name |
| `AffectedCrates.ChangedCrates` | etc/scripts/local/affected-crates.py:121-130 | all crates if some file is a root build file, otherwise exactly the owners of the files |
| `AffectedCrates.AffectedBy` | etc/scripts/local/affected-crates.py:85-141 | exactly the workspace members, minus exclusions, from which a chain of workspace dependencies leads to a changed crate |
| `UpgradeGuard.RuntimeUpgradeTables.Acquire` | etc/systems/src/smoke.rs:76-84 | succeeds exactly if the chain has no owner, and a failed attempt changes nothing |
| `UpgradeGuard.RuntimeUpgradeTables.ClearChain` | crates/common/genesis/src/chain/upgrade.rs:494-497 | removes the chain's overrides and no other |
| `UpgradeGuard.RuntimeUpgradeTables.Release` | etc/systems/src/smoke.rs:91-95 | removes the chain's ownership and no other |
| `UpgradeGuard.RuntimeUpgradeTables.DropGuard` | etc/systems/src/smoke.rs:89-96 | clears the overrides and then releases the chain |
| `UpgradeGuard.AlwaysExclusive` | etc/systems/src/smoke.rs:76-97 | after any interleaving of any number of guards, owned chains are those of the guards, one guard each, and every override was written by its chain's guard before that began to drop |
| `UpgradeGuard.GuardsAreIsolated` | etc/systems/src/smoke.rs:76-97 | at most one guard per chain, an acquisition succeeds exactly if there is none and then finds no overrides, and a drop clears only what its own guard wrote |
| `UpgradeGuard.OverridesStayInPlace` | etc/systems/src/smoke.rs:76-97 | overrides stay as their owner wrote them until the owner itself writes again or drops, whatever other guards do |
| `UpgradeGuard.ReleasingFirstIsUnsafe` | etc/systems/src/smoke.rs:89-96 | with the two halves of the drop swapped, a drop clears a later owner's overrides |
| `BlockMetrics.DeltaForBlocks` | etc/systems/src/prometheus_metrics.rs:98-129 | under every name exactly what should be reported there: a distribution's average if it has new observations, else the gauge, else the counter's increase per block |
| `BlockMetrics.PollOnce` | etc/systems/src/prometheus_metrics.rs:213-230 | a moved head samples exactly the new blocks, with the diagnostic metrics and the block count; otherwise nothing changes |
| `BlockMetrics.Collect` | etc/systems/src/prometheus_metrics.rs:206-235 | the samples returned are those at the end of a run of such rounds from the initial head and scrape, one round per poll |
| `BlockMetrics.SamplesCoverBlocks` | etc/systems/src/prometheus_metrics.rs:213-235 | exactly one sample for every block after the initial head up to the largest head seen |
| `BlockMetrics.TotalIsAccountedFor` | etc/systems/src/prometheus_metrics.rs:98-113 | summed over all blocks, a diagnostic counter in every scrape amounts to its final minus its initial value, plus the value before every restart, plus what is off where an average shadows it |
| `BlockMetrics.BlocksAddUp` | etc/systems/src/prometheus_metrics.rs:98-113 | an unshadowed counter that never decreases adds up to exactly its increase |
| `BlockMetrics.BlocksAddUpIff` | etc/systems/src/prometheus_metrics.rs:98-127 | a diagnostic counter in every scrape, shadowed or not, adds up to its increase at every moment of a run if and only if every round that samples blocks is exact: shadowed, the average times the new blocks is the increase; unshadowed, the counter does not go down, or goes down from zero |
| `BlockMetrics.UnshadowedAddsUpIff` | etc/systems/src/prometheus_metrics.rs:192-194 | an unshadowed counter that is never negative adds up over the whole run if and only if it never decreases |
| `BlockMetrics.ShadowedCounterDoesNotAddUp` | etc/systems/src/prometheus_metrics.rs:115-127 | a never-decreasing counter named like a distribution's average can fail to add up |
| `BlockMetrics.ReportedIs` | etc/systems/src/prometheus_metrics.rs:98-129 | under a name stands the average of a distribution's new observations if it is that distribution's name before `_avg`, else the gauge, else the share that times the blocks is the counter's increase |
| `BlockMetrics.SampleHolds` | etc/systems/src/prometheus_metrics.rs:213-230 | a sampled block carries the number of blocks of its round and besides only diagnostic metrics |
| `BlockMetrics.DiagnosticIff` | etc/systems/src/prometheus_metrics.rs:272-299 | the diagnostic metrics are those whose name continues a listed prefix |

## Left out

- Signing and signature recovery, RLP and SSZ, keccak, bloom filters, blob and KZG construction: foreign code, present only as arguments and injective hashes.
- EVM execution, state roots, the database and the provider rebuild of the engine: the builder's answer and whether the database accepts it are arguments.
- The derivation pipeline, the batch driver and encoder, the sequencer, the origin selector and SafeDB: the environment, which supplies attributes for the block after the safe head.
- `act_reset` also rebuilds the engine and the pipeline; only the node's own fields are modelled.
- `system_config_by_number` and its walk-back, block bodies in the L2 provider and the other setters of the providers: they would only add easy members.
- The remaining event builders of the miner (batcher, gas and operator-fee updates), which queue logs like the deposit event does.
- Blob-gas fields of L1 headers and receipts, and the constant fee fields and access lists of L1 transactions.
- `get_l1_block`, proofs, storage reads and the earliest-block label of the engine client.
- Parsing of Prometheus text into snapshots, label flattening, transport errors of the collector and its timeout.
- The manifest, lock-file, `git` and `cargo` parts of the pin tooling, and lone surrogates in Python strings.
- Building the map from crate directories to packages, and `git diff`; sorting the directories longest first is any sequence with that order.
- `TxManager.L1MinerTxManager.SendAsync`: states the uninterrupted send; interleaved sends are the separate steps of `TxManagerRuns`.
- `UpgradeGuard.GuardsAreIsolated`: assumes, as the guard's documentation does, that only a live owner's stack writes overrides for its chain.
- Rounding of floating-point division and sums.
- Command-line binaries, Docker and RPC plumbing, report rendering.
