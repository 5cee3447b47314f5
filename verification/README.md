# op-cartesi in Dafny

A model of op-cartesi, an OP Stack execution engine whose state transition is a Cartesi
Machine, with proofs of what its parts promise one another. The model follows the code:
where a comment or document and the code differ, the code decides.

Four cores and one smaller one, each from its bytes or its loops up to a statement about
whole runs:

- **The accounts drive.** A robin-hood hash table kept as bytes. `RobinHood`,
  `TableRefinement`, `TableRuns` and `TableLayout` are the algorithms on slots, free of
  bytes; `ByteCodec`, `Geometry`, `DriveHeader`, `DriveTable`, `DriveStore`, `DriveRecords`,
  `DriveUpdates`, `DriveImage`, `AccountsDrive` and `DriveFormat` are the same algorithms
  running in place on an array of bytes, in all three profiles, against the plain view of
  `DriveSpec`; `DriveRefusals` says what that view refuses. `AccountProof` is the probe walk
  exported to a verifier.
- **The outputs accumulator.** `MerkleTree` is the zero-padded tree of height 63;
  `OutputTree` and `Accumulator` are the incremental frontier, on values and in place;
  `OutputProof` is the proof builder and the verifier.
- **The chain.** `Execution` holds the sequencer's loop and the verifier's, and
  `ExecutionTrace` what they mean in terms of the machine alone; `ExtraData`, `Blocks` and
  `Verdicts` the headers, payloads and verdicts; `CommitmentSlots` the withdrawal
  commitment; `Ancestry`, `Canonical` and `ChainInvariant` the tree of forks with its
  cumulative records; `ChainStore`, `TxIndex` and `ChainState` the state machine;
  `ChainMeaning` every block told from the machine; `Emissions` and `ChainQueries` what is
  read back; `Restart` the way back from a checkpoint.
- **The guest runtime.** `UndoLog` is the journal on values; `LedgerSpec`, `Handlers` and
  `GuestSpec` are the ledger, the handlers and the router as functions of a world;
  `HoldingLaws`, `AcceptedCalls` and `GuestOutcomes` say whose ether and tokens a call or an
  input moves, and when it is accepted; `LedgerLaws`, `HandlerLaws`, `MessengerLaws`,
  `GuestLaws`, `GuestValue`, `GuestSolvency`, `GuestAuthority` and `GuestGenesis` are laws
  over every run; `GuestLedger`, `GuestHandlers`, `GuestRouter`, `NestedRollback`,
  `GuestBoot` and `GuestRun` are the running guest over the drive's bytes, proved to be
  those functions. `GuestSimulation` says when a simulated transaction foretells the real one.
- **The mempool.** `Mempool` is the queue with its two indexes; `MempoolMeaning` says what is
  in it and why.

`Options`, `Filtering`, `Sums`, `MachineWords` and `Hashing` are shared. Hashes, signatures,
ABI and RLP encodings and the machine itself are uninterpreted functions, so what is proved
holds for every such function; where a result depends on two hashes not colliding, it says
at which arguments. An application's own handler is an arbitrary sequence of ledger calls,
given to the router as a parameter. The router gives every input an output buffer of its
own, so a handler starts with nothing emitted.

## Findings

- `Config.validate` of the accounts drive (accounts-drive/go/drive.go:122-203) multiplies
  capacity by slot size in 64-bit words. A configuration whose product wraps is accepted
  although its table is far larger than its drive: `Geometry.WrappingIsAccepted` gives one,
  and `Geometry.AcceptedIsSound` shows that the checks establish the layout exactly where no
  product wraps.
- A block number is one 64-bit word in a payload (chain/block.go:84-191).
  `Blocks.HeaderRoundTrip` shows that a built header survives its payload exactly below
  2^64, so a child built on the block numbered 2^64 - 1 does not. The importer compares with
  the wrapped word (chain/chain.go:593), so a payload numbered 0 passes that comparison
  there; the chain's calls ask that the parent at hand is lower.
- The guest stores a nonce in a fixed width (app/src/ledger.ts:211-219).
  `GuestGenesis.NoncesFromGenesis` shows that charged nonces count up from zero exactly as
  long as their number fits it.
- A handler may answer `reject`: the comment on the outcome type says it cannot, the type
  lets it (evm-compat/js/src/types.ts:59-70), and the router honours it
  (app/src/router.ts:417-420). The simulation has no case for it and answers success
  (app/src/router.ts:496-505): `GuestSimulation.RejectionLooksAccepted` gives the instance.
  `GuestSimulation.SimulationForetells` shows that simulation and run agree about acceptance
  exactly when the handler did not reject and an accepted run can be charged.

## Model

| member | source | states |
|---|---|---|
| `RobinHood.ModIsWrap` | accounts-drive/go/drive.go:411-413 | the remainder that places a slot is one conditional below twice the capacity |
| `RobinHood.GapStep` | accounts-drive/go/drive.go:439-494 | moving one slot on brings the nearest free slot one step closer, whatever is written behind: the measure both loops end by |
| `RobinHood.CarryStep` | accounts-drive/go/drive.go:450-467 | both turns of the insert loop, swap and step on, come one slot nearer to the free slot that ends it |
| `TableRefinement.LookupIsMap` | accounts-drive/go/drive.go:416-435 | the early-terminating lookup finds a key exactly when the table's map has it, in the slot that holds its value |
| `TableRefinement.InsertOrders` | accounts-drive/go/drive.go:439-469 | carrying a record in with strict swaps keeps every displaced record behind one displaced at least as far, less one |
| `TableRefinement.InsertCounts` | accounts-drive/go/drive.go:439-469 | an insert adds one live slot |
| `TableRefinement.InsertAdds` | accounts-drive/go/drive.go:439-469 | an insert adds its key to the table's map and loses or changes no other, though records move |
| `TableRefinement.RemoveRefines` | accounts-drive/go/drive.go:472-494 | backward-shift deletion removes one key, keeps order, uniqueness and a free slot, and every other record survives |
| `TableRefinement.SameContents` | accounts-drive/go/drive.go:472-494 | a record moved over the hole leaves the table's map alone |
| `TableRuns.LiveIsSize` | accounts-drive/go/drive.go:351-366 | the live slots are as many as the keys of the map |
| `TableRuns.PutRefines` | accounts-drive/go/drive.go:560-589 | a set is refused exactly for a new key at the load limit, and otherwise is a map update |
| `TableRuns.DeleteRefines` | accounts-drive/go/drive.go:595-609 | a delete is removal of the key from the map |
| `TableRuns.RunRefinesMap` | accounts-drive/go/drive.go:416-494 | from an all-zero table, after any sequence of sets and deletes: the table holds the map those operations build, its live count is the map's size, and lookup answers what the map answers |
| `TableLayout.LayoutIsCanonical` | accounts-drive/go/drive.go:439-494 | two tables with the same keys occupy the same slots, with the same home in each |
| `TableLayout.RunsShareLayout` | accounts-drive/go/drive.go:439-494 | any two runs that end with the same keys end with the same layout, up to records of equal home |
| `ByteCodec.LERoundTrip` | accounts-drive/js/src/drive.ts:232-238 | a little-endian field reads back its value reduced to its width |
| `ByteCodec.BERoundTrip` | accounts-drive/go/drive.go:798-807 | a big-endian field within its width reads back |
| `ByteCodec.PutBE` | accounts-drive/go/drive.go:798-807 | the bytes of a value, refused exactly when it does not fit |
| `ByteCodec.SpliceUndone` | app/src/ledger.ts:82-86 | writing a before-image back undoes the write |
| `Geometry.BitTrick` | accounts-drive/js/src/drive.ts:210-213 | the bit trick is exactly the power-of-two test |
| `Geometry.Validate` | accounts-drive/go/drive.go:122-203 | accepts exactly the configurations whose fields fit and whose regions, sized in machine words, lie inside and apart |
| `Geometry.AcceptedIsSound` | accounts-drive/go/drive.go:122-203 | for an accepted configuration the header fields, registry and tables are disjoint and inside the drive if and only if no table size wraps a machine word |
| `Geometry.WrappingIsAccepted` | accounts-drive/go/drive.go:132-203 | an accepted configuration whose table is far larger than its drive |
| `DriveHeader.HeaderFor` | accounts-drive/go/drive.go:225-251 | the header built field by field reads back as the geometry it was built from, with zero counters |
| `DriveFormat.Open` | accounts-drive/go/drive.go:254-289 | refuses a foreign magic, version or flags, and otherwise caches the geometry and the registry the bytes show |
| `DriveFormat.Reopen` | accounts-drive/go/drive.go:254-289 | opening a formatted image gives back a valid drive standing for the same view |
| `DriveFormat.Format` | accounts-drive/go/drive.go:225-251 | formats exactly the accepted configurations; where no size wraps, the result is a valid, empty drive with the geometry asked for |
| `DriveTable.SlotWritten` | accounts-drive/go/drive.go:399-407 | writing one slot changes that slot of that table and no other |
| `DriveTable.ProbeFinds` | accounts-drive/go/drive.go:416-435 | the probe over bytes finds exactly the records the table holds |
| `DriveTable.Inserted` | accounts-drive/go/drive.go:439-469 | the bytes an insert leaves hold the old records and the new one, and the counter counts them |
| `DriveTable.Removed` | accounts-drive/go/drive.go:472-494 | the bytes a remove leaves hold every other record, and the counter counts them |
| `DriveStore.Journal.Note` | app/src/ledger.ts:44-46 | appends one restore entry |
| `DriveStore.Journal.Commit` | app/src/ledger.ts:63-65 | empties the journal |
| `DriveStore.Store.WriteAt` | app/src/ledger.ts:82-86 | splices the bytes in and notes the before-image that takes them back |
| `DriveStore.Store.Lookup` | accounts-drive/js/src/drive.ts:545-555 | the loop over slots in place finds what the table's records have under the key |
| `DriveStore.Store.Insert` | accounts-drive/js/src/drive.ts:559-581 | the loop that swaps slots in place ends, adds the record and the count, touches only its table, and can be undone byte for byte |
| `DriveStore.Store.Remove` | accounts-drive/js/src/drive.ts:584-597 | the loop that shifts slots back in place ends, drops the record and the count, touches only its table, and can be undone byte for byte |
| `DriveRecords.AccountRoundTrip` | accounts-drive/go/drive.go:511-540 | an encoded account decodes to itself within its widths |
| `DriveRecords.ColumnsApart` | accounts-drive/go/drive.go:298-327 | wide columns do not overlap |
| `DriveRecords.OtherColumn` | accounts-drive/go/drive.go:711-780 | writing one column leaves every other column |
| `DriveRecords.SparseKeyRoundTrip` | accounts-drive/go/drive.go:790-795 | a sparse key tells its token and its holder |
| `DriveImage.RegionsApart` | accounts-drive/go/drive.go:122-203 | no byte belongs to two of the tables, the registry and the counters |
| `DriveImage.AccountSet` | accounts-drive/go/drive.go:560-589 | writing an account record changes one account of the view |
| `DriveImage.AccountDeleted` | accounts-drive/go/drive.go:595-609 | removing an account record drops the account and its columns from the view and nothing else |
| `DriveImage.ColumnStored` | accounts-drive/go/drive.go:711-780 | writing a column changes one holding of the view |
| `DriveImage.BalanceStored` | accounts-drive/go/drive.go:711-780 | writing a sparse record changes one holding of the view |
| `DriveImage.BalanceErased` | accounts-drive/go/drive.go:711-780 | removing a sparse record drops one holding of the view |
| `DriveImage.TokenRegistered` | accounts-drive/go/drive.go:626-671 | appending a registry entry adds one token and keeps every balance |
| `DriveImage.FreshIsEmpty` | accounts-drive/go/drive.go:222-251 | an image with zero tables and counters stands for the empty view |
| `AccountsDrive.Drive.GetAccount` | accounts-drive/go/drive.go:544-555 | the account of the view, or the refusal of the zero address |
| `AccountsDrive.Drive.SetAccount` | accounts-drive/go/drive.go:560-589 | the view with that account set, or a refusal (zero address, overflow, table full) that changes no byte; undoable |
| `AccountsDrive.Drive.DeleteAccount` | accounts-drive/go/drive.go:595-609 | the view without that account; where the account is absent or its nonce protects it, no byte changes; undoable |
| `AccountsDrive.Drive.TokenByAddress` | accounts-drive/go/drive.go:614-621 | the first id registered for an address |
| `AccountsDrive.Drive.RegisterToken` | accounts-drive/go/drive.go:626-671 | the view with one more token, or a refusal (a profile without registry, width, duplicate, registry full, no column) that changes no byte; undoable |
| `AccountsDrive.Drive.ReloadRegistry` | accounts-drive/js/src/drive.ts:439-462 | the cache becomes the registry the bytes show, whatever it was |
| `AccountsDrive.Drive.GetTokenBalance` | accounts-drive/go/drive.go:677-704 | the holding of the view in either profile |
| `AccountsDrive.Drive.SetTokenBalance` | accounts-drive/go/drive.go:711-780 | the view with that holding set, a zero erasing it, or a refusal that changes no byte; undoable |
| `DriveRefusals.AccountRefusedExactly` | accounts-drive/go/drive.go:560-589 | an account is refused if and only if the drive could not hold it, or a compact record its nonce |
| `DriveRefusals.BalanceRefusedExactly` | accounts-drive/go/drive.go:711-780 | a balance is refused if and only if the profile keeps none, holder or token is unknown, or the drive could not hold it |
| `DriveRefusals.TokenRefusedExactly` | accounts-drive/go/drive.go:626-671 | a token is refused if and only if the drive could not hold it, or a compact record its balances |
| `DriveRefusals.UsedAccountsStay` | accounts-drive/go/drive.go:595-609 | without force a delete takes away exactly the account named, and only if its nonce is zero |
| `AccountProof.Walk` | chain/accountproof.go:115-144 | the replayed lookup finds what the library's lookup finds and counts the slots it examined |
| `AccountProof.WalkProves` | chain/accountproof.go:115-144 | any two well-formed tables that agree on the walked slots give the same answer for the key |
| `AccountProof.WalkPages` | chain/accountproof.go:146-169 | the page offsets ascend without repetition and are exactly the pages of walked bytes, also when the walk wraps the table end |
| `AccountProof.ProveAccount` | chain/accountproof.go:107-186 | the account of the view, the length of its walk and exactly the pages the walk touches, in order |
| `AccountProof.PagesProve` | chain/accountproof.go:107-186 | whoever holds pages that cover the walk and match a well-formed table gets that table's answer for the key, present or absent |
| `OutputTree.InsertRepresents` | chain/outputtree.go:82-100 | an insert into the frontier of a list gives the frontier of the longer list, and fails exactly at 2^63 leaves |
| `OutputTree.RootIsPadded` | chain/outputtree.go:105-117 | the frontier's root is the root of the zero-padded tree of height 63 |
| `OutputTree.BatchesAgree` | chain/outputtree.go:68-117 | however a list is split into batches, appending them gives the root of the padded tree over the list |
| `Accumulator.ZeroHashes` | chain/outputtree.go:33-39 | the table of default nodes |
| `Accumulator.Tree.Insert` | chain/outputtree.go:82-100 | the carry loop in place is the carry over values |
| `Accumulator.Tree.Append` | chain/outputtree.go:68-77 | a fresh tree with the leaves appended; the receiver is not changed |
| `Accumulator.Tree.Root` | chain/outputtree.go:105-117 | the fold over levels is the root over values |
| `OutputProof.ParentLevel` | chain/outputproof.go:60-70 | one level of the padded tree from the one below |
| `OutputProof.ProveOutput` | chain/outputproof.go:36-48 | the siblings of the padded tree, for exactly the indexes below the count |
| `OutputProof.RootAfterReplacement` | chain/outputproof.go:75-85 | the loop climbs the siblings by the bits of the index |
| `OutputProof.ProofsComplete` | chain/outputproof.go:36-85 | a proof of any output reproduces the frontier's root |
| `OutputProof.ProofsBind` | chain/outputproof.go:75-85 | a full-height proof that reproduces the root opens to the padded tree's leaf through the builder's siblings, or shows at some level two different pairs under one hash |
| `OutputProof.OutputProofAt` | chain/outputproof.go:108-142 | the self-check before serving never fires |
| `Execution.CollectOutputs` | chain/outputs.go:46-66 | outputs survive only acceptance, reports always |
| `Execution.ReplayImport` | chain/chain.go:516-546 | the verifier's loop |
| `Execution.ApplyBuild` | chain/chain.go:434-510 | the sequencer's loop: deposits first, then the pool under gas and DA limits |
| `Execution.BuilderAgreesWithVerifier` | chain/chain.go:434-546 | replaying what the sequencer included gives its machine, gas and outputs, for every pool and limit |
| `ExecutionTrace.ReplayTraces` | chain/chain.go:516-546 | told from the machine alone: a replay passes through states where each input was asked of the one before and moved it on only if accepted; gas is the sum over inputs that ended, and each of those left one record, in order |
| `ExecutionTrace.TraceIsReplay` | chain/chain.go:516-546 | nothing else is an execution: whatever such a passage yields is the replay |
| `ExecutionTrace.CollectedIsRecord` | chain/outputs.go:46-66 | a record keeps its index, hash and cycles, the reports in order, and the outputs in order where accepted, none otherwise |
| `ExecutionTrace.BuildTraces` | chain/chain.go:434-510 | a build is the same passage through exactly what it holds |
| `ExecutionTrace.BuildChooses` | chain/chain.go:434-510 | a build holds every deposit first, then exactly the pool transactions accepted in their turn while gas and data limits left room; those tried in vain are reported in order |
| `ExecutionTrace.BuildStops` | chain/chain.go:434-510 | a build is refused exactly when a deposit stops the machine in its turn |
| `ChainMeaning.BlockIsTrace` | chain/chain.go:516-546 | on every fork, a block is what its transactions make of its parent's state: state, header root, records and gas |
| `ChainMeaning.InputsAreNumbered` | chain/input.go:107-124 | the i-th transaction of a block enters as the input after all inputs of its ancestry and those before it |
| `ExtraData.WrittenIsValid` | chain/block.go:55-74 | the extra data of a built header is always valid for the importer and carries the parameters asked for, or the defaults for zeros |
| `Blocks.HeaderRoundTrip` | chain/block.go:84-191 | a built header survives the payload if and only if its extra data is valid and its number fits a word |
| `Blocks.OutputLeaves` | chain/outputs.go:71-79 | the leaves of a block's outputs in order |
| `Blocks.WithdrawalHashes` | chain/withdrawal.go:170-186 | the withdrawals among the outputs, in order |
| `Blocks.PasserAfter` | chain/chain.go:404-419 | the parent's commitment with the block's withdrawals and the outputs root moved |
| `CommitmentSlots.WithdrawalsInOrder` | chain/withdrawal.go:170-186 | the withdrawal hashes are exactly what the outputs carry, in emission order |
| `CommitmentSlots.ExtendedSlots` | chain/chain.go:404-419 | slot by slot: one is filled exactly by a withdrawal among the block's outputs, the reserved one holds the new root, every other is as it was |
| `CommitmentSlots.EveryWithdrawalIsCommitted` | chain/chain.go:404-419 | on every fork, a slot of a block's commitment is taken exactly if a withdrawal of it was emitted on its ancestry |
| `Blocks.ContextsAgree` | chain/input.go:80-102 | the context recovered from a header is the one its builder used |
| `Blocks.AssembledIsValid` | chain/chain.go:328-399 | every payload the sequencer builds is judged valid by any node with the same parent records, with the same header, execution, tree and commitment |
| `Verdicts.VerdictExactly` | chain/chain.go:572-665 | a payload is valid if and only if its hash, number, time, state root, gas and withdrawals root each stand, and invalid if and only if one fails |
| `Verdicts.AssembledFollows` | chain/chain.go:328-399 | an assembled payload has the parent, number, time, randomness, recipient, gas limit and beacon root asked for, begins with the given transactions and takes nothing else where the pool is forbidden |
| `Verdicts.HeaderTellsAll` | chain/block.go:147-191 | payloads of one header, hash and list of transactions are one payload |
| `Ancestry.InputsAreCumulative` | chain/chain.go:670-681 | on every fork the input counter is the transactions of the ancestry, in machine words |
| `Ancestry.TreeIsCumulative` | chain/chain.go:670-681 | on every fork the output tree is the fold of all outputs of the ancestry |
| `Ancestry.PasserIsCumulative` | chain/chain.go:404-419 | on every fork the commitment is those outputs' withdrawals and the current outputs root |
| `Ancestry.NumberingIsStable` | chain/outputproof.go:151-197 | the outputs through a block are a prefix of those through any descendant |
| `Ancestry.OutputIndexIsLeaf` | chain/outputs.go:101-134 | the number computed for an output, without underflow, is its leaf position in every descendant's tree |
| `Canonical.AgreementIsEnough` | chain/chain.go:260-280 | when a rewrite meets an agreeing height, everything below is already the new head's |
| `Canonical.PathSurvives` | chain/chain.go:670-681 | committing a block leaves the canonical path a path |
| `ChainInvariant.CommitKeeps` | chain/chain.go:670-681 | committing a block judged valid keeps the records of every fork sound and honest |
| `ChainInvariant.AdoptedIsBuilt` | chain/chain.go:600-607 | a payload under the hash of one built here is that one, so adopting its execution equals re-executing it |
| `ChainState.Rewrite` | chain/chain.go:260-280 | the downward walk with its early exit ends in one path to the new head |
| `ChainState.Prepare` | chain/chain.go:328-399 | the body of a build |
| `ChainState.Reexecute` | chain/chain.go:609-662 | the verdict on a payload: state root, gas and withdrawals root against what the replay found |
| `ChainState.Chain.constructor` | chain/chain.go:101-165 | a fresh chain keeps everything the other calls keep |
| `ChainState.Chain.FromRecords` | chain/persist.go:222-254 | a chain over restored records keeps the same |
| `ChainState.Chain.ReorgTo` | chain/chain.go:260-280 | the canonical mapping is exactly the path to the given block |
| `ChainState.Chain.Prune` | chain/chain.go:285-312 | exactly the protected and recent snapshots, and exactly the payloads above the head, are kept |
| `ChainState.Chain.Commit` | chain/chain.go:670-699 | one block with its records, post-state and index entries is added and written through; the path does not move |
| `ChainState.Chain.BuildPayload` | chain/chain.go:328-399 | the pending payload is the assembled one; a known one is not rebuilt |
| `ChainState.Chain.AdoptBuilt` | chain/chain.go:600-607 | commits what re-execution would commit, and the payload is no longer pending |
| `ChainState.Chain.ImportPayload` | chain/chain.go:572-665 | a new block is called valid only if every condition on it stands, and on a parent with a live snapshot exactly then, invalid exactly if one fails; a valid import commits what the parent's true state yields and uses up the payload built under its hash, anything else changes no record |
| `ChainState.Chain.CheckCanonical` | chain/persist.go:308-320 | whether a hash is on the path in memory, or else on the stored one |
| `ChainState.Chain.PointTo` | chain/chain.go:219-230 | pointers are taken in turn, the first off the chain refused |
| `ChainState.Chain.Persist` | chain/chain.go:233-243 | the stored mapping leads to the head, the three pointers are stored, and history below the root is kept |
| `ChainState.Chain.ForkchoiceUpdated` | chain/chain.go:208-257 | the mapping leads to any known head, also when the call then fails; it fails there exactly when a pointer is off the head's chain; otherwise head, pointers and store follow, with the exact answer about attributes and build |
| `ChainStore.Store.SetCanonical` | chain/store.go:117-141 | one batch, read from the mapping as it was, makes the stored mapping the path to the head, with no height left over and none below the root changed |
| `ChainStore.Store.SetHeads` | chain/store.go:144-157 | the head, and the other pointers where given |
| `ChainStore.Store.PutBlock` | chain/store.go:82-113 | the block's height is on record |
| `TxIndex.IndexBlock` | chain/chain.go:677-681 | the index names exactly the blocks that recorded each transaction |
| `Emissions.CanonicalBlockOf` | chain/receipts.go:178-189 | the canonical block that recorded a transaction, if any |
| `Emissions.TxEmissions` | chain/outputs.go:101-134 | a transaction's emissions in the canonical chain, numbered where the tip's tree has their leaves; none exactly when no canonical block recorded it |
| `ChainQueries.EmissionsOf` | chain/outputs.go:101-134 | a running chain always keeps what that needs |
| `Emissions.BuildReceipts` | chain/receipts.go:50-122 | the running gas, log and output counters of every receipt |
| `Emissions.GasAddsUp` | chain/receipts.go:50-122 | each receipt's cumulative gas is the one before it and its own |
| `Emissions.LogsTell` | chain/receipts.go:50-122 | a log is an event exactly when its output decodes to one, otherwise the output under its chain-wide number; logs are counted through the block |
| `Emissions.ReceiptsIn` | chain/receipts.go:150-164 | every receipt numbers its outputs as leaves of the block's tree |
| `Emissions.LeavesThrough` | chain/outputproof.go:151-197 | the walk back to genesis, over blocks in memory and else in the store, collects the leaves through a block in order, and fails exactly when an ancestor is in neither |
| `Emissions.ServedProofsHold` | chain/outputproof.go:108-142 | a proof over those leaves reproduces the root the block's records hold |
| `Emissions.OutputsRootIsCommitted` | chain/chain.go:404-419 | every block's commitment holds its outputs root |
| `Restart.RebuildPasser` | chain/passertrie.go:204-235 | replaying recorded outputs rebuilds the commitment the block had, so the check against its header passes |
| `Restart.ReplayReproduces` | chain/persist.go:125-165 | re-executing a block once committed gives back its records and its state |
| `Restart.TakenBackExactly` | chain/persist.go:125-165 | a stored block is taken back exactly when re-executing it ends in the state root and withdrawals root its header names and the outputs tree has room |
| `Restart.Restore` | chain/persist.go:94-106 | the replay after a checkpoint succeeds and gives back every record, state and index entry |
| `Restart.RestoredIsSound` | chain/persist.go:28-121 | the restored tree is sound and honest, rooted at the checkpoint |
| `Restart.Reopen` | chain/persist.go:28-121 | a machine other than the checkpoint block's is refused; otherwise the restarted chain is valid, its pointers are the stored ones as far as it holds those blocks, and its records are the archived ones |
| `Restart.RestartKeepsNumbers` | chain/persist.go:28-121 | a chain that starts from a checkpoint numbers every output as the chain from genesis did |
| `Mempool.OfferFits` | mempool/mempool.go:142-177 | an offer keeps the queue within its bound, hashes and slots distinct, and says exactly which indexes change |
| `Mempool.EveryInterleavingFits` | mempool/mempool.go:101-233 | whatever order critical sections run in, the queue stays within bounds with distinct hashes and slots |
| `MempoolMeaning.ScreenedExactly` | mempool/mempool.go:101-137 | a transaction is let through exactly if it decodes, is small enough, is no deposit and, where a nonce reader is armed, its sender's nonce has not passed it |
| `MempoolMeaning.OfferedExactly` | mempool/mempool.go:142-177 | refused exactly if its hash is queued, or it has no rival and the pool is full; accepted, it takes its rival's place or the last, and no other place changes |
| `MempoolMeaning.SurvivorsInOrder` | mempool/mempool.go:211-233 | forgetting keeps exactly the entries not named, in their order |
| `MempoolMeaning.EveryEntryCame` | mempool/mempool.go:101-233 | whatever order critical sections ran in, a queued entry was offered and nothing since named its hash |
| `MempoolMeaning.EveryEntrySpeaks` | mempool/mempool.go:101-177 | where callers offer what was screened, every queued entry carries its own transaction's hash and account slot |
| `Mempool.Pool.constructor` | mempool/mempool.go:64-73 | an empty, consistent pool |
| `Mempool.Pool.Enqueue` | mempool/mempool.go:142-177 | queue and both indexes move together; a replacement keeps its place |
| `Mempool.Pool.Add` | mempool/mempool.go:101-177 | screened transactions are refused unchanged, others are offered |
| `Mempool.Pool.Forget` | mempool/mempool.go:211-233 | exactly the named transactions go, and the indexes follow through the in-place filter |
| `Mempool.Pool.Get` | mempool/mempool.go:182-196 | found exactly when queued; no repair of the index is ever needed |
| `Mempool.Pool.Pending` | mempool/mempool.go:199-207 | the raw transactions in order |
| `UndoLog.RewindConcat` | app/src/ledger.ts:53-57 | rewinding two stretches is rewinding the later, then the earlier |
| `UndoLog.UndoesTrans` | app/src/ledger.ts:53-57 | what undoes two changes in turn undoes both |
| `UndoLog.LoggedWrite` | app/src/ledger.ts:82-86 | a before-image takes the bytes back |
| `LedgerSpec.SameWorld` | app/src/ledger.ts:192-389 | states no getter tells apart are the same ledger |
| `GuestLedger.Ledger.constructor` | app/src/ledger.ts:150-164 | a ledger over a drive just opened, with facades derived and nothing to undo |
| `GuestLedger.Ledger.CreditEther` | app/src/ledger.ts:197-201 | the ledger credited, or a throw that changed nothing; undoable |
| `GuestLedger.Ledger.DebitEther` | app/src/ledger.ts:203-208 | the ledger debited, or a throw that changed nothing; undoable |
| `GuestLedger.Ledger.BumpNonceAndCharge` | app/src/ledger.ts:215-219 | nonce and fee together, or a throw that changed nothing; undoable |
| `GuestLedger.Ledger.RegisterToken` | app/src/ledger.ts:226-238 | the next id with its facade and metadata, or a throw that changed nothing; undoable |
| `GuestLedger.Ledger.TokenByL2Address` | app/src/ledger.ts:240-250 | the token a facade address stands for |
| `GuestLedger.Ledger.CreditToken` | app/src/ledger.ts:261-266 | holding and total move together, or a throw that changed nothing; undoable |
| `GuestLedger.Ledger.DebitToken` | app/src/ledger.ts:268-274 | holding and total move together, or a throw that changed nothing; undoable |
| `GuestLedger.Ledger.SetMetadata` | app/src/ledger.ts:288-295 | one token's metadata; undoable |
| `GuestLedger.Ledger.RegisterPortal` | app/src/ledger.ts:311-319 | one portal's kind; undoable |
| `GuestLedger.Ledger.SetFee` | app/src/ledger.ts:325-331 | the fee; undoable |
| `GuestLedger.Ledger.RegisterCrossDomain` | app/src/ledger.ts:342-348 | the messaging pair; undoable |
| `GuestLedger.Ledger.NextMessageNonce` | app/src/ledger.ts:360-367 | the counter before it moved; undoable |
| `GuestLedger.Ledger.SetMessageStatus` | app/src/ledger.ts:381-389 | one message's status; undoable |
| `GuestLedger.Ledger.RollbackTo` | app/src/ledger.ts:53-57 | entries are undone newest first down to the mark |
| `GuestLedger.Ledger.AfterRollback` | app/src/ledger.ts:177-188 | registry cache and facades agree with the bytes again |
| `GuestLedger.Ledger.RestoreTo` | app/src/ledger.ts:53-57 | rollback and re-derivation restore the bytes exactly, every getter's answer, and the journal, as they were at the mark |
| `NestedRollback.Run` | app/src/ledger.ts:41-66 | one call, mark or rollback: every mark still open can be returned to |
| `NestedRollback.RunAll` | app/src/ledger.ts:41-87 | any interleaving of calls, marks and rollbacks to any open mark: the ledger is what the surviving calls leave, and the journal takes it back to every open mark exactly |
| `GuestHandlers.Move` | app/src/handlers/messenger.ts:137-138 | a debit and a credit; the debit stands if the credit throws |
| `GuestHandlers.EtherWithdrawal` | app/src/handlers/bridge.ts:30-44 | burns the value carried and emits one withdrawal of it |
| `GuestHandlers.TokenWithdrawal` | app/src/handlers/bridge.ts:45-86 | burns tokens and emits a voucher, or reverts |
| `GuestHandlers.Passer` | app/src/handlers/passer.ts:21-37 | burns the value and emits one withdrawal of it |
| `GuestHandlers.TokenFacade` | app/src/handlers/erc20.ts:26-53 | moves tokens between holders, or reverts |
| `GuestHandlers.EtherDeposit` | app/src/handlers/portal.ts:48-68 | passes a deposit's value on, or reverts |
| `GuestHandlers.TokenDeposit` | app/src/handlers/portal.ts:70-88 | mints to the depositor, registering the token at first sight |
| `GuestHandlers.Configure` | app/src/handlers/config.ts:50-154 | only the owner; escrows stay exclusive |
| `GuestHandlers.Send` | app/src/handlers/messenger.ts:182-214 | one withdrawal under a fresh nonce, and its two events |
| `GuestHandlers.StartBridging` | app/src/handlers/l2bridge.ts:98-155 | burns tokens and sends the message that releases them |
| `GuestHandlers.FinishBridging` | app/src/handlers/l2bridge.ts:161-224 | mints or pays out what a bridge message says, or throws |
| `GuestHandlers.DispatchRelay` | app/src/handlers/messenger.ts:120-139 | the relayed call |
| `GuestHandlers.Relay` | app/src/handlers/messenger.ts:55-116 | first delivery and replay with their checks; a failed call is rolled back to the mark inside the handler and recorded |
| `HandlerLaws.RegistrationExclusive` | app/src/handlers/config.ts:63-115 | no configuration call leaves both an ERC-20 portal and a messaging pair |
| `HoldingLaws.MovePasses` | app/src/ledger.ts:197-208 | value passes from one account to another; every nonce and every other balance is as it was |
| `HoldingLaws.MovePassesTokens` | app/src/ledger.ts:261-274 | tokens pass from one holder to another; every other holding, account and setting is as it was |
| `HoldingLaws.MintMoves` | app/src/handlers/portal.ts:70-88 | a mint raises one holding, of the token of that L1 address, registering it last if unknown, and nothing else |
| `HoldingLaws.DebitExactly` | app/src/ledger.ts:203-208 | a debit goes through exactly when the account covers it |
| `HoldingLaws.DebitTokenExactly` | app/src/ledger.ts:268-274 | a token debit goes through exactly when the holder has it |
| `AcceptedCalls.EtherLeaves` | app/src/handlers/bridge.ts:30-44 | accepted exactly if value came along and the bridge has it: that much is burnt and one withdrawal of it emitted |
| `AcceptedCalls.TokensLeave` | app/src/handlers/bridge.ts:45-86 | accepted exactly if no standard bridge stands, the token is known and the sender has them: that one holding falls, and the voucher and event say so |
| `AcceptedCalls.PasserLeaves` | app/src/handlers/passer.ts:21-37 | accepted exactly if the call decodes or is empty and the value is there: one withdrawal of it, as the call says |
| `AcceptedCalls.TransferPasses` | app/src/handlers/erc20.ts:26-53 | an accepted transfer: the sender's holding falls and the recipient's rises by the amount, no other changes, and the one event says so |
| `AcceptedCalls.UncoveredReverts` | app/src/handlers/erc20.ts:38-49 | a transfer of more than the sender holds is not accepted |
| `AcceptedCalls.EtherArrives` | app/src/handlers/portal.ts:48-68 | only a registered portal's deposit; the amount in its data passes to the address in its data |
| `AcceptedCalls.TokensArrive` | app/src/handlers/portal.ts:70-88 | only a registered portal's deposit; the amount in its data is minted to the address in its data |
| `AcceptedCalls.AttributesTaken` | app/src/handlers/l1block.ts:54-76 | accepted exactly when complete, leaving the ledger alone |
| `AcceptedCalls.OwnerConfigures` | app/src/handlers/config.ts:50-154 | only the owner; each call changes exactly what it names and says so |
| `AcceptedCalls.TokensBridge` | app/src/handlers/l2bridge.ts:98-155 | accepted exactly if a pair is registered, the addresses match and the sender has the tokens: they are burnt, one message under a fresh nonce goes out, and the emissions are exactly its own |
| `AcceptedCalls.RelayedExactly` | app/src/handlers/messenger.ts:55-95 | a relay is taken up if and only if the message is of version 1 and is a first delivery by the aliased L1 messenger's deposit with its value, or a retry of a failed one bringing nothing |
| `AcceptedCalls.RelayDelivers` | app/src/handlers/messenger.ts:97-139 | a relay taken up is marked successful exactly if its call goes through, and then the call was made and announced; otherwise it is marked failed and nothing else changed |
| `HandlerLaws.FailedDispatchIsSilent` | app/src/handlers/messenger.ts:97-139 | a relayed call that throws has emitted nothing |
| `MessengerLaws.AcceptedRelays` | app/src/handlers/messenger.ts:55-116 | an accepted relay is exactly one that passed every check |
| `MessengerLaws.RelaySolvent` | app/src/handlers/messenger.ts:55-139 | a relay keeps the messenger able to pay what failed messages carry |
| `MessengerLaws.RelayMarks` | app/src/handlers/messenger.ts:72-116 | success is final, and is marked exactly when it is logged |
| `GuestRouter.RunApp` | app/src/router.ts:352-356 | any application handler, as the ledger calls it makes and the outcome it asks for, rejection included |
| `GuestRouter.ResolveHandler` | app/src/router.ts:204-216 | manifest, then portal receiver, then facades |
| `GuestRouter.Dispatch` | app/src/router.ts:340-366 | value transfer and dispatch end as over values, undoably |
| `GuestRouter.ChargeAndCommit` | app/src/router.ts:371-388 | the charge is the last thing to move; its refusal restores the ledger the input found |
| `GuestRouter.Execute` | app/src/router.ts:333-422 | accept, fail, revert and reject, the handler's own rejection included, each leave the ledger and the reply they promise, and an empty journal |
| `GuestRouter.AdvanceDeposit` | app/src/router.ts:241-281 | the mint survives a revert; a throw rejects everything |
| `GuestRouter.AdvanceSigned` | app/src/router.ts:283-323 | enforcement, and the fee as it was before dispatch |
| `GuestRouter.Advance` | app/src/router.ts:220-239 | every input ends in the ledger and with the reply of the model over values, and with an empty journal |
| `GuestRouter.Simulate` | app/src/router.ts:467-505 | a simulation answers by the handler's outcome, taking a rejection for a success, and leaves bytes, getters and journal unchanged |
| `GuestSimulation.SimulationForetells` | app/src/router.ts:371-505 | a simulation agrees with the run about acceptance if and only if the handler did not reject and, where it accepted, the charge goes through |
| `GuestSimulation.RejectionLooksAccepted` | app/src/router.ts:496-505 | a handler that rejects: simulated as a success, run as a rejection that changes nothing |
| `GuestSimulation.SignedForetold` | app/src/router.ts:467-505 | the same condition for every admitted transaction, against the state the input leaves |
| `GuestSimulation.BuiltInsForetold` | app/src/router.ts:467-505 | of the built-in handlers, which never reject, a simulation is wrong only about a charge that cannot be written |
| `GuestLaws.RejectKeepsAll` | app/src/router.ts:417-429 | an input rejected by enforcement, by its handler or for a charge that cannot be written leaves the ledger as it was |
| `GuestOutcomes.RoutedExactly` | app/src/router.ts:204-216 | each reserved address has its own contract; others go to applications, then deposits, then facades of known tokens, else to nobody |
| `GuestOutcomes.DispatchMoves` | app/src/router.ts:340-366 | an accepted dispatch moved the value first, only to something that takes value, and then ran what stands there |
| `GuestOutcomes.AcceptedExactly` | app/src/router.ts:283-323 | a signed transaction is accepted if and only if it names this chain or none, verifies, carries the next nonce, can pay fee and value, is not rejected by its handler and can be charged |
| `GuestOutcomes.TransferSettles` | app/src/router.ts:283-422 | a signed transfer, end to end: one holding passed, the signer paid the fee and used one nonce, no other holding or balance changed |
| `GuestOutcomes.WithdrawalSettles` | app/src/router.ts:283-422 | a signed withdrawal, end to end: the signer is poorer by value and fee, no other account changed, and one withdrawal of that value to that address came out |
| `GuestOutcomes.UndoneStillPays` | app/src/router.ts:389-416 | a transaction accepted but undone leaves only its charge and answers with its reports in order and the reason; one that faults keeps its ledger and output |
| `GuestOutcomes.DepositedExactly` | app/src/router.ts:241-281 | a deposit is accepted if and only if its mint can be written and its call neither rejects nor throws; a reverted call leaves the mint alone |
| `GuestOutcomes.RegistryRefuses` | app/src/router.ts:352-353 | nothing sent to the registry is carried out |
| `GuestLaws.RevertOnlyCharges` | app/src/router.ts:403-416 | a reverted transaction changes its sender's nonce and balance, by one and by the fee it entered under, and nothing else |
| `GuestLaws.NonceSteps` | app/src/ledger.ts:211-219 | an input moves the nonce of the account it is charged to by one, and no other |
| `GuestLaws.NoncesAreConsecutive` | app/src/router.ts:283-422 | over every run the nonces charged to an account are consecutive, each used once and in order |
| `GuestValue.StepBalances` | app/src/router.ts:241-422 | per input: ether after, withdrawn and charged equals ether before and minted |
| `GuestValue.ValueIsConserved` | app/src/router.ts:241-422 | over every run of the built-in handlers the same holds in total, and every token's supply stays what its holders hold |
| `GuestSolvency.MessengerStaysSolvent` | app/src/handlers/messenger.ts:55-139 | over every run with no input sent by the messenger, its balance covers every message recorded as failed |
| `GuestSolvency.DeliveredAtMostOnce` | app/src/handlers/messenger.ts:72-116 | over every run each message's inner call takes effect at most once, and exactly when it is marked successful |
| `GuestAuthority.OnlyL1BringsMessages` | app/src/handlers/messenger.ts:72-95 | over every run, the first status any message gets comes from a deposit by the L1 messenger then registered, with the value it carries |
| `GuestAuthority.OnlyTheOwnerConfigures` | app/src/handlers/config.ts:50-154 | over every run, fee, portals, pair and metadata change only by an input of the owner |
| `GuestAuthority.MessagesAreNumbered` | app/src/handlers/messenger.ts:182-214 | over every run, outgoing messages carry consecutive nonces, none used twice and none skipped |
| `GuestGenesis.BooksFromGenesis` | app/src/ledger.ts:261-286 | from genesis, ether is what was minted less withdrawals and fees, supplies are what is held, and the messenger is solvent |
| `GuestGenesis.NoncesFromGenesis` | app/src/ledger.ts:211-219 | from genesis the charged nonces are 0, 1, 2 and so on, if and only if there are no more than the stored nonce can count |
| `GuestGenesis.DeliveriesFromGenesis` | app/src/handlers/messenger.ts:72-116 | from genesis a message took effect once exactly when it is marked successful, and never twice |
| `GuestBoot.DevnetIsAccepted` | app/src/ledger.ts:114-122 | the devnet geometry passes the checks and nothing in it wraps |
| `GuestBoot.CreateBlank` | app/src/ledger.ts:150-164 | a ledger on a blank device is the genesis ledger |
| `GuestRun.Serve` | app/src/router.ts:220-239 | any inputs served in order leave the drive's bytes standing for the run over values, with its replies and an empty journal after each |
| `GuestRun.ServeFromBlank` | app/src/ledger.ts:150-164 | from a blank device, after any inputs, the ledger in the bytes balances to the wei, its supplies are held, its messenger can pay, and every account's nonces were charged in order |

## Left out

- Byte encodings outside the drive: RLP, ABI, keccak, the withdrawals trie's nodes and signatures are uninterpreted; a machine input is the record of its fields.
- The machine: one deterministic function of state, input and cycle budget; forking, closing and the JSON-RPC transport are not modelled.
- Concurrency: the chain's mutex and the pool's are the order of calls; the pool's critical sections are interleaved in every order, asynchronous guest code is sequential.
- Files and databases: writes succeed; checkpoint directories and their retention are not modelled.
- The five per-block maps of the chain are one map of records, so none can be missing for a known block; the branches that report one missing are not modelled.
- ChainState.Chain.Commit: does not call the pool; that the pool drops exactly the named transactions is proved of the pool alone.
- ChainStore.Store.PutBlock: keeps the block's height only; the block's own bytes and records are read back through the tree of blocks.
- Emissions.BuildReceipts: leaves out sender, target, transaction type and bloom, which are copied or hashed from fields the model does not carry.
- AccountProof.ProveAccount: leaves out the header page, which is always sent, and the machine's own proof of each page.
- DriveFormat.Open: the drive's length, which the header does not hold, is taken from the store.
- Refusals, reverts and faults carry their text where the source encodes it; view calls other than simulation, which only read, are left out.
- L1 block attributes and an application's own memory lie outside the journal, as in the source, and outside the model.
- Withdrawal nonces and relay gas are uninterpreted functions of the arguments the source computes them from.
- GuestRouter.AdvanceSigned: a signature that recovers to the zero address counts as one that does not verify.
- ChainState.Chain.BuildPayload: asks that the parent is below the last height a word can number.
- ChainState.Chain.AdoptBuilt: asks that the parent is below the last height a word can number.
- ChainState.Chain.ForkchoiceUpdated: asks that a head to build on is below the last height a word can number.
- ChainState.Chain.ImportPayload: asks that the payload's own hashes collide with nothing built here, and that its parent is below the last height a word can number.
- The drive again in C, Rust and Python, and the ABI drive, a registry of contract interfaces written once at boot.
- The engine API and JSON-RPC servers, which decode requests and call the chain; the devnet, deployment and release scripts.
