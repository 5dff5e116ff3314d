# FairCoin Core, verified models

FairCoin Core is a full node of a Bitcoin-derived currency. This project models the algorithms
that hold its state together and proves what they promise, for all inputs, all blocks and all
runs. `dafny verify dfyconfig.toml` checks it.

The modules follow the program:

- **Coins and blocks.** `Coins` (transaction outputs, `CCoins`), `CoinsCache` (the stack of
  write-back caches over the coin database), `BlockCoins`, `Undo`, `Rollback`, `RollbackWitness`,
  `LostFlags` (applying blocks, taking them back, and what a rollback loses), `BlockRules`, `TxOutputs`
  (the rules of a block and what it leaves, in bytes and values), `CoinSums`,
  `AddressIndex`, `IndexBlocks`, `IndexBatches` (address, unspent and spent index), `Ledger`,
  `LedgerSteps`, `LedgerDeltas`, `LedgerKeys`, `LedgerUnspent`, `LedgerSpent`, `LedgerRuns`,
  `LedgerWitness`, `UndoFile` (everything together over runs of connects, disconnects and flushes),
  `BlockProcessing` (the loops of `ConnectBlock` and `DisconnectBlock` on the caches).
- **Script check queue.** `CheckQueue` (the critical sections), `CheckQueueRuns` (all interleavings).
- **Address manager.** `AddrBook`, `AddrSteps` (the state, its invariant and the operations on it),
  `AddrOutcomes` (what the operations do to single entries), `AddrMan` (the class with its arrays and maps), `AddrManStream` (saving and loading).
- **Block tree.** `SkipHeights`, `BlockIndex`, `Locator` (skip list, active chain, locators),
  `ChainState`, `BestChain` (candidates and the choice of the active chain), `Reorganisation`,
  `ReorganisationRuns` (which reorganisations the coins allow).
- **Numbers and formats.** `Powers`, `ArithUint`, `Compact`, `Serial`, `CoinsCodec`,
  `UndoCodec`, `Digits`, `Base58`.
- **Smaller machines.** `NodeState` (blocks in flight, sync latch), `StakeModifier`.
- `Options` holds one datatype, `Sets` one lemma.

Where the program changes things in place, so does the model: classes with the program's fields,
and methods with its loops, each proved against a function of the state. What the program
promises is then proved about those functions.

## What the proofs found

- `DisconnectBlock` does not put the coinstake flag back (src/main.cpp:2324-2326), although
  `Spend` saves it (src/coins.cpp:47). Rolling back the block that created a coinstake then reports
  a mismatch exactly when a block rolled back before it had emptied that coinstake
  (`Rollback.RollbackIff`). No rollback of up to `maturity` blocks is affected
  (`Rollback.ShallowRollbackSucceeds`); for every maturity, and every proof-of-work period at least as
  long, a chain from genesis fails one block deeper (`RollbackWitness.RollbackCanFail`): proof-of-work
  blocks up to the end of the period, and above it blocks of an empty coinbase and a coinstake,
  the last of which spends both outputs of the first. A shorter period lets no stake mature and no
  chain get beyond it (`RollbackWitness.NoStakeWithoutMaturity`). In any run the disconnect of the tip
  is clean exactly when its coinstakes are still marked (`LedgerSteps.EveryRunKeepsCoins`), and once
  it has failed the block can never be disconnected again (`LedgerSteps.FailedDisconnectIsForEver`).
- So a reorganisation to valid blocks with more work can be refused, although no data is corrupted:
  exactly when a coinstake above the fork was emptied by a later block of the active chain, or has
  lost its flag in an earlier rollback (`Reorganisation.ReorganisationIff`, and after any run
  `ReorganisationRuns.EveryRunReorganises`). `ActivateBestChain` then returns false with the tip below
  where it was (`BestChain.ChainManager.ActivateBestChain`); `Reorganisation.RefusedReorganisation` has
  it happen on the chain above.
- A lost flag also switches off the maturity test (src/main.cpp:2130): a node that has rolled back
  accepts blocks that another node refuses, exactly those that spend such a coinstake too early
  (`LostFlags.BlockAdmittedIff`).
- `DisconnectBlock` writes the indexes before its caller looks at `fClean` (src/main.cpp:2366-2382).
  When it is false the coins stay and the indexes have dropped the block
  (`LedgerRuns.UncleanDisconnectDiverges` says exactly when each index is then wrong, and
  `LedgerWitness.UncleanRunExists` gives a run from nothing). In whatever follows, the deltas lag by
  what the block had moved (`LedgerDeltas.EveryRunDeltas`) and the spent entries of the block are
  missing (`LedgerSpent.EveryRunSpent`), but the unspent index is put right output by output, each time
  a later block that touches one is connected or taken back (`LedgerUnspent.EveryRunUnspent`).
- The undo data of a block are written once, so that a block connected again after a rollback keeps
  those of its first connect. This makes no difference: what changes is the coinstake flag and the
  version, and `DisconnectBlock` reads neither the flag nor what the file drops of a version
  (`UndoFile.KeptUndoIsAsGood`).
- A negative transaction version, which `CheckTransaction` accepts, loses all but seven bits in the
  undo file (`UndoCodec.UndoExactIff`) and in the coin database (`CoinsCodec.RoundTrip`). The checksum
  of the undo file does not notice (`UndoCodec.FileRoundTrip`), and `DisconnectBlock` stays clean
  because it takes over a negative version of the block before it compares (src/main.cpp:2301-2302,
  `Undo.RemoveAfterAdd`). The state before the block is back exactly when no emptied record was a
  coinstake or had a negative version (`Rollback.DisconnectExactIff`).
- `CAddrMan::Clear` empties neither mapInfo nor mapAddr (src/addrman.h:428-446). Loading a stream
  starts with it, and starts from an empty, consistent state only in a manager that held no entries
  (`AddrManStream.ClearedIsConsistentIff`). From a stream without entries any other manager comes out
  with all its old entries and fails `Check_` (`AddrManStream.UnserializeNothing`).
- The unspent index gets the undo height back (src/main.cpp:2350), which is the output's height
  only if the spend emptied the record (`AddressIndex.RestoredHeightIff`). Agreement of the unspent
  index is therefore stated on key, amount and script.
- Flushing a cache whose own best block hash is null clears that of the cache below
  (`CoinsCache.CoinsViewCache.Flush`).
- The comment above `CCoins` in src/coins.h describes another bit layout than the code, which uses
  the bits 1, 2, 4 and 8 and the factor 16. The model follows the code; `CoinsCodec.DocumentedExample`
  has the bytes of the documented record. Two of the examples above `WriteVarInt` in src/serialize.h
  are off as well (`Serial.DocumentedNumbers`).
- `x *= x` on a `base_uint` gives zero, since the operand is cleared together with the result
  (`ArithUint.BaseUint.Multiply`).
- `Good_` with a time that is not positive, and `Attempt_` with a negative one, break what `Check_`
  tests (`AddrSteps.GoodKeepsIff`, `AddrSteps.AttemptKeepsIff`). `Add_` may report true for an
  address that it drops at once; `AddrSteps.AddKeeps` says exactly when.
- `FinalizeNode` leaves `nQueuedValidatedHeaders` as it is, so that the counter runs ahead by the
  validated blocks of every peer that has left (`NodeState.RunKeepsPeers`).
- `FindMostWorkChain` never meets a block without data while `nChainTx` is only set by
  `ReceivedBlockTransactions`, so its branch for missing data is never taken and its assertion holds
  (`BestChain.ChainManager.FirstBad`).
- The modifier of the first block after genesis is the number of a string's address
  (src/kernel.cpp:160); it is a parameter here.

## Conventions

Hashes are natural numbers and hash functions are parameters. Amounts, heights and counters are
unbounded unless a width matters to the code: limbs, compact words, the accumulators,
the 32-bit times of the address manager. Random draws are parameters with any value. The
databases keep what is written to them, in order, except that the coin database and the undo file
keep of a version what `CoinsCodec` and `UndoCodec` say. Times and random numbers that a run meets are
arbitrary unless a member says otherwise.

## Model

| member | source | states |
|---|---|---|
| Coins.TrimUnique | src/coins.h:120-126 | cleaning up has one possible outcome: the only list without a null tail that differs from the original by null outputs at the end |
| Coins.TrimmedPrunedIffEmpty | src/coins.cpp:142-150 | for a cleaned-up record, empty means pruned, which is why HaveCoins may test emptiness |
| Coins.CoinsRecord.Cleanup | src/coins.h:120-126 | the loop that pops null outputs leaves the trimmed record |
| Coins.CoinsRecord.ClearUnspendable | src/coins.h:128-135 | outputs whose script begins with OP_RETURN become null and the tail is dropped; TxOutputs.OutputLivesIff has the bytes |
| Coins.CoinsRecord.FromTx | src/coins.h:91-99 | the record of a transaction at a height; TxOutputs.OutputLivesIff and TxOutputs.RecordTells say what is in it |
| Coins.CoinsRecord.Spend | src/coins.cpp:35-51 | refuses a missing output and leaves the record alone; otherwise nulls it, cleans up, and saves height, flags and version exactly when nothing is left |
| CoinsCache.FillKeeps | src/coins.cpp:85-101 | reading a record through into the cache changes nothing that is visible and keeps the flag discipline |
| CoinsCache.WriteEntryRefines | src/coins.cpp:268-276 | what a modifier leaves behind writes exactly one key of the visible map, also when it erases a fresh pruned entry |
| CoinsCache.MergeEntryRefines | src/coins.cpp:164-199 | merging one well-flagged child entry writes exactly that key of the parent; the assertion at line 176 never fires |
| CoinsCache.RestStaysOk | src/coins.cpp:164-199 | the child entries still to come stay well flagged after each merge |
| CoinsCache.MergeAll | src/coins.cpp:164-199 | in whatever order the child map is walked, the parent ends with the child's visible map and sound flags |
| CoinsCache.WriteAll | src/txdb.cpp:59-78 | a batch into the database leaves there the child's visible map as it will be read back: without pruned records, and with negative versions cut as the format cuts them |
| CoinsCache.CoinsViewDB.BatchWrite | src/txdb.cpp:59-78 | the stored map becomes the child's visible map as the format keeps it; the best block changes only for a hash that is not null |
| CoinsCache.CoinsViewCache.FetchCoins | src/coins.cpp:85-101 | no visible map of the stack changes; existing entries stay as they are; not found means not live |
| CoinsCache.CoinsViewCache.GetCoins | src/coins.cpp:103-111 | finds the visible record, or a pruned one or none when there is no live one; nothing visible changes |
| CoinsCache.CoinsViewCache.HaveCoins | src/coins.cpp:142-150 | true exactly for a live record |
| CoinsCache.CoinsViewCache.GetBestBlock | src/coins.cpp:152-157 | the best block hash of the first layer that has one |
| CoinsCache.CoinsViewCache.ModifyCoins | src/coins.cpp:113-130 | hands out the visible record, marks it dirty, changes nothing visible yet |
| CoinsCache.CoinsViewCache.Release | src/coins.cpp:268-276 | writes exactly one key of the visible map |
| CoinsCache.CoinsViewCache.BatchWrite | src/coins.cpp:164-199 | the layer's visible map becomes the child's; the layers below keep theirs; the best block hash is taken over even when null |
| CoinsCache.CoinsViewCache.Flush | src/coins.cpp:201-206 | the map below becomes this layer's map and nothing else changes, except that a flush to disk cuts negative versions in both; the best block arrives below exactly when this layer has one, or the store below keeps its own |
| CoinsCache.CoinsViewCache.FlushAll | src/coins.cpp:201-206 | flushing all layers down puts the visible map into the database, with the versions the format keeps |
| CoinsCache.RunIsLocal | src/coins.cpp:85-206 | what a program answers and leaves in the top layers does not depend on deeper layers, but for whether the next one is the disk |
| CoinsCache.RunKeepsDeeper | src/coins.cpp:85-206 | no program on a layer changes a map more than one layer down |
| CoinsCache.ScopeIsTransaction | src/coins.cpp:201-206 | work on a temporary layer followed by a flush equals the work done directly; without the flush it has no effect |
| CoinsCache.Run | src/coins.cpp:85-276 | every program of reads, writes, flushes and nested layers, over a stack of any depth, answers and leaves in every layer and in the database what the run on plain maps says, where only a flush to disk changes anything, namely negative versions |
| BlockCoins.SpendKeepsOthers | src/coins.cpp:35-51 | spending one output leaves every other output as available as it was |
| BlockCoins.CanSpendIff | src/main.cpp:2082-2096 | the assertion in UpdateCoins holds for all inputs exactly when they are available and pairwise distinct |
| TxOutputs.OutputLivesIff | src/coins.h:91-135 | after UpdateCoins, output k of a transaction is a coin, with its value and script, exactly when its script is empty or does not begin with the byte 0x6a |
| TxOutputs.RecordTells | src/primitives/transaction.h:252-262 | the record has the height, the version and the two flags: a coinbase has a single input, with a null hash and index 0xffffffff; a coinstake an input that is not such, and at least two outputs, the first without value and script |
| TxOutputs.UndoTells | src/coins.cpp:35-51 | the undo record of a spend holds the output, and with it height, version and flags of the record if no other output is left, and height zero otherwise |
| TxOutputs.AcceptedOutputLives | src/main.cpp:2082-2096 | in a block that passes, an output is a coin right after its transaction exactly when its script does not begin with 0x6a |
| TxOutputs.BlockLeaves | src/main.cpp:2508-2603 | the coins after a block that passes: those from before and its own outputs whose script does not begin with 0x6a, less what the block spends |
| TxOutputs.StandardIsSpendable | src/main.cpp:2212-2239 | whoever indexes only scripts to the hash of a key, to the hash of a script, or that begin with a push, indexes no output that is not a coin, as the index theorems ask for |
| TxOutputs.StandardScripts | src/script/script.cpp:237-244 | such scripts are 76 a9 14 hash 88 ac and a9 14 hash 87, and no others |
| BlockRules.AcceptsIff | src/main.cpp:985-1031 | a block is connected exactly when it keeps the rules written out in values: one transaction from nowhere, first; no negative and no misplaced empty output; stakes only above the proof-of-work period, as the second transaction; new ids; every input there, taken once, and matured if a coinbase or coinstake made it; supply below its limit |
| Undo.OutputRestores | src/main.cpp:2333-2335 | growing the trimmed outputs back and putting the output in place restores the list |
| Undo.RestoreAfterSpend | src/main.cpp:2316-2335 | undoing one spend with the undo record read back from disk restores the map, without complaint, up to the coinstake flag and a negative version of emptied records, whatever flags and versions were lost before |
| Undo.RemoveAfterAdd | src/main.cpp:2292-2308 | the outputs of a transaction just added match the block and are removed again, also when its version was cut on disk (because of lines 2301-2302), unless its coinstake mark was lost |
| Undo.DisconnectTxUndoes | src/main.cpp:2265-2361 | disconnecting one transaction with its undo data read back undoes applying it, without complaint exactly when its own coinstake mark is intact |
| Undo.DisconnectFirstUndoes | src/main.cpp:2265-2361 | the reverse walk undoes any number of transactions, up to coinstake flags and negative versions of emptied records |
| Rollback.StakesSurviveTheirBlock | src/main.cpp:2130-2131 | coinstakes of a block that passes the checks are still unspent at its end, because of maturity |
| Rollback.DisconnectUndoesConnect | src/main.cpp:2241-2383 | for every state and every block that passes, DisconnectBlock with the undo data read back from disk reports clean and gives back every output, height and coinbase flag; records that the block emptied have lost their coinstake flag and all but seven bits of a negative version |
| Rollback.DisconnectExactIff | src/main.cpp:2298-2326 | the state comes back exactly if and only if the block empties no coinstake and no record with a negative version |
| Rollback.RollbackIff | src/main.cpp:2241-2383 | rolling back any number of blocks gives the state up to flags and negative versions of emptied records, and is clean if and only if no block empties an earlier coinstake of those rolled back |
| Rollback.ShallowRollbackSucceeds | src/main.cpp:2130-2131 | rolling back no more blocks than the maturity is always clean |
| LostFlags.BlockAdmittedIff | src/main.cpp:2129-2135 | a block is acceptable on the true coins if and only if it is on the worn ones and spends no lost coinstake before maturity; so a node that has rolled back accepts more than one that has not, by exactly the blocks with such an input |
| RollbackWitness.RollbackCanFail | src/main.cpp:2292-2304 | for every maturity and every proof-of-work period at least as long: a chain from genesis, each block of the kind its height asks for and passing its checks, whose maturity + 1 proof-of-stake blocks cannot be rolled back, one block deeper than what is always safe |
| RollbackWitness.ChainPasses | src/main.cpp:2444-2450 | the blocks of that chain pass the checks one after the other, from nothing on: proof of work up to LAST_POW_BLOCK, and above it an empty coinbase and a coinstake each |
| RollbackWitness.NoStakeWithoutMaturity | src/main.cpp:2444-2450 | with a proof-of-work period shorter than the maturity no coinbase has matured when the first stake is due, and no chain gets beyond the period: the cases of the witness are all there are |
| CoinSums.SumAfterSpend | src/coins.cpp:35-51 | spending takes exactly the output's weight out of any sum over unspent outputs |
| CoinSums.SumAfterTx | src/main.cpp:2082-2096 | a transaction moves any sum over unspent outputs by its spendable outputs minus its inputs |
| AddressIndex.ForwardAgrees | src/main.cpp:2523-2593 | one index write keeps the unspent index equal to the indexable unspent outputs |
| AddressIndex.BackwardUndoesForward | src/main.cpp:2269-2358 | one index write taken back restores deltas and spent index exactly |
| AddressIndex.SumAfterForward | src/main.cpp:2536-2538 | one fresh write moves the sum of an address's deltas by exactly the credited amount |
| AddressIndex.TxEventsFit | src/main.cpp:2508-2603 | the writes of a transaction, inputs before outputs, walk the unspent outputs from before it to after it |
| AddressIndex.TxEventsFresh | src/main.cpp:2508-2603 | no write of a transaction hits an existing delta or spent entry |
| AddressIndex.UndoRemembersPrevouts | src/main.cpp:2337-2340 | the undo data names the very outputs ConnectBlock indexed as spent |
| AddressIndex.RestoredHeightIff | src/main.cpp:2348-2350 | the height put back into the unspent index is the right one if and only if the spend emptied the record |
| IndexBlocks.ConnectIndexKeeps | src/main.cpp:2508-2603 | connecting a block keeps all indexes in step with the coins and never writes over an existing entry |
| IndexBlocks.DisconnectIndexUndoes | src/main.cpp:2269-2375 | disconnecting brings back deltas and spent index exactly, and the unspent index in key, amount and script |
| IndexBlocks.CreditsOfTx | src/main.cpp:2536-2587 | the deltas of a transaction add up to what it pays an address minus what it takes |
| IndexBlocks.BalanceMoves | src/main.cpp:2508-2603 | connecting changes an address's deltas by as much as its unspent outputs |
| IndexBatches.NoteInputs | src/main.cpp:2523-2553 | the spending loop gathers exactly the events of the inputs, read before any is spent; LedgerKeys.ConnectKeys says under which keys |
| IndexBatches.NoteOutputs | src/main.cpp:2576-2593 | the receiving loop gathers the events of the outputs |
| IndexBatches.UnnoteTx | src/main.cpp:2269-2359 | the two backward loops gather the events taken back in reverse order |
| IndexBatches.BlockTreeDB.Write | src/txdb.cpp:195-273 | gathered batches applied in order give the index they stand for |
| Ledger.SupplyMoves | src/main.cpp:2506-2608 | value unspent plus value dropped as unspendable grows by exactly what a block mints |
| TxOutputs.BlockBurns | src/script/script.h:600-603 | what a block burns is the value of its outputs whose script begins with 0x6a |
| Ledger.ConnectSpent | src/main.cpp:2545-2551 | connecting adds exactly the spent entries that the block and its undo data tell |
| Ledger.ConnectKeepsGoodCoins | src/main.cpp:2506-2608 | connecting keeps coins, undo data and supply in order, whatever the indexes hold |
| Ledger.ConnectKeepsGood | src/main.cpp:2508-2634 | connecting keeps coins, three indexes and money supply in agreement |
| LedgerSteps.DisconnectBringsCoins | src/main.cpp:2808-2847 | a clean DisconnectTip brings coins and chain back up to wear, and any other leaves them alone, whatever the indexes hold |
| LedgerSteps.CleanIffMarked | src/main.cpp:2292-2304 | DisconnectBlock of the tip is clean if and only if the tip's coinstakes are unspent and still marked |
| LedgerSteps.RunLeavesCoinTrail | src/main.cpp:2709-2900 | every run leaves a trail of states with good coins, and every block whose disconnect ever failed has lost a mark on it |
| LedgerSteps.EveryRunKeepsCoins | src/main.cpp:2506-2900 | after every run of connects, disconnects clean or not, and flushes, with any ids: well-formed coins, undo data for every block, supply equal to unspent plus burned and within the maximum, and a disconnect of the tip that is clean if and only if its coinstakes are live and marked |
| LedgerSteps.FailedDisconnectIsForEver | src/main.cpp:2820-2821 | once the disconnect of a block has failed, that block stays on the chain and can never be disconnected, in every run that follows |
| LedgerDeltas.ConnectDeltas | src/main.cpp:2523-2593 | the deltas a block writes are those its stored undo data tell; LedgerKeys.ConnectKeys has them key by key |
| LedgerDeltas.DisconnectDeltas | src/main.cpp:2366-2371 | disconnecting takes exactly the block's deltas out again |
| LedgerDeltas.BlockMovesBalance | src/main.cpp:2523-2593 | a block moves every balance by what its events credit |
| LedgerDeltas.EveryRunDeltas | src/main.cpp:2366-2371 | after every run, failed disconnects and all that follows them included, the deltas of every address add up to its balance less what the blocks with a failed disconnect had moved |
| LedgerKeys.ConnectKeys | src/main.cpp:2523-2593 | connecting a block at height h adds exactly these deltas: for input j of transaction i, minus the value of the coin it spends, under its address, h, i, the id of transaction i, j and the spending mark; for output k its value, under its address, h, i, the id, k and no mark |
| LedgerKeys.EveryRunKeys | src/main.cpp:2269-2593 | after every run, failed disconnects included, a delta is stored under a key exactly when the block at its height, unless its disconnect has failed, has that input or output, and with that value |
| LedgerKeys.ConnectUnspent | src/main.cpp:2576-2593 | a block at height h enters each indexed output it makes and does not spend, with value, script and h, and leaves alone what it neither makes nor spends |
| LedgerKeys.DisconnectUnspent | src/main.cpp:2337-2358 | taking a transaction back enters each indexed output it had spent, with the value, script and height of the undo record |
| LedgerRuns.DisconnectComesBack | src/main.cpp:2808-2847 | a clean DisconnectTip returns to the state before the block, up to flags and cut versions of coins and unspent-index heights, with everything in agreement |
| LedgerRuns.RunLeavesTrail | src/main.cpp:2808-2900 | every run with new ids and clean disconnects leaves a trail of good states to go back to |
| LedgerRuns.RunKeepsLedger | src/main.cpp:2212-2634 | after any such run the unspent index holds exactly the indexable unspent outputs, deltas add up to balances, the spent index names exactly the outputs spent on the active chain, and the supply is unspent plus burned and within the maximum; the runs that go on after failed disconnects are in EveryRunKeepsCoins, EveryRunDeltas, EveryRunUnspent and EveryRunSpent |
| LedgerUnspent.BlockMoves | src/main.cpp:2523-2593 | an output is live after a block if and only if it was before or the block made it, and the block did not spend it; what it spends was live or made by it |
| LedgerUnspent.CleanRunsAgree | src/main.cpp:2212-2239 | after every run without a failed disconnect, whatever ids the transactions have, the unspent index lists exactly the indexable live outputs |
| LedgerUnspent.EveryRunUnspent | src/main.cpp:2366-2382 | after every run, failed disconnects and all that follows them included, the unspent index lists the indexable live outputs, the other way round for a set that every failed disconnect fills with what its block spent or made but not both, and that every later connect or clean disconnect of a block clears of what it touches; so it agrees if and only if nothing indexable is in that set |
| LedgerUnspent.AgreesIffNoneOff | src/txdb.cpp:195-215 | an index that is the wrong way round for some outputs agrees with the coins if and only if none of these is indexable |
| LedgerSpent.TrailSpendsOnce | src/main.cpp:2545-2551 | with ids new on their chain no output is spent by two blocks of the active chain |
| LedgerSpent.EveryRunSpent | src/main.cpp:2366-2382 | after every run with ids new on their chain, failed disconnects included, the spent index names exactly what the blocks without a failed disconnect spent, each output with its spender; so it names everything spent on the chain if and only if the others spend nothing |
| UndoFile.DisconnectReads | src/main.cpp:2310-2358 | coins, verdict and index writes of a disconnect do not depend on the coinstake flag in the undo data, nor on what the file drops of a version |
| UndoFile.BlockUndoWorn | src/coins.cpp:35-51 | on coins worn by a rollback or by the disk a block gives undo data that read back the same but for that flag |
| UndoFile.EveryRunCoins | src/main.cpp:2808-2900 | after every run the coins are those that connecting the blocks of the active chain from genesis on gives, up to lost flags and cut versions, whatever was connected and disconnected on the way |
| UndoFile.KeptUndoIsAsGood | src/main.cpp:2638-2655 | a run that writes the undo data of a block only once, at its first connect, and one that writes them at every connect accept the same blocks, have the same clean disconnects, and the same coins, indexes and supply throughout |
| LedgerRuns.UncleanDisconnectDiverges | src/main.cpp:2366-2382 | a disconnect that fails keeps coins and chain but has already written the indexes: deltas then agree exactly for an address whose balance the block did not change, the unspent index exactly when the block changed no indexable output, the spent index exactly when it spent nothing |
| LedgerWitness.UncleanRunExists | src/main.cpp:2292-2371 | for every maturity, every proof-of-work period at least as long and every indexed address: a run from nothing, with all blocks accepted, each of the kind its height asks for and minting no more than it allows, ids new and disconnects clean but the last, after which the balance is off by one and unspent and spent index are wrong too |
| BlockProcessing.SpendOutput | src/main.cpp:2088-2090 | one modifier on the cache spends one output; the assertion holds |
| BlockProcessing.UpdateCoins | src/main.cpp:2082-2096 | on the layered cache, exactly the state and undo data of the specification; lower layers untouched |
| BlockProcessing.CheckTxInputs | src/main.cpp:2107-2135 | true exactly when all inputs are available and matured |
| BlockProcessing.CheckNoOverwrite | src/main.cpp:2469-2476 | true exactly when no transaction id of the block is live |
| BlockProcessing.SumInputs | src/coins.cpp:220-230 | the value of all inputs |
| BlockProcessing.GatherTx | src/main.cpp:2523-2593 | one transaction adds its events to the batches |
| BlockProcessing.ConnectBlock | src/main.cpp:2444-2634 | succeeds exactly for a block of the kind its height asks for that passes and stays within the maximum; then state, undo data, supply and index are the specified ones |
| BlockProcessing.TakeOutputs | src/main.cpp:2292-2308 | compares the stored record with the block's and removes it |
| BlockProcessing.ReadUndo | src/main.cpp:2251-2255 | the undo data as they come back from the file |
| BlockProcessing.PutBackInput | src/main.cpp:2315-2335 | puts one output back and reports what was out of place |
| BlockProcessing.DisconnectBlock | src/main.cpp:2241-2383 | undo data of the wrong shape leaves the index alone; otherwise cleanliness, index and, when clean, state are those specified for the undo data read back from disk |
| BlockProcessing.ConnectTip | src/main.cpp:2859-2891 | on failure nothing of the coins changes; on success the tip's map is the block applied |
| BlockProcessing.DisconnectTip | src/main.cpp:2808-2824 | the coins change only when clean, the index also when not |
| BlockProcessing.ConnectThenDisconnect | src/main.cpp:2808-2891 | connecting and disconnecting on the real layers goes through and gives back the coins up to flag and negative version of emptied records, and the indexes |
| CheckQueue.CCheckQueue.BeginRound | src/checkqueue.h:76-107 | entering the critical section folds in the last round and then returns, sleeps or takes work |
| CheckQueue.CCheckQueue.Resume | src/checkqueue.h:101-107 | waking up re-tests the queue before anything else |
| CheckQueue.CCheckQueue.ReturnSleepOrTake | src/checkqueue.h:91-119 | returns only a master with nothing to do, sleeps on an empty queue, and otherwise takes the batch from the end |
| CheckQueue.CCheckQueue.Add | src/checkqueue.h:146-158 | appends the checks and counts them |
| CheckQueue.BatchBounds | src/checkqueue.h:107-111 | a batch has at least one check; with more than one it is no larger than the batch size and leaves as many for every other thread, and it is never smaller than these two allow |
| CheckQueue.TakesTheLast | src/checkqueue.h:112-119 | the checks taken are those added last, the last one first; the others and all counters stay |
| CheckQueueRuns.StepKeepsInv | src/checkqueue.h:69-158 | every step of every thread keeps: nTodo is queue length plus batches in hand, counts of idle and total threads, and the folded result |
| CheckQueueRuns.RunKeepsInv | src/checkqueue.h:69-158 | so does every interleaving of any number of workers, with spurious wake-ups |
| CheckQueueRuns.WaitReturnsConjunction | src/checkqueue.h:91-104 | in every run Wait returns exactly the conjunction of all checks added since the last Wait, each of them taken exactly once |
| CheckQueueRuns.AddWakes | src/checkqueue.h:152-157 | adding a single check wakes one sleeping worker, if any, and no other thread; adding more wakes them all |
| CheckQueueRuns.NextControllerFindsIdle | src/checkqueue.h:183-190 | the assertion in the controller's constructor always holds |
| CheckQueueRuns.NoDeadlock | src/checkqueue.h:91-104 | as long as the master has not returned from Wait, some thread can take a step that makes progress |
| CheckQueueRuns.ProductiveStepsEnd | src/checkqueue.h:69-127 | each such step lowers a measure |
| CheckQueueRuns.WaitEnds | src/checkqueue.h:140-143 | so a schedule of such steps is no longer than the measure, and where none is left to take the master is back |
| AddrBook.SwapKeeps | src/addrman.cpp:101-119 | swapping two places of vRandom keeps consistency |
| AddrBook.DeleteKeeps | src/addrman.cpp:121-133 | Delete keeps consistency of everything else |
| AddrBook.ClearKeeps | src/addrman.cpp:135-148 | ClearNew empties the slot, keeps consistency, and its assertion and those of Delete hold |
| AddrBook.UnlistAllKeeps | src/addrman.cpp:152-162 | taking an entry off all new slots leaves it without references, as asserted |
| AddrBook.EvictKeeps | src/addrman.cpp:170-178 | taking the occupant out of the tried table keeps the rest consistent |
| AddrBook.CreateKeeps | src/addrman.cpp:89-99 | Create keeps consistency up to the entry not yet on any slot |
| AddrSteps.MakeRoomKeeps | src/addrman.cpp:168-190 | the evicted entry ends in its new slot and whatever was there is cleared |
| AddrSteps.MakeTriedKeeps | src/addrman.cpp:150-196 | MakeTried keeps consistency and its four assertions hold |
| AddrSteps.GoodKeepsIff | src/addrman.cpp:198-245 | Good_ keeps the whole of Check_ if and only if the address is unknown or the time is positive |
| AddrSteps.AttemptKeepsIff | src/addrman.cpp:315-332 | Attempt_ keeps it if and only if the address is unknown or the time is not negative |
| AddrSteps.ConnectedKeeps | src/addrman.cpp:472-490 | Connected_ keeps it for every time |
| AddrSteps.AddKeeps | src/addrman.cpp:247-313 | Add_ keeps it; it reports true exactly for an unknown routable address, which is then really stored exactly when its slot was to be had; AddrOutcomes.NewcomerIsInIff says when that is |
| AddrOutcomes.NewcomerIsInIff | src/addrman.cpp:294-311 | an unknown routable address is in the book afterwards exactly when its slot is free, or its occupant is in another slot too or not worth keeping: not tried within a minute, and never seen, seen over 30 days ago, more than ten minutes ahead, or failed too often |
| AddrOutcomes.OldOccupantGoes | src/addrman.cpp:294-311 | in particular an occupant never seen, or not for 30 days, and not tried within a minute, gives way |
| AddrOutcomes.GoodOccupantStays | src/addrman.cpp:294-311 | an entry in one slot only that was tried within a minute, or is fresh and has not failed too often, survives every Add_ and keeps that slot |
| AddrOutcomes.NewcomerIs | src/addrman.cpp:286-311 | an address let in is in its one slot, seen at the time heard less the penalty, untried |
| AddrOutcomes.KnownIsRefreshed | src/addrman.cpp:256-264 | a known address is seen at the time heard, less the penalty, if it was never seen or more than an hour before that, a day if what was heard is a day old; services are joined; nothing else changes |
| AddrOutcomes.LeftAlone | src/addrman.cpp:266-284 | a known address gets no further slot when it is tried, has eight, nothing new was heard, or the draw is against it |
| AddrOutcomes.GoodTells | src/addrman.cpp:198-245 | Good_ on an untried address: times set, attempts forgotten, out of all new slots and into its tried slot, whose occupant goes to the new slot of its own address and source |
| AddrOutcomes.GoodAgain | src/addrman.cpp:212-217 | on a tried one it sets times and attempts only |
| AddrOutcomes.AttemptTells | src/addrman.cpp:315-332 | Attempt_ notes the time and one more attempt of that very service |
| AddrOutcomes.ConnectedTells | src/addrman.cpp:472-490 | Connected_ moves the time seen only when it is more than twenty minutes old |
| AddrMan.CAddrMan.SwapRandom | src/addrman.cpp:101-119 | the fields follow the step |
| AddrMan.CAddrMan.Delete | src/addrman.cpp:121-133 | its three assertions hold for an entry in no table, and vector, maps and counter follow the step |
| AddrMan.CAddrMan.Clear | src/addrman.h:428-446 | vector, tables and counters are emptied; mapInfo and mapAddr are not |
| AddrMan.CAddrMan.ClearNew | src/addrman.cpp:135-148 | the fields follow the step; its assertion holds |
| AddrMan.CAddrMan.UnlistEverywhere | src/addrman.cpp:152-162 | the loop over all new buckets takes the entry off every slot |
| AddrMan.CAddrMan.EvictTo | src/addrman.cpp:168-191 | the occupant of a tried slot moves to its new slot |
| AddrMan.CAddrMan.MakeTriedEntry | src/addrman.cpp:150-196 | the fields follow the step; all assertions hold |
| AddrMan.CAddrMan.FindBucket | src/addrman.cpp:224-234 | from any starting bucket the search finds a new bucket of the entry |
| AddrMan.CAddrMan.Good_ | src/addrman.cpp:198-245 | the fields follow the step; the bail-out for a missing bucket never happens |
| AddrMan.CAddrMan.Attempt_ | src/addrman.cpp:315-332 | the fields follow the step |
| AddrMan.CAddrMan.Connected_ | src/addrman.cpp:472-490 | the fields follow the step |
| AddrMan.CAddrMan.Add_ | src/addrman.cpp:247-313 | the fields follow the step, for every random draw; module AddrOutcomes says what becomes of the entries |
| AddrMan.CAddrMan.GetAddr_ | src/addrman.cpp:451-470 | returns distinct known addresses, none terrible, at most the limit, and as many as there are when the limit allows; only the order of vRandom changes |
| AddrMan.LimitIs | src/addrman.cpp:453-455 | the limit is 23 percent of the addresses, but 2500 at the most |
| AddrMan.CheckFindsNothing | src/addrman.cpp:374-448 | a consistent state passes every test of Check_ that concerns the tables, maps and counters |
| AddrMan.RunOp | src/addrman.cpp:198-490 | one operation keeps consistency |
| AddrMan.RunOps | src/addrman.cpp:198-490 | every sequence of Add_, Good_, Attempt_, Connected_ and GetAddr_ with positive times keeps consistency |
| AddrManStream.WriteNewEntries | src/addrman.h:289-299 | writes each referenced entry once and numbers it; the assertion holds |
| AddrManStream.WriteTriedEntries | src/addrman.h:300-308 | writes each tried entry once; the assertion holds |
| AddrManStream.Serialize | src/addrman.h:276-323 | writes the stream of the state, in whatever order the map is walked |
| AddrManStream.ReadTriedEntries | src/addrman.h:366-385 | no tried entry collides |
| AddrManStream.ReadBuckets | src/addrman.h:387-403 | every new slot gets its entry back |
| AddrManStream.Prune | src/addrman.h:405-415 | nothing is pruned |
| AddrManStream.Unserialize | src/addrman.h:325-421 | loading what was saved into a manager without entries gives the state with its ids renumbered |
| AddrManStream.ClearedIsConsistentIff | src/addrman.h:428-446 | a manager is empty, and passes Check, after Clear if and only if it held no entries before |
| AddrManStream.UnserializeNothing | src/addrman.h:325-421 | loading an empty stream keeps every entry that was there, prunes none, and gives the saved state if and only if there was none |
| AddrManStream.RenumberedMeans | src/addrman.h:346-403 | renumbered means: same entries but for the last try, same tables under the new ids, same reference counts |
| AddrManStream.RenumberedIsConsistent | src/addrman.h:420-420 | the loaded state is consistent, so the final Check passes |
| AddrManStream.RoundTrip | src/addrman.h:276-421 | saving a consistent manager and loading into a fresh one loses no entry |
| SkipHeights.InvertIsAnd | src/main.cpp:3851-3851 | clearing the lowest one bit is n & (n - 1) |
| SkipHeights.SkipHeight | src/main.cpp:3854-3863 | the skip height is below the height |
| SkipHeights.WalkIsShort | src/main.cpp:3865-3886 | from a height of d binary digits the walk takes at most d (d + 9) / 2 + 1 steps, wherever it goes |
| SkipHeights.LastStretch | src/main.cpp:3875-3883 | between a height with k trailing zeros and the end of its skip pointer at most k (k + 5) / 2 |
| BlockIndex.CBlockIndex.After | src/main.cpp:3307-3311 | a new block's skip pointer leads to its ancestor at the skip height, and it is linked to its parent |
| BlockIndex.CBlockIndex.GetAncestor | src/main.cpp:3865-3886 | for every tree the walk over skip pointers ends within a number of steps quadratic in the binary digits of the height, never follows a null pointer, and finds the block that stepping back one by one finds |
| BlockIndex.CChain.ContainsIff | src/chain.h:519-522 | Contains is membership in the path to the tip |
| BlockIndex.CChain.SetTip | src/chain.cpp:13-24 | although it stops at the first match, the chain becomes the full path to the tip |
| BlockIndex.CChain.FindFork | src/chain.cpp:55-62 | the highest block of the chain that is the given block or an ancestor of it |
| BlockIndex.LastCommonAncestor | src/main.cpp:445-461 | the highest common ancestor; the assertion holds |
| Locator.GetLocator | src/chain.cpp:26-53 | the hashes of the ancestors at the locator's depths, whichever way they are looked up |
| Locator.DepthIs | src/chain.cpp:40-49 | the closed form of the depths: one by one at first, then doubling |
| Locator.LocatorShape | src/chain.cpp:26-53 | starts at the block, descends strictly, ends at genesis, and has logarithmic length |
| Locator.FindForkInGlobalIndex | src/main.cpp:583-595 | the first listed hash on the active chain, or genesis |
| Locator.FoundDepth | src/chain.cpp:40-49 | the first listed depth not above the fork is at most twice the true one, and exact up to depth 11 |
| Locator.FindForkByLocator | src/main.cpp:583-595 | on a locator of a branch it returns a common ancestor within that bound of the true fork |
| ChainState.WorseIsOrder | src/main.cpp:107-126 | the comparator is a strict order, total on distinct addresses |
| ChainState.WorseIff | src/main.cpp:107-126 | less work sorts first, then what was complete later, then the higher address, and in no other case |
| ChainState.LinkedIff | src/main.cpp:4596-4596 | nChainTx is set exactly when a block and all its ancestors have data |
| ChainState.TipIsBest | src/main.cpp:4608-4611 | when no candidate sorts after the tip, no complete valid block does |
| BestChain.ChainManager.BestCandidate | src/main.cpp:3025-3030 | the last candidate in the comparator's order |
| BestChain.ChainManager.FirstBad | src/main.cpp:3034-3068 | the first failed block on the way down to the chain; the assertion holds and no block lacks data |
| BestChain.ChainManager.RemovePath | src/main.cpp:3049-3063 | exactly the failed block and the path above it leave the candidates, and exactly the path above it is marked |
| BestChain.ChainManager.FindMostWorkChain | src/main.cpp:3019-3072 | ends, and returns the best candidate without a failed ancestor, or null when there is none |
| BestChain.ChainManager.PruneBlockIndexCandidates | src/main.cpp:3075-3085 | removes exactly the candidates that sort before the tip; the assertion holds |
| BestChain.ChainManager.ConnectBatch | src/main.cpp:3121-3144 | connects upwards until the first refusal or the first tip with more work than before |
| BestChain.ChainManager.DisconnectTip | src/main.cpp:2808-2847 | takes the tip off when its disconnect is clean, and otherwise changes nothing |
| BestChain.ChainManager.DisconnectToFork | src/main.cpp:3101-3104 | reaches the fork if and only if every block above it yields at its turn, and otherwise stops at the first that does not |
| BestChain.ChainManager.ActivateBestChainStep | src/main.cpp:3091-3154 | fails if and only if an active block off the path refuses to be disconnected at its turn; then the tip is that block, below the old one, and candidates, marks and best block are unchanged; otherwise it marks a new failed block or gets to the goal or to a tip with more work |
| BestChain.ChainManager.ActivateBestChain | src/main.cpp:3161-3214 | ends; on success every complete valid block has less work than the tip, or as much and was complete no earlier, and the tip is never worse than any earlier one; on failure the tip has refused to be disconnected on the way to a better candidate, and is not the best if that one is valid, so that where every block connects it succeeds if and only if the tip is the best; without refusals it succeeds, and blocks that always refuse are never taken off |
| BestChain.ChainManager.FirstSeenStays | src/main.cpp:115-117 | blocks that arrive with no more work than the tip and later sequence numbers do not move it: the next activation succeeds and leaves the active chain as it is |
| BestChain.BestIsFirst | src/main.cpp:107-126 | the best tip has more work than every other complete valid block, or as much and was complete no later |
| BestChain.ChainManager.AddToBlockIndex | src/main.cpp:3285-3311 | a header enters the tree and the invariants are kept |
| BestChain.ChainManager.RejectBlock | src/main.cpp:3809-3811 | marking a block that fails its own checks keeps the invariants |
| BestChain.ChainManager.ReceivedBlockTransactions | src/main.cpp:3355-3400 | data arriving for a block links it and every descendant that waited, with later sequence ids than all before and a parent's below its child's, and keeps the invariants |
| BestChain.ChainManager.LinkQueue | src/main.cpp:3374-3392 | the queue ends with all waiting descendants linked |
| BestChain.Settled | src/main.cpp:3178-3180 | with no candidate left or the tip the best one, the tip is the best of all |
| BestChain.RunEvents | src/main.cpp:3161-3400 | through every sequence of headers, data, rejections and activations, with any refusals, the invariants hold, and after each activation that succeeds every complete valid block has less work than the tip, or as much and was complete no earlier; without refusals each succeeds |
| Reorganisation.TakenOffIff | src/main.cpp:2808-2824 | on coins that are those of the chain up to wear, the blocks above a height come off cleanly if and only if each of their coinstakes is live after every later block and has not lost its flag |
| Reorganisation.ReorganisationIff | src/main.cpp:3101-3104 | with the verdict of the coins on every disconnect, every active block off the path to a candidate yields at its turn if and only if that holds of the blocks above the fork |
| Reorganisation.ShallowIsRemovable | src/main.cpp:3101-3104 | a fork no deeper than the maturity is always reached from coins without lost flags |
| Reorganisation.Reorganise | src/main.cpp:3091-3154 | ActivateBestChainStep goes on if and only if no coinstake above the fork was emptied by a later active block or has lost its flag, and otherwise stops above the fork |
| ReorganisationRuns.WornAdmitsNoMore | src/main.cpp:2129-2135 | but for the test of maturity, worn coins admit no block that the true coins refuse |
| ReorganisationRuns.TrailChainOk | src/main.cpp:2859-2891 | so the chain of every run is acceptable on the true coins but for maturity, also where a lost flag let a block in, and its undo data read as if written on them |
| ReorganisationRuns.DownTakesOff | src/main.cpp:2808-2824 | calling DisconnectTip again and again on such a node takes the blocks off as the coins say, one by one, until one refuses |
| ReorganisationRuns.EveryRunReorganises | src/main.cpp:3101-3104 | at the end of every run of the ledger, for every candidate and with the verdicts of the ledger: all blocks above the fork let themselves be disconnected if and only if each of their coinstakes has stayed live on the chain and has its flag |
| Reorganisation.WholeRemovableIff | src/main.cpp:2292-2304 | the chain of the witness comes off down to its first coinstake and no further |
| Reorganisation.RefusedReorganisation | src/main.cpp:3161-3214 | for every maturity, every proof-of-work period at least as long and every fork below the first coinstake: the chain of the witness is activated, a longer one without any fault arrives, each disconnect goes as the coins say, and the activation fails with the tip at the first coinstake |
| ArithUint.BaseUint.Add | src/arith_uint256.h:138-147 | addition modulo the width, also with itself |
| ArithUint.BaseUint.Increment | src/arith_uint256.h:175-182 | plus one modulo the width |
| ArithUint.BaseUint.Negate | src/arith_uint256.h:80-87 | the negative modulo the width |
| ArithUint.BaseUint.Subtract | src/arith_uint256.h:149-153 | subtraction modulo the width |
| ArithUint.BaseUint.MulSmall | src/arith_uint256.cpp:92-101 | product modulo the width |
| ArithUint.FitsAccumulator | src/arith_uint256.cpp:92-117 | the 64-bit accumulator never overflows |
| ArithUint.BaseUint.AddProduct | src/arith_uint256.cpp:108-115 | one row of the schoolbook product is added |
| ArithUint.BaseUint.Multiply | src/arith_uint256.cpp:104-117 | product modulo the width; zero when the operand is the object itself |
| ArithUint.BaseUint.CompareTo | src/arith_uint256.cpp:146-155 | the sign of the difference of the numbers |
| ArithUint.BaseUint.Bits | src/arith_uint256.cpp:196-208 | the number of bits: zero for zero, otherwise the least power of two above |
| ArithUint.BaseUint.ShiftLeft | src/arith_uint256.cpp:58-72 | times a power of two, modulo the width |
| ArithUint.BaseUint.ShiftRight | src/arith_uint256.cpp:75-89 | divided by a power of two |
| ArithUint.BaseUint.Divide | src/arith_uint256.cpp:120-143 | the floor quotient for every divisor but zero; for zero it fails and leaves zero |
| Compact.SetCompact | src/arith_uint256.cpp:244-262 | the number, sign and overflow of a compact word |
| Compact.DecodeMeans | src/arith_uint256.h:285-292 | the word is an exponent, a sign bit and 23 bits of mantissa: the number is mantissa * 256^(exponent - 3), cut to whole numbers and 256 bits |
| Compact.OverflowIff | src/arith_uint256.cpp:258-260 | the overflow flag is set exactly when that number needs more than 256 bits |
| Compact.SizeIs | src/arith_uint256.cpp:266-279 | the exponent written is the least number of bytes that leaves room for a sign bit |
| Compact.GetCompact | src/arith_uint256.cpp:264-285 | the compact word of a number; both assertions hold |
| Compact.KeptIsBelow | src/arith_uint256.cpp:264-285 | what the compact form keeps is at most the number and differs by less than its unit |
| Compact.DecodeEncode | src/arith_uint256.cpp:244-285 | decoding an encoded number gives what is kept, with the sign, and no overflow |
| Compact.EncodeIsStable | src/arith_uint256.cpp:244-285 | encoding what is kept gives the same word again |
| Compact.KeptIsMonotone | src/arith_uint256.cpp:264-285 | what is kept grows with the number |
| Serial.VarIntRoundTrip | src/serialize.h:447-514 | reading a written VARINT gives the number and the rest of the stream |
| Serial.VarIntIsUnique | src/serialize.h:455-461 | every string of bytes with the top bit set on all but the last is the VARINT of exactly one number, and nothing else is one |
| Serial.VarIntSizes | src/serialize.h:457-468 | the bytes of numbers up to 2113663, and that larger ones need more than three |
| Serial.WriteVarInt | src/serialize.h:484-499 | the loop writes the VARINT |
| Serial.ReadVarInt | src/serialize.h:501-514 | the loop reads it, and fails at the end of the stream |
| Serial.DocumentedNumbers | src/serialize.h:463-469 | 16511 is written as FF 7F and 65535 as 82 FE 7F, not as the comment has them |
| Serial.CompressAmount | src/compressor.cpp:137-154 | the loop computes the compressed amount; the assertion holds |
| Serial.DecompressAmount | src/compressor.cpp:156-180 | the loop computes the decompressed amount |
| Serial.AmountRoundTrip | src/compressor.cpp:137-180 | decompressing a compressed amount gives the amount |
| Serial.AmountRoundTripBack | src/compressor.cpp:137-180 | compressing a decompressed number gives the number: no code is unused |
| Serial.CompressedIs | src/compressor.cpp:126-154 | (10 n + d) * 10^e becomes 1 + 10 * (9 n + d - 1) + e, and n * 10^9 becomes 1 + 10 * (n - 1) + 9 |
| Serial.CompressedFits | src/compressor.cpp:150-152 | amounts up to 2^60 compress to less than 2^64 |
| Serial.DecompressUndoes | src/compressor.cpp:43-126 | decompressing a compressed script gives the script |
| Serial.SpecialForms | src/compressor.cpp:12-72 | which scripts are special and the bytes they become: 0 and a key hash, 1 and a script hash, 2 or 3 and a short key, 4 or 5 by parity and the half of a long key; scripts of other lengths are written behind their size plus six |
| Serial.ScriptRoundTrip | src/compressor.h:69-96 | reading a written script gives the script |
| Serial.OutRoundTrip | src/compressor.h:113-125 | reading a written output gives the output |
| CoinsCodec.MaskIs | src/coins.h:213-219 | bit p of mask byte b is set exactly when output 2 + 8 b + p is there and unspent; the last byte is not zero |
| CoinsCodec.CalcMaskSize | src/coins.cpp:16-33 | the mask ends with its last byte that is not zero, and the other number counts such bytes |
| CoinsCodec.UnprunedHasMask | src/coins.h:206-206 | the assertion holds for every record that is not pruned |
| CoinsCodec.HeaderBits | src/coins.h:207-207 | bit 0 of the header code is the coinbase flag, bit 1 the coinstake flag, bits 2 and 3 say whether outputs 0 and 1 are unspent, and the rest counts the mask bytes that are not zero, less one when bits 2 and 3 are clear |
| CoinsCodec.MaskIsRead | src/coins.h:242-253 | counting bytes that are not zero stops the reader after the last mask byte |
| CoinsCodec.CoinsRoundTrip | src/coins.h:199-263 | reading a written record gives it back, but for a negative version, of which the lowest seven bits are left |
| CoinsCodec.DocumentedExample | src/coins.h:41-58 | the bytes of the documented record: as documented, but with header code 8 where the comment has 4 |
| CoinsCodec.Serialize | src/coins.h:199-227 | the loops write the format |
| CoinsCodec.Unserialize | src/coins.h:229-263 | the loops read the format, or fail |
| CoinsCodec.RoundTrip | src/coins.h:199-263 | writer and reader together give the record back if and only if its version is not negative |
| Serial.VersionIsRead | src/serialize.h:484-514 | a version written as VARINT is read back exactly if it is not negative, and else as its lowest seven bits |
| UndoCodec.SizeRoundTrip | src/serialize.h:390-445 | every size up to the limit is read back, and passes the test for canonical form |
| UndoCodec.SizeForms | src/serialize.h:390-412 | one byte below 253; otherwise the tag 253 or 254 and two or four bytes, lowest first |
| UndoCodec.SizeIsRefused | src/serialize.h:415-445 | sizes above 0x2000000, and a tag for a number that has a shorter form, are refused |
| UndoCodec.UndoRoundTrip | src/undo.h:40-66 | an undo record is read back with what VARINT keeps of its version |
| UndoCodec.UndoExamples | src/undo.h:38-45 | two records byte by byte: code, version unless the height is zero, amount, script |
| UndoCodec.UndoExactIff | src/undo.h:40-66 | exactly, if and only if its version is not negative, or zero when there is no height |
| UndoCodec.TxRoundTrip | src/serialize.h:790-840 | the vector of a transaction is read back record by record |
| UndoCodec.BlockRoundTrip | src/main.h:392-407 | so is the undo data of a block |
| UndoCodec.UndoIsStable | src/undo.h:40-66 | a record that was read is written as the same bytes again |
| UndoCodec.FileRoundTrip | src/main.cpp:6227-6278 | the checksum computed over what was read agrees with the one that was written, although versions were cut |
| UndoCodec.ChecksumIs | src/main.cpp:6241-6248 | the checksum at the end is the hash of the hash of the block below followed by the data before it |
| UndoCodec.SerializeTx | src/serialize.h:790-796 | the loop writes the format |
| UndoCodec.UnserializeTx | src/serialize.h:820-836 | reading in pieces of any size gives the same vector, or fails |
| UndoCodec.WriteThenRead | src/main.cpp:6227-6278 | writer and reader together give the undo data back up to versions, and exactly if and only if no version is cut |
| Digits.MultiplyAdd | src/base58.cpp:94-104 | the carry loop multiplies the buffer and adds, exactly, with what does not fit returned |
| Digits.PowerFits | src/base58.cpp:34-34 | one inequality between powers bounds the buffer size for all lengths |
| Base58.Base58Fits | src/base58.cpp:92-92 | 138/100 digits are enough for every byte string |
| Base58.Base256Fits | src/base58.cpp:34-34 | 733/1000 bytes are enough for every string |
| Base58.EncodeBase58 | src/base58.cpp:83-116 | computes the encoding; the carry assertion holds |
| Base58.DecodeBase58 | src/base58.cpp:22-66 | computes the decoding, or fails; the carry assertion holds |
| Base58.AlphabetIs | src/base58.cpp:19-20 | the digits are the alphanumeric characters but 0, I, O and l, in the order of their codes |
| Base58.FirstCharDecides | src/base58.cpp:24-41 | a space in front, code 9 to 13 or 32, does not count; any other character that is no digit makes the string refused |
| Base58.DecodeEncode | src/base58.cpp:22-116 | decoding an encoded byte string gives it back |
| Base58.EncodeDecode | src/base58.cpp:22-116 | encoding a decoded string gives it without the surrounding spaces |
| Base58.EncodeBase58Check | src/base58.cpp:128-135 | encodes the bytes with four bytes of their hash |
| Base58.DecodeBase58Check | src/base58.cpp:137-152 | accepts exactly the strings that end in the checksum of what comes before |
| Base58.CheckedRoundTrip | src/base58.cpp:128-152 | byte strings survive the way through a checked string |
| NodeState.OnePlaceEach | src/main.cpp:166-166 | each block in flight stands in exactly one peer's list, once, and nothing else does |
| NodeState.CNodeStates.UpdatePreferredDownload | src/main.cpp:340-348 | sets the flag and moves the counter with it |
| NodeState.CNodeStates.InitializeNode | src/main.cpp:350-356 | a new peer starts with nothing in flight and no flags; a known one stays as it is |
| NodeState.CNodeStates.FinalizeNode | src/main.cpp:358-376 | takes the peer, its blocks and its flags out |
| NodeState.CNodeStates.MarkBlockAsReceived | src/main.cpp:379-391 | takes the block off whichever list it is on |
| NodeState.CNodeStates.MarkBlockAsInFlight | src/main.cpp:394-406 | moves the block to the end of this peer's list |
| NodeState.CNodeStates.StartBlockSync | src/main.cpp:6077-6111 | releases a stale latch, and asks exactly when it may |
| NodeState.ReceivedCounts | src/main.cpp:379-391 | a receipt keeps all counters right |
| NodeState.RequestedKeeps | src/main.cpp:394-406 | a request keeps lists, map and counters in agreement |
| NodeState.FinalizedCounts | src/main.cpp:358-376 | a leaving peer keeps two counters right; nQueuedValidatedHeaders goes on counting its validated blocks |
| NodeState.StaleTipIsAskedFor | src/main.cpp:6086-6106 | on a stale tip a peer that may be asked has been asked at most one retry interval ago, or at time zero |
| NodeState.AskedIff | src/main.cpp:6086-6106 | a round asks exactly a peer that is no client and has no standing request, preferred or no one-shot while none is preferred, outside a reindex, while no other peer is syncing, the tip is over ten minutes old or the best header under six hours |
| NodeState.RequestTells | src/main.cpp:379-406 | a request ends the list of its peer, with its time and the number of validated blocks asked for before, and the block leaves its old place; a receipt ends the stalling of its peer |
| NodeState.RunKeepsPeers | src/main.cpp:340-406 | in every run: one list per block in flight, list lengths and counters right, requests to one connection more than the interval apart, and the header counter ahead by exactly the blocks whose peer left |
| NodeState.CounterOutlivesPeer | src/main.cpp:369-373 | a run of three events after which nothing is in flight and the header counter is one |
| StakeModifier.SelectionInterval | src/kernel.cpp:65-72 | the sum of the 64 sections |
| StakeModifier.IntervalIs | src/kernel.cpp:65-72 | the sections add up to 2087 seconds |
| StakeModifier.SectionGrows | src/kernel.cpp:56-61 | no section is shorter than an earlier one; SectionsAre has the first at 20 and the last at 60 seconds |
| StakeModifier.SelectBlockFromCandidates | src/kernel.cpp:77-134 | with all candidates indexed it fails exactly when none is free, and otherwise picks the least selection hash among the free ones in time, or the earliest free one |
| StakeModifier.PickTells | src/kernel.cpp:103-126 | no free candidate in time has a lower hash than the pick, where the hash of a proof-of-stake block counts as one part in 2^32 of itself and the block is represented by zero before the upgrade; of equal ones the earliest is picked |
| StakeModifier.StakeIsFavoured | src/kernel.cpp:112-116 | a proof-of-work block is not picked while a free proof-of-stake block in time has a hash below 2^32 times its own |
| StakeModifier.EarliestIsPicked | src/kernel.cpp:89-90 | with none in time, the earliest free candidate is picked |
| StakeModifier.Draw.PickIsUnique | src/kernel.cpp:77-134 | there is only one such pick |
| StakeModifier.PicksAreDistinct | src/kernel.cpp:103-104 | no block is picked twice |
| StakeModifier.DrawIsUnique | src/kernel.cpp:176-204 | there is only one draw of each length |
| StakeModifier.SomeFree | src/kernel.cpp:187-195 | no round fails: fewer picks than candidates leave one free |
| StakeModifier.EachRoundGivesItsBit | src/kernel.cpp:197-198 | bit r is the entropy bit of round r's block and all higher bits are zero |
| StakeModifier.ComputeNextStakeModifier | src/kernel.cpp:148-239 | fails exactly when no block has a modifier; keeps the last one within an interval; otherwise makes a new one by a full draw |
| StakeModifier.RoundsAre | src/kernel.cpp:181-199 | the first round ends 20 seconds after the start, each later one a section after the one before, the 64th after 2087 seconds; no round picks a block again |
| StakeModifier.SortedAre | src/kernel.cpp:176-179 | the candidates are the blocks back to the first that is more than 2087 seconds older than the last full minute, by time and then by hash |
| StakeModifier.LateIff | src/kernel.cpp:248-262 | late enough means at least 2087 seconds later |
| StakeModifier.NewModifierIs | src/kernel.cpp:181-239 | the new modifier is determined by the chain, fits 64 bits, and consists of min(64, n) entropy bits of distinct blocks |
| StakeModifier.GetKernelStakeModifier | src/kernel.cpp:244-273 | the modifier of the first block above on the active chain that generated one a selection interval later, and fails if and only if there is none |

## Left out

- Disk and database files, LevelDB, when the node flushes, crashes between flushes, pruning of block files, reindexing: the coin database and the indexes are maps, and a flush may come at any time.
- The bytes of the undo file are in UndoCodec only; block processing reads back what UndoCodec shows to come back. Heights of 2 to the 30 and more do not fit an undo record and are left out there.
- Script, signature and curve checks; sigop limits; the reward limit and fee rules of ConnectBlock (the blocks of the witness are shown to stay within the reward, LedgerWitness.ClimbOne); kernel and time rules of stakes, payees of a block; the check that inputs cover outputs: a block's verdict is a parameter in BestChain, and the conditions named in BlockCoins.BlockOk and Ledger.Accepts in the coin modules.
- The two blocks of another chain that ConnectBlock exempts from the overwrite check by height and hash (src/main.cpp:2466-2468); the special case of the genesis block in ConnectBlock, and the assertions that the view's best block is the parent or the block itself: best-block hashes are modelled in CoinsCache only.
- Identity of transactions: that ids of a block are distinct, and new with respect to spent ones, is a hypothesis (Ledger.NewIds, LedgerSpent.NewOnChain), and so is that an id tells the outputs (LedgerUnspent.StepsFollow), as both rest on the hash function.
- LedgerRuns.RunKeepsLedger: assumes new ids and clean disconnects; LedgerUnspent.CleanRunsAgree needs no new ids, and EveryRunKeepsCoins, EveryRunDeltas, EveryRunUnspent and EveryRunSpent no clean disconnects.
- CTxOut's nRounds field, CCoinsViewCache::SetBackend, GetPriority, and CCoins::GetSerializeSize, whose factor differs from the writer's.
- Using a record through CCoinsModifier while it is out is modelled as one replacement of the record when it is released.
- The timestamp and transaction indexes; the null values that the index code uses to mean erase are an option type here.
- Verdicts of BestChain: that of a disconnect may be any function of the block and the number of tip changes so far, which stands for the coins; modules Reorganisation and ReorganisationRuns put the coins of the active chain in its place, for the disconnects of one activation step.
- BestChain.RunEvents: takes one connect verdict per block through the whole run, so that a block which only a lost coinstake flag makes acceptable (LostFlags.BlockAdmittedIff) has no second verdict there.
- The limit on the depth of a reorganisation (src/main.cpp:3672), checkpoints, and whatever else a header is checked for before it enters the tree; a fork at the end of the proof-of-work period of the refused chain is as deep as the maturity plus one.
- InvalidateBlock and ReconsiderBlock; system errors in ConnectTip and DisconnectTip, and possible corruption; pindexBestInvalid, fork warnings and notifications; the two failure bits of a block are one set.
- Headers whose parent is unknown, duplicates of known headers, and block storage.
- BestChain.ChainManager.RejectBlock: models only the marking of a block that cannot connect, with the check itself left out.
- BlockProcessing.CheckTxInputs: does not model the money range of inputs, because amounts are unbounded here.
- BlockProcessing.DisconnectBlock: says nothing about the view when the result is not clean, because DisconnectTip then throws the view away; CVerifyDB, which goes on with it, is not part of this model.
- fQuit and the destructor of CCheckQueue, checks added after Wait has begun, and wrap-around of its counters.
- CheckQueueRuns.WaitEnds: bounds the steps that make progress, with spurious wake-ups and a worker's endless wait left out of the count.
- CAddrMan: other stream versions and bucket counts, streams that no manager has written, Select_ and GetChance, the test for a null key, logging.
- AddrManStream.Unserialize: loads only what Serialize writes for a consistent state, and only into a manager without entries, because old entries can stay (AddrManStream.UnserializeNothing); the branches that count and drop a colliding or unreferenced entry are shown never to be taken.
- AddrMan.CheckFindsNothing: leaves out the test for a null key.
- Service bits are a set of numbers; address groups and bucket hashes are parameters with values in range.
- base_uint: EqualTo, getdouble, decrement, hexadecimal conversion, and the operators that only combine the modelled ones.
- Base58 data with a version prefix and the address types built on it.
- Compressed public keys: that expanding a compressed valid key gives the key back is a hypothesis (Serial.Curve).
- NodeState: misbehaviour, orphan transactions, stalling, block availability, and the messages themselves; an iterator into a peer's list is the number of its element.
- NodeState.CNodeStates.StartBlockSync: takes the tip's, header's and clock's times as parameters, and leaves the request message out.
- StakeModifier.SelectBlockFromCandidates: promises nothing when a candidate is missing from the index, except that a pick is one of the candidates.
- Stake modifier checkpoints, the kernel hash and its target, and 64-bit overflow of times.
- GetMasternodePayment, masternodes, budgets, wallet, RPC, network messages and everything else outside these files: easy to model, or without an invariant of the kind proved here.
