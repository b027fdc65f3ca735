# CKB node: chain state, indexer, header sync and epoch rules in Dafny

CKB is a Nakamoto-style blockchain node. Almost everything it stores is kept incrementally:
blocks are attached and detached one by one, cell entries are deleted and rebuilt, an index
follows reorganisations in batches. This project models those incremental algorithms in the
form the node has them (classes with column maps, loops over blocks, transactions and inputs)
and proves that they agree with much simpler definitions: replaying the main chain from
genesis, scanning a chain for the cells of a lock, following parent pointers one at a time.

All results hold for every input and every run. Hashes are opaque numbers. What a theorem needs
of hashing (no two transactions with one hash, no two headers with one hash) and of the clock is
a stated hypothesis.

## What is proved

**Chain service** (`Types`, `Ledger`, `Store`, `CellSet`, `MainChain`, `Admission`, `Uncles`,
`TwoPhase`, `BlockTree`, `Fork`, `ChainService`, `ChainTheorems`, `Genesis`, `ExampleChain`).
Starting from `ChainDB::init` and for any sequence of arriving blocks on any forks, the store
keeps one invariant, `Chain.StoreOk`, exactly as long as no chain that commits a genesis
transaction again becomes the main chain. It says that the columns are those of replaying the main chain, that
positive marks mean "verified against the replay of its own ancestors" and are closed under
ancestors, that no negative mark is ever stored, that totals are sums along the ancestors, and
that the tip is heaviest. Contextual checks the model does not open (scripts, DAO, rewards, proof
of work, epoch headers) are a parameter, `Chain.Rules`, which may depend on the columns and the
block. Double spends, transaction hashes, uncles and the two-step confirmation are not left to
that parameter: they are modelled, and `Chain.ChecksExactly` says in terms of the chain alone which
blocks pass. What the columns of a reachable store hold is stated row by row in terms of the main
chain as well (`ChainTheorems`).

**Indexer** (`IndexBook`, `IndexColumns`, `IndexSync`, `Indexer`, `IndexTheorems`,
`IndexProgress`, `IndexExample`). For locks indexed from block 0, any interleaving of
reorganisations, sync runs, and locks added or removed keeps the three columns equal to a scan of
the chain up to the lock's state, with one exception that is described exactly. A sync run
disturbs a lock if it takes back a block that spends a cell of the lock which a genesis transaction
had spent. After a run that attaches blocks, the rows of a lock are exact if and only if they were
exact and undisturbed, or the run took the lock back to block 0, because genesis is then attached
again and puts the rows right. A run with a batch size of 0 attaches nothing and heals nothing. So
over any run every lock indexed from block 0 is at each point either followed, with exact rows, or
a stray, with the rows of its chain except for cells that genesis spent, one of which is wrong.
What the rows and the capacity of a followed lock are is stated from the outputs and inputs of the
main chain. Sync runs on a chain that stays still bring every lock to the tip if and only if the
batch can make progress.

**Header sync** (`HeaderTree`, `SkipList`, `Locator`, `OrphanPool`, `Inflight`). Skip-pointer
lookup is parent walking; locators and their answers meet at the latest common block; orphan
removal returns exactly the descendants; download ownership survives every clean-up, and how many
tasks a peer has follows from its response times.

**Epochs and time** (`Arithmetic`, `Difficulty`, `Epoch`, `EpochRuns`, `MedianTime`, `Since`).
Bounds and closed forms of the adjustment in the "Dynamic Difficulty Adjustment Mechanism"
section of Nervos RFC 0020 from what was observed, issuance over every run of epochs, the compact
form of targets, monotone median time, and since locks ("Detailed Specification" section of Nervos
RFC 0017): what each bit pattern means, and that a met lock stays met on every extension.

## Where the code differs from what one would expect

- `find_fork` lists the detached blocks in ascending order only when the new tip is not lower
  than the old one, although the comment at chain/src/chain.rs:508-509 suggests it always does.
  `Fork.DetachedAscending` is an if-and-only-if, and `MainChain.RollbackRestores` shows that
  rolling back does not depend on the order.
- `ChainDB::init` writes genesis cells without applying the inputs of genesis transactions, while
  the genesis block built at spec/src/lib.rs:570-576 has a transaction that spends a genesis
  output. `Genesis.InitEqualsAttach` gives the exact condition under which initialising and
  attaching agree. The output stays live, so a later block can spend it again, even by committing
  the genesis transaction itself a second time: `Genesis.ReplayRun` is a run in which the service
  accepts such a block. `Genesis.AttachExactly` and `Genesis.RoundTripExactly` give the exact
  condition under which attaching a verified block, and detaching it again, do what they should;
  `Genesis.GenesisTxFound` says what is lost otherwise. `Chain.ChainService.InsertBlock` keeps the
  store good if and only if the block that becomes the tip does not end a chain of that kind, and
  `ChainTheorems.Run` follows any run up to the first block that does.
- The indexer does apply the inputs of genesis transactions, so an output that genesis spent can
  be an input a second time. While the block of the second spend is attached, the rows are right
  (`IndexTheorems.Follow`). Detaching it makes the output live. `IndexColumns.DetachExactly` is
  the exact condition for one block, `Indexer.IndexerStore.SyncIndexStates` that for a sync run: the
  lock is lost if such a block is detached and the run does not go back to block 0, and it is exact
  again exactly when a later run does. `IndexExample.RespendRun` is a run of arrivals and sync runs
  that ends with a wrong row.
- Genesis is attached again as long as a lock is at block 0, so that with a batch size of 1 sync
  runs never get past it (`IndexProgress.SyncUntilDone`).
- A relative time lock on a cell of the genesis block, even one for no time at all, asks for the
  median time of the parent of genesis and stops the verifier. `Since.StopsExactly` lists all inputs
  that do.
- A locator is answered with genesis as soon as genesis is its first entry on the main chain; the
  stored entry before it is then not followed down, although the chains may share more
  (`Locator.AnswerIsLatest`).
- A negative verification mark is written only to a transaction that is then dropped, so no store
  ever holds one (`ChainTheorems.MarkedMeansVerified`), and the refusal for a parent with a
  negative mark never happens (`Chain.ChainService.InsertBlock`).

## Model

| member | source | states |
|---|---|---|
| `Ledger.RemoveSuffix` | chain/src/chain.rs:401-407 | Forgetting the blocks above a height, listed in any order, is replaying the blocks below it |
| `Ledger.BlocksDisjoint` | chain/src/cell.rs:8-43 | Two blocks of a chain share no transaction hash and spend no common out point |
| `Chain.AgreesFrame` | store/src/transaction.rs:103-124 | Storing a new block leaves what the other columns say about the main chain untouched: they still are its replay |
| `Store.StoreTransaction.AttachBlock` | store/src/transaction.rs:138-163 | Transaction infos, both directions of the height index and the uncles of the block are written |
| `Store.StoreTransaction.DetachBlock` | store/src/transaction.rs:165-175 | The same rows are deleted |
| `CellSet.AttachBlockCell` | chain/src/cell.rs:8-43 | The loops over transactions and inputs compute the attach fold of the cell set |
| `CellSet.DetachBlockCell` | chain/src/cell.rs:45-88 | The reverse loops compute the detach fold, rebuilding deleted entries |
| `CellSet.AttachRefines` | chain/src/cell.rs:8-43 | On a state that obeys the ledger, attaching gives the cell set of the state with the block, with fully spent transactions deleted |
| `CellSet.DetachRefines` | chain/src/cell.rs:45-88 | Detaching from any state that holds the block gives the cell set of the state without it, including rebuilt entries of fully dead transactions |
| `CellSet.LiveExactly` | store/src/store.rs:434-455 | A cell is answered live exactly if it was created and is unspent, and then with its output and where it was committed |
| `CellSet.DeadExactly` | store/src/store.rs:434-455 | A cell is answered dead exactly if it was created and spent while another output of its transaction is unspent |
| `MainChain.AttachAgrees` | store/src/transaction.rs:138-163 | Attaching a valid next block leads from the columns of a chain to those of the longer chain |
| `MainChain.RollbackRestores` | chain/src/chain.rs:401-407 | Rolling back a suffix of the chain, in any order, restores cell set, height index, transaction infos and uncles of the prefix |
| `Admission.OutputIndices` | util/types/src/core/cell.rs:246-251 | The map from transaction hash to position in the block |
| `Admission.CheckOrder` | util/types/src/core/cell.rs:253-268 | Accepts exactly the blocks in which no input refers to the same or a later transaction |
| `Admission.ResolveTx` | util/types/src/core/cell.rs:415-485 | Succeeds exactly if every input is a live cell or an earlier output of the block, and none was used before |
| `Admission.ResolveBlock` | chain/src/chain.rs:556-581 | Tells exactly which blocks are out of order, and resolves exactly those in order whose transactions all resolve |
| `Admission.CellbaseFresh` | verification/src/block_verifier.rs:47-112 | A cellbase never equals a transaction committed after genesis, because its input carries the block number |
| `Admission.BlockObeysLedger` | util/types/src/core/cell.rs:415-485 | A block that passes the checks obeys the ledger: new transaction hashes only, every input a distinct unspent output |
| `Admission.FitsResolves` | chain/src/chain.rs:556-581 | A block resolves if every transaction spends distinct outputs that are unspent at its place, of the chain or of the block itself |
| `Admission.ResolvesExactly` | util/types/src/core/cell.rs:229-244 | For a block of new transactions in order, resolution succeeds if and only if that is so |
| `Admission.AcceptedExactly` | chain/src/chain.rs:556-581 | Order check and resolution accept a block if and only if it obeys the ledger on top of the replayed chain |
| `Uncles.VerifyUncles` | verification/src/uncles_verifier.rs:44-145 | Accepts exactly the allowed uncle lists; otherwise names the first bad uncle and why |
| `Uncles.NeverMainChain` | verification/src/contextual_block_verifier.rs:115-137 | No embedded uncle is a main-chain block, below or above the block that embeds it |
| `Uncles.AllRooted` | verification/src/contextual_block_verifier.rs:120-137 | Every uncle descends from the main chain through embedded uncles |
| `Uncles.UncleCount` | store/src/transaction.rs:155-171 | The uncles column is the disjoint union of the uncles of the blocks: it has exactly their hashes, and as many entries as they embed |
| `Uncles.TotalsTelescope` | spec/src/consensus.rs:643-647 | Uncle totals of two prefixes differ by the uncles embedded between them |
| `Uncles.PassExactly` | verification/src/uncles_verifier.rs:44-145 | In terms of the chain below: exactly lists of at most two new uncles of the block's epoch and target are accepted, each lower than the block and the child of a block of the chain or of an embedded uncle |
| `TwoPhase.CollectIds` | verification/src/contextual_block_verifier.rs:168-197 | The walk back collects exactly the ids proposed between two heights, stops at genesis and never goes below zero |
| `TwoPhase.WindowIds` | spec/src/consensus.rs:86-116 | Being collected means being proposed, directly or by an uncle, at a distance between closest and farthest |
| `TwoPhase.VerifyTwoPhase` | verification/src/contextual_block_verifier.rs:158-228 | Accepts exactly if every non-cellbase transaction was proposed in the window; an ancestor is never missing |
| `TwoPhase.CommitExactly` | verification/src/contextual_block_verifier.rs:158-228 | The rule holds if and only if every transaction but the cellbase is named by a block 2 to 10 below, or by an uncle which that block embeds |
| `Fork.AlignmentFork` | chain/src/chain.rs:409-453 | Brings both chains to one height; what it detaches is the overhang of the main chain |
| `Fork.StepDown` | chain/src/chain.rs:461-494 | One main-chain block leaves, one block of the new chain joins, extensions stay lined up |
| `Fork.UntilLatestCommon` | chain/src/chain.rs:455-496 | Stops at the first common block: equal there, different above |
| `Fork.FindFork` | chain/src/chain.rs:498-527 | Attached is the path from the latest common ancestor to the new tip, detached the main-chain blocks above it, and the unverified extensions line up with the last attached blocks |
| `Fork.VerifiedBelow` | chain/src/chain.rs:431-496 | Every attached block before the unverified ones is marked verified |
| `Fork.DetachedElems` | chain/src/chain.rs:417-428 | The detached blocks are the main-chain blocks above the common ancestor, each once |
| `Fork.DetachedAscending` | chain/src/chain.rs:508-526 | The detached list is in ascending order if and only if the new tip is not lower than the old one |
| `Chain.Rollback` | chain/src/chain.rs:401-407 | Detaches the found blocks in reverse order |
| `Chain.AttachVerified` | chain/src/chain.rs:537-541 | Attaching the blocks already marked, without verification, reaches the columns of that chain |
| `Chain.VerifyBlock` | chain/src/chain.rs:554-592 | Accepts a block exactly if resolution, uncles, two-step confirmation and the remaining rules accept it on the columns below it |
| `Chain.ChecksExactly` | chain/src/chain.rs:554-592 | On the columns of a chain a block passes if and only if it is valid on that chain, which is stated without any columns, and the remaining rules accept it |
| `Chain.VerifyAndAttach` | chain/src/chain.rs:554-638 | A block that passes is attached and marked, a bad one only marked, one out of order not even that |
| `Chain.VerifyDirty` | chain/src/chain.rs:546-655 | On success the columns are those of the whole new chain (unless it commits a genesis transaction again), every block of it passed, and exactly the unverified blocks got their marks; on failure some unverified block fails its checks on the columns of the chain below it |
| `Chain.SwitchChain` | chain/src/chain.rs:291-302 | Fork search, rollback, attaching and verifying together lead from the columns of the old main chain to those of the new one, unless that one commits a genesis transaction again |
| `Chain.RolledBack` | chain/src/chain.rs:401-407 | What `find_fork` found, rolled back, leads to the columns of the common chain |
| `Chain.FoundGood` | chain/src/chain.rs:431-496 | The chain below the unverified blocks passed verification, so attaching it without verifying again is sound |
| `Chain.BestBlock` | chain/src/chain.rs:284-308 | The transaction of a new best block, if it succeeds, has that block as tip, and holds a good store if and only if the new chain commits no genesis transaction again |
| `Chain.PreparedNext` | chain/src/chain.rs:554-638 | Verifying and attaching the next block leads from the columns of the chain below to those of the longer chain, as long as no genesis transaction is committed again; the height index is right in any case |
| `Chain.ReplaySpoils` | chain/src/chain.rs:284-308 | The main chain of a good store never commits a genesis transaction again |
| `Chain.StoreAfter` | chain/src/chain.rs:284-312 | A reorganisation leads from one good store to another |
| `Chain.HeadersAfter` | chain/src/chain.rs:284-308 | A successful reorganisation keeps the block tree, marks, totals, the heaviest tip and the indices by number, whatever its blocks commit |
| `Chain.StoreAside` | chain/src/chain.rs:309-312 | A block that does not become the tip is stored without a mark, and the store stays good |
| `Chain.InitGood` | store/src/db.rs:69-119 | The store written for genesis is good |
| `Chain.ChainService.constructor` | store/src/db.rs:69-119 | Initialisation writes the genesis columns and the service starts valid |
| `Chain.ChainService.InsertBlock` | chain/src/chain.rs:206-389 | Keeps the store good, if and only if the block does not become the tip of a chain that commits a genesis transaction again; even then block tree, marks, totals, heaviest tip, number and uncle index stay right; the tip moves exactly for a strictly greater total; a block stored aside changes two columns by its own rows; a refused or known block leaves everything unchanged; a block that fails the block-local checks is refused, a better block only if some block of its chain fails its checks |
| `ChainTheorems.Run` | chain/src/chain.rs:179-312 | For blocks arriving in any order on any fork: every store of the run is good and each arrival changes it as `insert_block` promises, up to the first arrival that makes a chain which commits a genesis transaction again the main chain; if no arriving block commits one, for ever |
| `ChainTheorems.Process` | chain/src/chain.rs:206-312 | One arrival: which of staying, moving the tip, storing aside or refusing happens, and why; and whether the store is still good |
| `ChainTheorems.LiveOnMainChain` | store/src/store.rs:434-455 | In every reachable store a cell is live exactly if the main chain created it and no block after genesis spent it, and the answer carries that output and its place |
| `ChainTheorems.IndicesOnMainChain` | store/src/transaction.rs:138-163 | The number index of a reachable store lists the main chain, both ways |
| `ChainTheorems.InfosOnMainChain` | store/src/transaction.rs:138-163 | The transaction infos are exactly those of the main chain: block, position, height and epoch |
| `ChainTheorems.CellsOnMainChain` | chain/src/cell.rs:8-43 | A transaction has a cell-set entry exactly while it has an unspent output, or no output at all; the entry says which outputs are spent and where the transaction was committed |
| `ChainTheorems.CommittedOnce` | chain/src/cell.rs:8-43 | No transaction hash occurs twice on a main chain |
| `ChainTheorems.MarkedMeansVerified` | chain/src/chain.rs:529-654 | No mark is negative; a positive mark means verified against the replay of its own ancestors, with a marked parent |
| `ChainTheorems.MainChainValid` | chain/src/chain.rs:529-654 | Every block of a reachable main chain is valid on the blocks below it |
| `ChainTheorems.TotalsAreSums` | chain/src/chain.rs:232-263 | Stored totals are sums along the ancestors, for difficulty and uncles |
| `ChainTheorems.TipIsHeaviest` | chain/src/chain.rs:281-312 | The tip has the greatest sum of difficulties of all stored chains |
| `ChainTheorems.TipMovesExactly` | chain/src/chain.rs:281-312 | The tip moves to a stored block if and only if its chain has a strictly greater sum of difficulties |
| `ChainTheorems.UnclesOnMainChain` | store/src/transaction.rs:155-171 | The uncles column holds exactly the embedded uncles, agrees with the total stored at the tip in number, and every uncle is rooted |
| `ChainTheorems.NoUncleOnMainChain` | verification/src/uncles_verifier.rs:81-144 | On a reachable main chain no embedded uncle is a block of the chain |
| `ChainTheorems.UnclesBetween` | spec/src/consensus.rs:643-647 | The difference of two stored totals is the number of uncles embedded in between |
| `ChainTheorems.ProposedBeforeCommitted` | verification/src/contextual_block_verifier.rs:158-228 | Every transaction of a verified chain was proposed 2 to 10 blocks before its commitment |
| `Genesis.InitEqualsAttach` | store/src/db.rs:86-106 | Initialising and attaching genesis give the same cell set if and only if no genesis transaction spends an earlier genesis output |
| `Genesis.AttachExactly` | store/src/transaction.rs:138-163 | Attaching a verified block leads to the columns of the longer chain if and only if it commits no genesis transaction again |
| `Genesis.RoundTripExactly` | store/src/transaction.rs:138-175 | Attaching and detaching a verified block restores the transaction infos if and only if it commits no genesis transaction again; then every column is restored |
| `Genesis.GenesisTxFound` | store/src/transaction.rs:138-175 | After attaching and detaching any block, a genesis transaction is still found if and only if the block did not have it |
| `ExampleChain.BlockPasses` | verification/src/contextual_block_verifier.rs:158-228 | Every block of a concrete chain, whose last block spends an output that genesis spent, passes all modelled checks, the two-step confirmation included |
| `ExampleChain.Grow` | chain/src/chain.rs:206-389 | The service accepts that chain block by block; the last store is good if and only if the spending transaction is not the genesis transaction itself |
| `Genesis.ReplayVerified` | verification/src/contextual_block_verifier.rs:158-228 | The block of the example that commits a genesis transaction again passes every check on any columns of the chain below it, so the condition of the round trip is needed |
| `Genesis.ReplayRun` | spec/src/lib.rs:570-576 | A run that accepts a block which commits a genesis transaction again: the store after it is not good, and rolling it back loses a transaction of the genesis block |
| `IndexBook.ScanTwice` | indexer/src/store.rs:394-412 | Scanning the last block of a chain a second time changes nothing |
| `IndexBook.ScanFirst` | indexer/src/store.rs:489-552 | Recreating cells makes no difference on a block that follows the scanned chain |
| `IndexColumns.AttachFirst` | indexer/src/store.rs:489-552 | Attaching a block that follows turns the rows of a lock into those of the longer chain; rows that were doubtful are right for the outputs of the block |
| `IndexColumns.AttachTwice` | indexer/src/store.rs:394-412 | Attaching the frontier block again leaves exact rows of a lock as they are, and puts doubtful rows of the block's own outputs right |
| `IndexColumns.CreateStep` | indexer/src/store.rs:559-569 | Writing the three rows of an output keeps the rows of a lock those of the book, with the cell created |
| `IndexColumns.OwnInput` | indexer/src/store.rs:571-596 | Consuming a cell keeps the rows of its lock those of the book in which only the first spend counts; for a cell that is not live nothing changes |
| `IndexColumns.DetachTxsMatch` | indexer/src/store.rs:424-487 | Detaching the last block gives the rows of the chain without it, cells from abandoned blocks excepted until their own block goes |
| `IndexColumns.DetachExactly` | indexer/src/store.rs:424-487 | The rows after detaching a block are those of the chain without it if and only if the block spends no cell of the lock that genesis spent; otherwise a spent cell has a live row |
| `IndexColumns.HauntedStays` | indexer/src/store.rs:424-487 | Such a wrong row stays wrong while blocks further down are detached |
| `IndexColumns.HauntedAttach` | indexer/src/store.rs:489-552 | It stays wrong while blocks after genesis are attached: what they write of the cell is never the spend of genesis |
| `IndexColumns.AttachWithin` | indexer/src/store.rs:489-552 | Attaching touches only rows of the given locks |
| `IndexColumns.DetachWithin` | indexer/src/store.rs:424-487 | Detaching touches only rows of the given locks |
| `IndexSync.MainBacked` | indexer/src/store.rs:455-458 | The chain store still finds the creating transaction of every cell that survives the fork |
| `IndexSync.NumberTells` | indexer/src/store.rs:339-343 | The number index tells exactly whether a state is on the main chain |
| `IndexSync.UnwindKeeps` | indexer/src/store.rs:344-369 | Taking one lock back to the fork keeps the invariant for all locks; if the walk disturbs a followed lock, it becomes a stray |
| `IndexSync.BatchStep` | indexer/src/store.rs:388-412 | One height of a batch keeps every followed lock exact, whether its frontier is attached for the first or the second time, and every stray that is not at block 0 a stray |
| `IndexSync.HealingLevel` | indexer/src/store.rs:381-385 | A stray at block 0 may join the followed locks of a batch: it starts with genesis |
| `IndexSync.ExactlyFollowed` | indexer/src/store.rs:330-421 | Of the locks indexed from block 0, the followed ones have exact rows and the strays have not |
| `Indexer.AttachBlock` | indexer/src/store.rs:489-552 | The loops compute the attach fold over transactions, inputs and outputs |
| `Indexer.DetachBlock` | indexer/src/store.rs:424-487 | The reverse loops compute the detach fold; the output lookup is always in range |
| `Indexer.Unwind` | indexer/src/store.rs:346-369 | Walks down exactly to the last block shared with the main chain, never below genesis; exact rows end up exact, or, if a detached block spent again what genesis had spent, with a wrong live row; rows of a stray stay right but for cells that genesis spent |
| `Indexer.IndexerStore.DetachForked` | indexer/src/store.rs:337-370 | Every state that left the main chain is taken back exactly to where its chain forked off, the others are unchanged; exactly the followed locks for which a detached block spent again what genesis had spent become strays, with a live row that is wrong |
| `Indexer.IndexerStore.AttachBatch` | indexer/src/store.rs:372-417 | Keeps the invariant, makes followed locks exact on the main chain, turns exactly the strays at block 0 into followed locks if anything is attached, and advances the locks exactly as far as the batch reaches |
| `Indexer.IndexerStore.SyncIndexStates` | indexer/src/store.rs:330-421 | After one sync run the rows of a lock indexed from block 0 are exact if and only if they were and no detached block is a loss for it, or the batch is not empty and the lock went back to block 0; for an empty batch only the first. Followed locks are up to date with the main chain; every state moves exactly back to the fork and forward by the batch |
| `Indexer.IndexerStore.InsertLockHash` | indexer/src/store.rs:221-241 | The state written, and that a new lock starting at block 0 is followed from then on |
| `Indexer.IndexerStore.RemoveLockHash` | indexer/src/store.rs:243-282 | No live or transaction row of the lock is left, other locks keep theirs, out-point rows of consumed cells stay behind |
| `Indexer.IndexerStore.GetCapacity` | indexer/src/store.rs:177-219 | The sum and number of the lock's live rows, overflow exactly if the sum does not fit 64 bits |
| `IndexTheorems.LedgerScans` | indexer/src/store.rs:500-524 | A chain of ordered blocks that obeys the ledger can be scanned; the scan has the cells of the ledger, and as spent those of the ledger and what genesis spends |
| `IndexTheorems.Follow` | indexer/src/store.rs:330-421 | Any interleaving of arrivals, sync runs, insertions and removals: at every point, of the locks indexed from block 0, exactly the followed ones have exact rows, up to date right after a sync run; which locks each event adds, drops, loses or heals |
| `IndexTheorems.StaysFollowed` | indexer/src/store.rs:221-282 | Over a whole run a lock inserted from block 0 is followed or a stray until it is inserted again or removed, and never a stray if no arriving block spends a cell of the lock which genesis spent |
| `IndexTheorems.LiveRowsMean` | indexer/src/store.rs:559-596 | A live row exists exactly for an output of the lock created at that height and not an input there or above |
| `IndexTheorems.FollowedCells` | indexer/src/store.rs:330-421 | After a sync run: which rows of a followed lock are live, and that its capacity and number of cells are those of the outputs of the main chain that have this lock and are not spent |
| `IndexTheorems.FollowedRows` | indexer/src/store.rs:534-596 | What the rows of an output of the main chain hold: the live row its capacity, lock, data length and whether a cellbase made it; the transaction row nothing while it is live, and then block, transaction and position of an input that spends it |
| `IndexTheorems.CapacityIsUnspent` | indexer/src/store.rs:177-219 | With exact rows the capacity of a lock is the sum over the unspent outputs of the chain that have it |
| `IndexTheorems.BlockRoundTrip` | indexer/src/store.rs:424-552 | Attaching a block to the rows of the chain below it and detaching it again restores the rows if and only if it spends no cell of the lock which genesis spent |
| `IndexExample.RespendRun` | indexer/src/store.rs:445-482 | A run of arrivals, an insertion and two sync runs around a reorganisation, after which a cell that genesis spent has a live row |
| `IndexProgress.SyncUntilDone` | indexer/src/store.rs:372-417 | On a main chain that stays still, as many sync runs as it has blocks bring every state to the tip if and only if the batch size is at least 2, or it is 1 and no state is at block 0, or all were there already; followed locks stay followed, and strays at block 0 become followed exactly if the batch is not empty |
| `Difficulty.CompactTarget` | util/types/src/utilities/difficulty.rs:46-74 | The compact form keeps a target to one part in 65536, rounds down and never overflows |
| `Difficulty.DifficultyKept` | util/types/src/utilities/difficulty.rs:76-87 | A difficulty written to a header and read back is at least what was written |
| `Difficulty.DifficultyClose` | util/types/src/utilities/difficulty.rs:76-87 | What is read back is at most about twice what was written, and at most some two parts in 65536 more unless the target has less than 17 bits |
| `Difficulty.ReadTimes` | util/types/src/utilities/difficulty.rs:10-17 | The difficulty of a target is how often it goes into two to the 256, or one less |
| `Difficulty.CompactIs` | util/types/src/utilities/difficulty.rs:46-57 | The compact form of a target is its length in bytes above its three leading bytes |
| `Difficulty.CompactMeans` | util/types/src/utilities/difficulty.rs:59-74 | The target that any compact form stands for, and which ones are marked as overflowing |
| `Difficulty.DifficultyRead` | util/types/src/utilities/difficulty.rs:76-82 | The difficulty that any compact form gives: zero for a zero or overlong target, else that of the target it stands for |
| `Epoch.AdjustedHashRate` | spec/src/consensus.rs:656-665 | The adjusted hash rate is at least one |
| `Epoch.NextDifficulty` | spec/src/consensus.rs:724-729 | The next difficulty is at least one |
| `EpochRuns.HashRateDamped` | spec/src/consensus.rs:569-588 | The adjusted hash rate is within a factor of two of the last and positive, and no such rate is closer to the observed one |
| `EpochRuns.LengthBounds` | spec/src/consensus.rs:590-604 | The next length is in 300..=1800 and within a factor of two of the last |
| `EpochRuns.RawLengthIs` | spec/src/consensus.rs:683-691 | The rational formula for the ideal length, cleared of fractions |
| `EpochRuns.RawLengthFits` | spec/src/consensus.rs:784-786 | Taking the low 64 bits of the ideal length loses nothing |
| `EpochRuns.NextLengthIs` | spec/src/consensus.rs:677-694 | The next length is the ideal length kept within the bounds |
| `EpochRuns.ExpectedBlocksAre` | spec/src/consensus.rs:702-722 | The four cases of the expected number of blocks, cleared of fractions |
| `EpochRuns.DifficultyIs` | spec/src/consensus.rs:696-729 | The next difficulty is the largest whole number whose expected work fits what the hash rate achieves in the target duration |
| `EpochRuns.NextEpochIs` | spec/src/consensus.rs:606-747 | The whole adjustment from the observation: the whole seconds the epoch took, the next length from weights alone, the damped hash rate, and the difficulty that the target encodes |
| `EpochRuns.RunEpochIs` | spec/src/consensus.rs:606-747 | The same over every run of epochs |
| `EpochRuns.EndsAtLast` | spec/src/consensus.rs:617-621 | An epoch is followed by the next exactly at its last block |
| `EpochRuns.GenesisRate` | spec/src/consensus.rs:173-199 | The hash rate that a run starts from |
| `EpochRuns.RunBounds` | spec/src/consensus.rs:606-747 | Over every run of epochs: numbers count up, lengths stay in range and within a factor of two, hash rates are positive, starts are contiguous |
| `EpochRuns.RunTiles` | spec/src/consensus.rs:617-621 | Every height lies in exactly one epoch of the run |
| `EpochRuns.RunReward` | spec/src/consensus.rs:774-780 | The primary reward of epoch n is the initial one halved once per halving interval |
| `EpochRuns.IssuanceBounded` | spec/src/consensus.rs:492-495 | Primary issuance of any run is at most twice the initial reward times the halving interval |
| `EpochRuns.EpochPaidOut` | util/types/src/core/extras.rs:182-192 | Block by block an epoch pays out exactly its primary reward |
| `EpochRuns.RunBlockReward` | util/types/src/core/extras.rs:182-192 | Each block of a run earns an even share of the halved reward, the first ones of the epoch a unit more for the remainder |
| `EpochRuns.RunDifficulty` | spec/src/consensus.rs:724-747 | In every epoch after genesis the difficulty read from the header is at least one |
| `EpochRuns.PositionsAdvance` | util/types/src/core/extras.rs:194-199 | Higher blocks of a run have later positions in the order that since locks use |
| `HeaderTree.MainAncestor` | store/src/store.rs:184-198 | The main chain lists the ancestors of each of its blocks |
| `SkipList.InvertedIs` | sync/src/types.rs:909-911 | Clearing the lowest one bit leaves exactly the bits above it |
| `SkipList.GetSkipHeight` | sync/src/types.rs:907-925 | The skip height is below the height |
| `SkipList.SkipHeightIs` | sync/src/types.rs:907-925 | The skip height by the bits of the height: even ones lose the lowest one bit, odd ones keep the last and lose two above it |
| `SkipList.FastScanIs` | sync/src/types.rs:1098-1110 | The main-chain shortcut gives the ancestor by parent steps |
| `SkipList.GetAncestor` | sync/src/types.rs:844-899 | Terminates and returns exactly the ancestor that parent steps give, or nothing above the start |
| `SkipList.HeaderMap.InsertValidHeader` | sync/src/types.rs:1092-1133 | The new skip pointer is right and all others stay right |
| `SkipList.HeaderMap.Forget` | sync/src/types.rs:1282-1284 | Dropping a header's pointer keeps the rest right |
| `Locator.GetLocator` | sync/src/types.rs:1511-1556 | Starts at the header, ancestors only, ends at genesis, at most 73 entries where 101 are allowed; the heights are exactly ten in a row, then with doubling gaps, the low ones halved; doubling the step never overflows |
| `Locator.LastCommonAncestor` | sync/src/types.rs:1560-1582 | Returns the latest header that both have as an ancestor |
| `Locator.LocateLatestCommonBlock` | sync/src/types.rs:1584-1630 | Refuses exactly empty locators and those not ending in genesis; otherwise the first match, or the latest common ancestor of the entry before it |
| `Locator.AnswerIsCommon` | sync/src/types.rs:1584-1630 | For a locator of another node the answer is a height where both chains agree, and no entry on the main chain lies above it |
| `Locator.AnswerIsLatest` | sync/src/types.rs:1584-1630 | If the peer has the start of the locator, an answer above genesis is the latest height that both chains share |
| `Locator.ResponseLinks` | sync/src/types.rs:1632-1647 | The response headers link up from the answered block, at most 2000, ending only at the limit, the tip or the stop hash |
| `Locator.Exchange` | sync/src/types.rs:1511-1647 | A whole round between two nodes: the answered height is common to both chains, the latest such if they part less than ten blocks below the start, or if the peer has the start and the answer is not genesis; and the response continues it as far as it may |
| `OrphanPool.OrphanBlockPool.Insert` | sync/src/orphan_block_pool.rs:29-39 | Adds one orphan and keeps the two maps inverse |
| `OrphanPool.OrphanBlockPool.RemoveBlocksByParent` | sync/src/orphan_block_pool.rs:41-58 | Removes and returns exactly the transitive descendants, each once and after its own parent, and keeps the maps inverse |
| `OrphanPool.OrphanBlockPool.GetBlock` | sync/src/orphan_block_pool.rs:60-68 | Finds a block exactly if it is in the pool |
| `Inflight.Adjust` | sync/src/types.rs:315-366 | At most 128 tasks, at most one less and only for a slow response, the blocks untouched |
| `Inflight.AdjustIs` | sync/src/types.rs:315-366 | Tasks, breakthroughs and timeouts after a response, case by case on milliseconds and number of peers |
| `Inflight.FastStart` | sync/src/types.rs:332-341 | A new peer has 16 + 2k tasks after k responses within half a second, up to 32 |
| `Inflight.FastGrowth` | sync/src/types.rs:332-366 | From 32 tasks on, every fifth response within a second brings one more, up to 128 |
| `Inflight.SlowDecline` | sync/src/types.rs:351-358 | Every fourth response of more than one and a half seconds takes one task away |
| `Inflight.PeersDisjoint` | sync/src/types.rs:582-611 | No block is with two peers |
| `Inflight.HeldAtMostInflight` | sync/src/types.rs:430-439 | The peers together hold no more blocks than are in flight |
| `Inflight.InflightBlocks.CompactReconstruct` | sync/src/types.rs:456-463 | A compact block is rebuilt from at most two peers |
| `Inflight.InflightBlocks.RemoveCompact` | sync/src/types.rs:465-470 | The peer leaves the entry and the marks of the hash go |
| `Inflight.InflightBlocks.Insert` | sync/src/types.rs:582-611 | Asks exactly for blocks neither in flight nor being rebuilt, and makes the peer their owner |
| `Inflight.InflightBlocks.RemoveByPeer` | sync/src/types.rs:613-633 | Exactly the blocks of the peer leave, and the peer leaves exactly their compact entries |
| `Inflight.InflightBlocks.RemoveByBlock` | sync/src/types.rs:635-666 | The block leaves its owner, whose tasks follow the response time case by case, and no other peer changes; the subtraction overflows exactly if the clock went back for an owner that is adjusted, and then everything but the tasks and the trace has changed already |
| `Inflight.InflightBlocks.MarkSlowBlock` | sync/src/types.rs:476-484 | Marks exactly the blocks up to the next height, keeping earlier marks |
| `Inflight.InflightBlocks.DropExpired` | sync/src/types.rs:501-520 | Requests older than the timeout, up to 20 blocks above the tip, leave all three tables, and their owners are reported |
| `Inflight.InflightBlocks.PunishOne` | sync/src/types.rs:546-562 | One overdue mark: exactly the owner, or the peers rebuilding the block, lose half their tasks |
| `Inflight.InflightBlocks.Prune` | sync/src/types.rs:486-580 | Exactly which requests, marks and compact entries go, which peers are reported, how often each remaining peer is halved, the new restart number; ownership and limits hold afterwards |
| `MedianTime.BlockMedianTime` | traits/src/block_median_time_context.rs:19-36 | The value computed is the upper median of the last 37 timestamps, or of all since genesis |
| `MedianTime.MedianMeans` | traits/src/block_median_time_context.rs:19-36 | That median is the middle one of these timestamps in order, the later of two |
| `MedianTime.MedianMonotone` | traits/src/block_median_time_context.rs:19-36 | The median never decreases along a chain of blocks younger than their parent's median |
| `MedianTime.VerifyTimestamp` | verification/src/header_verifier.rs:88-113 | Which timestamps are too old, too new or accepted |
| `MedianTime.TimesExtend` | verification/src/header_verifier.rs:88-102 | A chain keeps the order of medians exactly as long as each new block passes the lower bound |
| `Since.StopsExactly` | verification/src/transaction_verifier.rs:465-548 | Exactly the time locks stop the verifier that ask for too many seconds, are relative to a cell of genesis, or overflow when added to the median time before the cell's block |
| `Since.FlagsMean` | verification/src/transaction_verifier.rs:387-430 | A value is invalid exactly if a reserved bit is set or both metric bits are; none at all is met; a relative lock on a cell without a block is immature |
| `Since.NumberLockMeans` | verification/src/transaction_verifier.rs:484-548 | A number lock is met exactly from the height on, or from so many blocks above the cell on |
| `Since.EpochLockMeans` | verification/src/transaction_verifier.rs:484-511 | An absolute epoch lock is met exactly from the position on that its 24, 16 and 16 bits give |
| `Since.RelativeEpochMeans` | verification/src/transaction_verifier.rs:513-548 | A relative epoch lock is met exactly if the position, as a rational, is at least that of the cell and the given one together |
| `Since.OrderIsRational` | util/types/src/core/extras.rs:314-326 | For proper fractions the order of positions is that of the rationals |
| `Since.TimeLockMeans` | verification/src/transaction_verifier.rs:484-548 | A time lock is met exactly once the median time has reached the given one, or that much after the median before the cell's block; or it stops the verifier |
| `Since.PassedStays` | verification/src/transaction_verifier.rs:484-548 | An input whose lock is met stays met on every extension, for all metrics, absolute and relative |
| `Since.CheckAbsolute` | verification/src/transaction_verifier.rs:484-511 | An absolute lock is judged as its bits mean, with the median time looked up on the chain |
| `Since.CheckRelative` | verification/src/transaction_verifier.rs:513-548 | A relative lock likewise, from the block of the cell on |
| `Since.CheckInput` | verification/src/transaction_verifier.rs:465-548 | The checks of one input, of a cell on the chain or of the same block, with the median times looked up on the chain |
| `Since.VerifySinces` | verification/src/transaction_verifier.rs:550-573 | Passes exactly if every input passes; otherwise the first input that does not decides |

## Left out

- Admission.CheckOrder: cell deps and header deps are not modelled, because they spend nothing; rejecting them belongs to `Chain.Rules`.
- Admission.ResolveTx: cell deps, dep groups, header deps and the system cell cache are not modelled, for the same reason.
- Admission.ResolveBlock: resolves inputs only, as the two members above.
- Uncles.VerifyUncles: the header's hash of the uncle list is taken to match, and the checks on an uncle's own proposals and proof of work are one abstract predicate.
- Indexer.IndexerStore.InsertLockHash: inserting a lock that is indexed already, or from a later block, loses the exactness guarantee, because the source keeps the old rows and only moves the state.
- IndexTheorems.Follow: genesis transactions are assumed to come after those whose outputs they spend, as the chain specification builds them.
- Indexer.IndexerStore.SyncIndexStates: one snapshot serves the whole run; the source takes a newer one inside `detach_block`.
- EpochRuns.RunReward: runs stop before the 64th halving, where the shift of the source is an arithmetic overflow.
- Epoch.NextDifficulty: 256-bit overflow of intermediate products is not modelled; `EpochRuns.RunDifficulty` states the bound it needs.
- Chain.ChainService.InsertBlock: what the transaction infos and the cell set hold once a chain that commits a genesis transaction again is the main chain, and runs beyond that point.
- OrphanPool.OrphanBlockPool.Insert: one hash is assumed to come with one parent only.
- Proof of work, scripts, DAO fields, rewards and epoch headers are inside `Chain.Rules`.
- Epoch columns, the proposal table, store caches and the transaction verification cache.
- The transaction pool, RPC, networking, mining and notification code.
- Runs with verification switched off and with permanent difficulty.
- Order and paging of the indexer's queries, and the byte encodings of keys and values.
- Threads, locks and channels: every public operation is one atomic step.
