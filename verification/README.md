# Verified models of the go-rajchain chain core

go-rajchain is a fork of the go-ethereum execution client. This project models the parts of it whose correctness
spans several functions or several goroutines, and proves what they promise on every input, every run or every
interleaving:

- **The canonical chain** (`HeaderStore`, `ChainSpec`, `BlockChain`, `ChainRuns`, `HeaderChain`). Headers form a tree
  by parent hash. The number-to-hash map, the transaction lookup index, the total difficulties and the head markers
  are edited in place by loops that stop at the first gap. The specification side defines all of them from the head
  alone, by recursion on parent links; the methods are proved to produce exactly that, and the run lemmas carry it
  over every sequence of operations.
- **Rewinding** (`RewindSpec`, `Rewind`): the loop behind `SetHead`, both its outcome and what is on disk after each
  of its writes.
- **State garbage collection** (`TrieGc`): references and dereferences of state roots.
- **The section indexer and its bloom backend** (`IndexerSpec`, `ChainIndexer`, `BloomIndexer`): a protocol that gives
  up its lock while reading a chain that may be reorganised between any two reads.
- **Message execution accounting** (`IntrinsicGas`, `StateTransition`, `StateProcessor`): gas purchase, refund, tip and
  burn in 64-bit and 256-bit arithmetic.
- **The event feed** (`FeedSpec`, `Feed`): delivery over one array that is swapped, shifted and grown in place while
  other goroutines subscribe and cancel.
- **Two self-contained pieces**: the memoised BLOCKHASH lookup (`BlockHash`) and wallet derivation paths
  (`DerivationPath`).

Modelling conventions:

- Hashes are opaque identifiers. A store holds at most one header under a hash, which is the collision freedom the
  source relies on.
- The database is a set of finite maps, and a batch takes effect at once.
- Concurrency is modelled by state machines over atomic steps, or by parameters that say what each single read
  saw (`views`, `sights`). Nondeterministic choices in `Feed` stand for the scheduler. Claims about runs quantify
  over all of them.
- Machine integers are unbounded `int` or `nat` with the wrap-around written out where the source wraps (`U256`,
  `Wrap64`, `Int64`, `Uint64`). Amounts the source holds in `big.Int` are plain integers.
- The sum of all balances is assumed to be below 2^256 at the start of a block; that it stays so is proved.
- The interpreter is an arbitrary function, another one for every transaction of a block, so it may depend on storage
  that is not modelled. All that is assumed of it is `StateTransition.Legal`: it moves balances around, may burn some,
  and returns no more gas than it was given.
- A gas price beyond 256 bits, on which the source panics when it refunds, is an outcome of its own. A message that
  got so far with such a price is from before London, has a zero gas limit, and an access list whose price wraps 64
  bits (`StateTransition.PriceFits`).

Where the code does less than its description suggests, the code is followed, the exact condition is proved and a
concrete case is given:

- A log subscriber stays in step across `SetCanonical` if and only if the new head was not canonical already or has
  no logs (`ChainRuns.SubscriberStep`). Making the head the head again announces its logs once more
  (`ChainRuns.AnnouncedTwice`).
- `SetHead(n)` leaves exactly the headers numbered at most n if and only if the head header is above n or nothing is
  stored above n (`Rewind.ExactlyBelow`). It does nothing when the head header is already low enough
  (`Rewind.LeftAbove`).
- A rewind to or below the head block settles on the nearest canonical block with state, or on genesis where there is
  none, if and only if every block on the way down has its nearest state within reach, or there is no state above
  genesis anyway (`Rewind.SettledWithin`). Within reach is no more than 90000 blocks down, or not below the pivot.
  Otherwise it falls back to genesis (`Rewind.LimitFallsBack`).
- A head change keeps an exact transaction index exact if and only if every transaction that was both in the shared
  and in the dropped blocks is adopted again (`ChainSpec.SwitchExact`), which is always so where no path repeats a
  transaction (`ChainSpec.UniqueReadopted`). A transaction repeated on a path can drop out (`ChainSpec.RepeatLost`).
- Old state roots all leave the queue if and only if the queue is ordered at the limit (`TrieGc.Gc.WriteBlock`),
  which holds below block 2^63 (`TrieGc.SmallOrdered`) and can fail above it (`TrieGc.LargeUnordered`).

`dafny verify dfyconfig.toml` checks the whole project.

## Model

| member | source | states |
|---|---|---|
| HeaderStore.GetTdExact | core/headerchain.go:397-409 | a total difficulty that can be read is the sum of difficulties along the ancestor path |
| HeaderStore.AddTd | core/blockchain.go:1451-1463 | writing parent difficulty plus own difficulty keeps every stored total difficulty exact |
| HeaderStore.ClosedFork | core/blockchain.go:2211-2232 | in a parent-closed store any two blocks have a common ancestor |
| ChainSpec.LookupExact | core/blockchain.go:2293-2339 | the index of a head maps a transaction to a number exactly when the ancestor at that number holds it |
| ChainSpec.SwitchExact | core/blockchain.go:2293-2356 | an exact index is exact again after a head change, if and only if every transaction both shared and dropped is adopted again |
| ChainSpec.UniqueReadopted | core/blockchain.go:2293-2339 | where the old path repeats no transaction that condition always holds |
| ChainSpec.RepeatLost | core/blockchain.go:2334-2339 | three blocks, the first and the last with the same transaction: going back to the second drops it from the index although the first still holds it |
| ChainSpec.LogsSplit | core/blockchain.go:2274-2291 | the logs of a chain are those up to any ancestor followed by those above it, oldest block first |
| ChainSpec.LogsAre | core/blockchain.go:2159-2175 | the logs of a path are those stored with the blocks it names, all of them, block by block in order |
| ChainSpec.Announced | core/blockchain.go:2274-2333 | position by position: an announcement is the stored logs of all dropped blocks marked as removed, then those of all adopted blocks, lowest block first; a head that is canonical already has its own logs announced |
| BlockChain.HashDifference | core/types/transaction.go:583-598 | exactly the hashes of the first list that are not in the second |
| BlockChain.Chain.constructor | core/blockchain.go:977-1005 | a chain of genesis alone, with all markers on it, is valid and indexed |
| BlockChain.Chain.WriteHeadBlock | core/blockchain.go:1050-1071 | one canonical entry, the block's lookup entries and all three markers, nothing else |
| BlockChain.Chain.Enqueue | core/blockchain.go:2280-2286 | batching neither loses, repeats nor reorders logs, and one batch is sent exactly when more than 512 are queued |
| BlockChain.Chain.LevelChains | core/blockchain.go:2193-2210 | the longer chain is walked down to the height of the other and no common block is passed |
| BlockChain.Chain.FindCommonBlock | core/blockchain.go:2193-2232 | the walk finds the highest common ancestor and collects exactly the blocks above it on both sides, and fails exactly when there is none |
| BlockChain.Chain.EmitRemoved | core/blockchain.go:2274-2291 | the removed-log batches concatenate to the dropped blocks' logs, oldest block first |
| BlockChain.Chain.CollectDeleted | core/blockchain.go:2293-2309 | the deleted transactions are exactly those of the dropped blocks |
| BlockChain.Chain.Adopt | core/blockchain.go:2311-2333 | all adopted blocks but the head become canonical and indexed over what was there, and the log batches concatenate to their logs |
| BlockChain.Chain.DropStale | core/blockchain.go:2334-2356 | only transactions of no adopted block leave the index, and every canonical entry above the new end goes |
| BlockChain.Chain.Reorg | core/blockchain.go:2187-2364 | after a reorg the canonical map is that of the parent of the new head, or of the head itself when it is an ancestor, and the index changed by exactly the adopted and dropped transactions; a failed reorg changes nothing |
| BlockChain.Chain.SetCanonical | core/blockchain.go:2384-2425 | for longer, shorter, sibling and ancestor heads the canonical map becomes the path of the head, the index and the announced logs change exactly as specified, and it fails exactly when the chains share no block |
| BlockChain.Chain.WriteBlock | core/blockchain.go:1449-1469 | a block is stored with its total difficulty exactly when its parent is known; the canonical chain stays valid and indexed |
| BlockChain.Chain.StoreSideBlock | core/blockchain.go:2006-2047 | a side block is stored with its body unless known, keeping the store closed and the difficulties exact; it is refused exactly when it claims the state of another canonical block |
| BlockChain.Chain.InsertSideBlocks | core/blockchain.go:2004-2047 | the import stores exactly the blocks before the first that is at or below the head and has the state root of the canonical block there without being it; the canonical chain stays valid and indexed, the store parent-closed and every difficulty exact |
| ChainRuns.WriteKeeps | core/blockchain.go:1449-1469 | a block write keeps the chain invariant and stores the block with its body exactly when its parent is there |
| ChainRuns.SideKeeps | core/blockchain.go:2004-2047 | importing side blocks keeps the store closed and every difficulty exact, and only adds to it |
| ChainRuns.RunKeepsChain | core/blockchain.go:2187-2425 | over every run of block writes, side imports and head changes the canonical map is exactly the path of the head, and the store only grows |
| ChainRuns.Execute | core/blockchain.go:1449-2425 | the methods carry out every such run: their requirements are met throughout, the state becomes exactly the one of the specification, and the index stays exact where no path repeats a transaction |
| ChainRuns.SetCanonicalSucceeds | core/blockchain.go:2384-2404 | within a run, making a stored block the head never fails |
| ChainRuns.RunExact | core/blockchain.go:2187-2425 | after every run a number is mapped exactly up to the head, to the head's ancestor at that height |
| ChainRuns.HeadIndexed | core/blockchain.go:2293-2404 | within a run, a head change keeps the index exact if and only if every transaction both shared and dropped is adopted again |
| ChainRuns.RunKeepsIndex | core/blockchain.go:2293-2404 | over every run after which no stored path repeats a transaction the index stays exact |
| ChainRuns.RunIndexed | core/blockchain.go:2293-2404 | after such a run a transaction is indexed under a number exactly when the canonical block there holds it |
| ChainRuns.WriteKeepsUnique | core/blockchain.go:1449-1469 | writing a block whose transactions are new to its path repeats none on any path |
| ChainRuns.CanonicalFork | core/blockchain.go:2211-2218 | the fork of a head is the head itself exactly when it is canonical already |
| ChainRuns.SubscriberStep | core/blockchain.go:2407-2411 | a subscriber folding both streams stays in step exactly when the head was not canonical before or has no logs |
| ChainRuns.AnnouncedTwice | core/blockchain.go:2407-2411 | a one-block chain whose head is made the head again: its log is announced twice |
| ChainRuns.RunKeepsSubscriber | core/blockchain.go:2274-2333 | over every run to fresh heads the subscriber holds exactly the canonical chain's logs |
| ChainRuns.RunLogs | core/blockchain.go:2274-2411 | the same in terms of the database: whatever the run, the subscriber holds the logs stored with the blocks the canonical map names |
| HeaderChain.UnknownParent | core/headerchain.go:223-236 | once one imported header is unknown all later ones are, so skipping the lookup for them is right |
| HeaderChain.ImportTurn | core/headerchain.go:210-237 | one header of an import keeps the batch closed and its difficulties exact, and is counted exactly when new |
| HeaderChain.PrepareBatch | core/headerchain.go:204-237 | the batch adds exactly the imported headers, keeps closure and exact difficulties, and counts the new ones |
| HeaderChain.Chain.constructor | core/headerchain.go:77-100 | a header chain resumes at the stored head block if it is known, at genesis otherwise, and is valid |
| HeaderChain.Chain.WriteHeaders | core/headerchain.go:196-248 | all or nothing: exactly the new headers are added and counted, or an unknown parent or an interrupt changes nothing |
| HeaderChain.Chain.CrossLink | core/headerchain.go:149-168 | the entries written below the imported headers make the map the path of the first of them, and it fails exactly at a gap |
| HeaderChain.Chain.Reorg | core/headerchain.go:126-190 | the canonical map becomes exactly the ancestor path of the last imported header |
| HeaderChain.Chain.InsertHeaderChain | core/headerchain.go:330-354 | every import keeps the store closed, difficulties exact and the map the current header's path; it counts exactly the headers not stored before; the head stays exactly when the last header was canonical already |
| HeaderChain.TurnRight | core/headerchain.go:373-379 | re-reading the slot makes the ancestor slot trustworthy across one atomic switch of the map |
| HeaderChain.WalkCanonical | core/headerchain.go:373-379 | walking back from a canonical block stays on the canonical map |
| HeaderChain.WalkIs | core/headerchain.go:361-393 | walking parent links from a stored header ends at the hash of its ancestor |
| HeaderChain.WalkBack | core/headerchain.go:371-392 | the loop: exact result, and on a steady chain the allowance falls by the least number of links that lead to the canonical map |
| HeaderChain.GetAncestor | core/headerchain.go:361-393 | it answers nothing or exactly the stored ancestor, even with a switch between its reads; on a steady chain it answers nothing only if the canonical chain and the ancestor are beyond the allowance, and for other than one link only the least number of links is taken from the allowance |
| BlockHash.CacheGrows | core/evm.go:94-130 | cached hashes stay right while further headers are stored |
| BlockHash.WalkReaches | core/evm.go:94-130 | the walk reaches a height exactly if the ancestor one height up is stored |
| BlockHash.HashFn.GetHash | core/evm.go:94-130 | for every query in any order the memoised lookup answers the parent hash of the ancestor one height up, zero where that is missing or the height is not below the reference, and ends |
| RewindSpec.RewoundReadable | core/blockchain.go:629-702 | the block the state search settles on can be read from disk |
| RewindSpec.RewoundIs | core/blockchain.go:629-702 | without a freezer the search finds the nearest ancestor with state, or genesis when the limit stops it |
| RewindSpec.SearchFinds | core/blockchain.go:629-702 | whatever is frozen, the search ends above genesis exactly at the nearest readable block with state, if that is not below the limit |
| RewindSpec.FoundExactly | core/blockchain.go:679 | a header is found exactly if it is frozen at its number or stored with it |
| RewindSpec.BestIs | core/blockchain.go:674-698 | that block has state or is genesis, and nothing between it and the start has state |
| RewindSpec.BlockStep | core/blockchain.go:820-847 | rewinding one block further, searching again only when needed, gives the head block defined by the target alone |
| RewindSpec.SnapStep | core/blockchain.go:848-863 | rewinding one block further gives the snap head defined by the target alone |
| RewindSpec.TruncateReadable | core/blockchain.go:882-887 | cutting the freezer above a block leaves the block readable |
| Rewind.Rewinder.RewindHashHead | core/blockchain.go:629-702 | whatever is frozen, the loop ends above genesis exactly at the nearest readable block with state, if that is at most 90000 blocks down or, with a pivot, not below it |
| Rewind.Rewinder.UpdateHeads | core/blockchain.go:820-877 | block and snap head end at or below the given header and stay readable; the snap head follows to a block that is frozen or has its body; the fatal exit for a stateless head is unreachable |
| Rewind.Rewinder.WriteMarkers | core/headerchain.go:590-597 | the marker batch leaves every marker naming a stored header |
| Rewind.Rewinder.TruncateHead | core/blockchain.go:882-887 | a cut above all markers leaves every marker naming a stored header |
| Rewind.Rewinder.LowerHeads | core/headerchain.go:566-597 | the first half of a turn moves all markers to the parent or below and lowers the target when the freezer is underflown |
| Rewind.Rewinder.Leftovers | core/headerchain.go:599-608 | exactly the gapless run of stored heights above the head, highest first |
| Rewind.Rewinder.Sweep | core/headerchain.go:610-626 | exactly the headers at the given heights, on all forks, are marked for deletion, with all their contents when nothing is frozen, and the freezer is cut at the lowest of them |
| Rewind.Rewinder.Turn | core/headerchain.go:565-627 | one turn: markers first, then cuts, with the stated heads, target and deletions |
| Rewind.Rewinder.Descend | core/headerchain.go:565-627 | the loop ends at the target, below it only among frozen blocks or where a gap forced genesis, with everything marked above the heads, and on a consistent chain without freezer exactly the headers above |
| Rewind.Rewinder.Flush | core/headerchain.go:628-631 | the final batch removes exactly the marked headers with their difficulties and numbers, the contents marked and the canonical numbers, and leaves every marker naming a stored header |
| Rewind.Rewinder.SetHead | core/headerchain.go:540-636 | it ends; after every single write, for any freezer, all markers on disk name stored headers; a rewind ends at the target, below it only among frozen blocks or at genesis by a gap, with the other heads at or below it; nothing at or below the new head is lost; no frozen block is left above the head block, unless that is below the pivot; on a consistent chain without freezer the outcome is exact for headers, difficulties, contents, numbers, the canonical map and all heads |
| Rewind.LevelFilled | core/headerchain.go:599-608 | stored heights have no gaps, so the upward wipe reaches every leftover |
| Rewind.UptoPath | core/headerchain.go:610-631 | cutting at a height keeps the store parent-closed and the paths below unchanged |
| Rewind.ExactlyBelow | core/headerchain.go:565-631 | exactly the headers up to n remain, if and only if the head header was above n or nothing was stored above n |
| Rewind.LeftAbove | core/headerchain.go:559-565 | a head at block 1 beside a longer side chain: rewinding to block 1 leaves the side block above |
| Rewind.Settled | core/blockchain.go:820-877 | for a target below the head header and not above the head block, snap head and head block end up canonical, and the head block has state or is genesis |
| Rewind.SettledExactly | core/blockchain.go:670-702 | for such a target, the head block is the nearest canonical block with state, or genesis where there is none, if and only if the search limit stopped no search on the way or there is no such state; it is so exactly when no canonical block between it and the target has state; otherwise it is genesis |
| Rewind.SettledWithin | core/blockchain.go:649-702 | the same with the condition in plain numbers: every block passed has its nearest state at most 90000 blocks down, or not below the pivot, or there is none above genesis |
| Rewind.NearStateKept | core/blockchain.go:653-655 | without a pivot, a state no more than 90000 blocks below the old head block and not above the target is never given up for genesis |
| Rewind.HeadsFollow | core/blockchain.go:848-863 | the snap head follows the rewind exactly if no block on the way lacks its body, and is genesis otherwise; a head that is not passed stays |
| Rewind.LimitFallsBack | core/blockchain.go:649-673 | five blocks, state at block 1, pivot at block 2: rewinding to block 3 ends at genesis |
| TrieGc.NumberOfPriority | core/blockchain.go:1485-1526 | the number popped is the number pushed, for every 64-bit number |
| TrieGc.MaxExists | common/prque/prque.go:48-51 | a non-empty queue has an item of greatest priority |
| TrieGc.Gc.constructor | core/blockchain.go:294 | nothing referenced, nothing queued |
| TrieGc.Gc.Pop | common/prque/prque.go:48-51 | removes one item of greatest priority |
| TrieGc.Gc.Collect | core/blockchain.go:1521-1530 | releases items at or below the limit in the order of the queue up to the first above it, so all of them exactly when the queue is ordered at the limit |
| TrieGc.Gc.WriteBlock | core/blockchain.go:1484-1531 | one reference more; the first 128 blocks release nothing; after that roots out of the window are released in the order of the queue up to the first inside it; none of those left, exactly when the queue is ordered |
| TrieGc.Gc.Stop | core/blockchain.go:1148-1150 | everything queued is released once |
| TrieGc.SmallOrdered | core/blockchain.go:1485-1526 | below block 2^63 the queue is ordered at every limit |
| TrieGc.LargeUnordered | core/blockchain.go:1485-1526 | block 2^63 + 1 shields block 0 from collection |
| TrieGc.RunBalances | core/blockchain.go:1148-1150 | over any run of writes in any order ending in a stop, every reference has exactly one dereference |
| TrieGc.RunCollects | core/blockchain.go:1484-1531 | in any run of blocks below 2^63, in any order, writing block n past the window leaves nothing queued at or below n - 128 |
| TrieGc.WriteAndStop | core/blockchain.go:1148-1150 | the methods: whatever blocks are written in whatever order, stopping leaves every reference released exactly once |
| IndexerSpec.StepKeeps | core/chain_indexer.go:243-429 | every locked step keeps the stored section heads hash-linked in steps of the section size |
| IndexerSpec.AcceptKeeps | core/chain_indexer.go:350-353 | a section is accepted only on top of the section it continues, whatever happened while it was processed |
| IndexerSpec.FinishExactly | core/chain_indexer.go:350-368 | the section is stored as the last one, with earlier heads unchanged, if and only if processing succeeded and the head before it is unchanged; otherwise it is not, no other is, and nothing is due |
| IndexerSpec.RunKeeps | core/chain_indexer.go:304-382 | over every interleaving of heads, reorgs, queries and updates the stored sections stay linked |
| IndexerSpec.LinkedCanonical | core/chain_indexer.go:422-429 | if the last of linked sections is canonical, all of them are |
| IndexerSpec.VerifiedCanonical | core/chain_indexer.go:422-429 | after verification every section beyond the checkpoint is canonical, and only sections read to be off the chain were dropped |
| IndexerSpec.VerifySteady | core/chain_indexer.go:422-429 | against a steady chain, what is left ends on it and nothing that ended on it is dropped |
| IndexerSpec.RunCanonical | core/chain_indexer.go:304-429 | in every run from a new or loaded index, verification leaves only canonical sections beyond the checkpoint |
| IndexerSpec.ReorgForgets | core/chain_indexer.go:243-275 | a reorg notice drops exactly the sections beyond the checkpoint that reach past the common block |
| IndexerSpec.ReorgKnown | core/chain_indexer.go:249-258 | a reorg notice forgets exactly the known sections that reach past the block, and all of them below the checkpoint |
| IndexerSpec.KnownConfirmed | core/chain_indexer.go:276-299 | a section becomes known only with the required number of blocks on top |
| IndexerSpec.KnownExactly | core/chain_indexer.go:276-299 | a head notice makes exactly the sections known that have the required blocks on top, once the checkpoint is reached and canonical |
| IndexerSpec.FreshInv | core/chain_indexer.go:104-146 | a new index holds the checkpoint and nothing else |
| ChainIndexer.Indexer.constructor | core/chain_indexer.go:104-146 | an indexer starts from the index an earlier run left, or from the checkpoint only |
| ChainIndexer.Indexer.SetValidSections | core/chain_indexer.go:479-491 | exactly the heads of dropped sections are removed |
| ChainIndexer.Indexer.VerifyLastHead | core/chain_indexer.go:422-429 | the loop drops sections exactly as specified |
| ChainIndexer.Indexer.NewHead | core/chain_indexer.go:243-300 | a head or reorg notice has exactly the specified effect and keeps the invariant |
| ChainIndexer.Indexer.Sections | core/chain_indexer.go:434-440 | the answer counts only canonical sections beyond the checkpoint, every bloom query for them is answered, and the block number wraps when there is no section |
| ChainIndexer.Indexer.BeginUpdate | core/chain_indexer.go:319-337 | the next section is picked up exactly when one is known and not stored |
| ChainIndexer.Indexer.ProcessSection | core/chain_indexer.go:388-417 | with others reporting heads and asking for sections between any two reads, success means a hash-linked section continuing the old head with all its vectors stored; it does succeed while one chain stays canonical |
| ChainIndexer.Indexer.FinishUpdate | core/chain_indexer.go:348-368 | the section becomes the last stored one if and only if processing succeeded and its predecessor is unchanged; otherwise it is not stored and known equals stored |
| ChainIndexer.Indexer.Update | core/chain_indexer.go:317-369 | a turn of the update loop, with anything done by others between any two reads and before the lock is taken again, is a legal run of locked steps; the section goes in if and only if it was processed and its predecessor is still there; processing succeeds while one chain stays canonical |
| ChainIndexer.Indexer.UpdateLoop | core/chain_indexer.go:304-382 | undisturbed on a canonical chain, the loop ends with every known section stored, each with the canonical block as head and all its bloom queries answered |
| ChainIndexer.Indexer.QuietTurn | core/chain_indexer.go:317-369 | an undisturbed turn puts one section in |
| ChainIndexer.Indexer.CommitSection | core/chain_indexer.go:413-416 | a section read to its end is committed with all vectors |
| ChainIndexer.PrefixStep | core/chain_indexer.go:395-412 | a header whose parent is the last one read extends the linked prefix and the collected blooms |
| ChainIndexer.CommitRight | core/bloom_indexer.go:77-87 | every vector committed is true of the blocks of the section ending in its head |
| ChainIndexer.BackedServed | eth/bloombits.go:57-61 | any bit of a stored canonical section is answered |
| ChainIndexer.ServedCanonical | eth/bloombits.go:57-61 | a vector served has at position i the bloom bit of the canonical block at position i |
| BloomIndexer.SetBit | core/bloombits/generator.go:67-84 | setting a bit in a packed byte changes that position only |
| BloomIndexer.BitIs | core/bloombits/generator.go:67-84 | positions in a packed byte count from the most significant bit |
| BloomIndexer.BloomBitIs | core/bloombits/generator.go:67-84 | bit b of a header bloom is bit b mod 8 of byte 255 - b / 8 |
| BloomIndexer.Generator.RotateByte | core/bloombits/generator.go:67-84 | the eight bits of one byte of the header bloom reach their rows, and no other |
| BloomIndexer.Generator.constructor | core/bloombits/generator.go:45-54 | an empty generator |
| BloomIndexer.Generator.AddBloom | core/bloombits/generator.go:58-86 | accepted exactly at the next free position; then every row has the bit of the new bloom there and is otherwise unchanged |
| BloomIndexer.Generator.Bitset | core/bloombits/generator.go:90-98 | given out exactly when complete; position i tells whether bloom i has the bit |
| BloomIndexer.Backend.Reset | core/bloom_indexer.go:61-65 | opens an empty section exactly when the size fills whole bytes |
| BloomIndexer.Backend.Process | core/bloom_indexer.go:69-73 | the bloom is taken in exactly at the next position, and the head moves in any case |
| BloomIndexer.Backend.Commit | core/bloom_indexer.go:77-87 | all vectors of the section at once, or nothing when blooms are missing |
| IntrinsicGas.ToWordSize | core/state_transition.go:120-126 | the size divided by 32 rounded up, for every 64-bit size |
| IntrinsicGas.CountNonZero | core/state_transition.go:82-87 | counts exactly the non-zero bytes |
| IntrinsicGas.PriceIs | core/state_transition.go:70-117 | the counted price is the price byte by byte and entry by entry: 21000 or 53000, 4, 16 or 68 a byte, 2 a word, 2400 an address and 1900 a key |
| IntrinsicGas.Charge | core/state_transition.go:93-104 | the division test fails exactly when the sum does not fit in 64 bits |
| IntrinsicGas.DataGas | core/state_transition.go:70-111 | the exact price of base, data and init code when it fits in 64 bits, and overflow exactly otherwise |
| IntrinsicGas.IntrinsicGas | core/state_transition.go:70-117 | overflow exactly when the price of base and data, byte by byte, exceeds 64 bits; otherwise that price plus the access list's, modulo 2^64 |
| StateTransition.TransactionToMessage | core/state_transition.go:154-180 | the message carries the effective price, never above the fee cap, and every other field of the transaction unchanged |
| StateTransition.TotalUpdate | core/state_transition.go:281-282 | changing one account changes the sum of balances by the difference |
| StateTransition.RequiredCovers | core/state_transition.go:242-268 | the balance that is checked covers the fee taken and the value |
| StateTransition.Conservation | core/state_transition.go:456-480 | the fee bought splits into the refund, the tip and the burned base fee |
| StateTransition.RefusalCovers | core/state_transition.go:425-432 | a message that was not refused can still pay its value after the fee was taken |
| StateTransition.TurnedAwayExactly | core/state_transition.go:286-437 | a message runs if and only if the nonce is the sender's next, the sender is no contract, fees and blobs are in order, the sender can pay the most it may cost, and pool and gas limit suffice, all in plain arithmetic |
| StateTransition.TurnedAwayFirst | core/state_transition.go:286-437 | of eighteen checks in order, the first that applies decides the error |
| StateTransition.GivenIs | core/state_transition.go:414-444 | the interpreter gets the accounts with exactly the deposit taken, the caller's nonce one higher and the gas less the intrinsic price |
| StateTransition.PaidIs | core/state_transition.go:456-523 | the refund is the largest number within the counter and a fifth (before London a half) of the gas used; sender and coinbase get exactly their shares and nobody else anything |
| StateTransition.ReplayRefused | core/state_transition.go:291-299 | a call that ran is refused as too low when sent again |
| StateTransition.PriceFits | core/state_transition.go:509-511 | the refund panics on the price only for a message from before London with a zero gas limit and an access list priced past 64 bits |
| StateTransition.TipIs | core/state_transition.go:464-470 | the effective tip is what the price leaves above the base fee, and not negative |
| StateTransition.GasPool.AddGas | core/gaspool.go:29-35 | adds, or panics exactly on overflow |
| StateTransition.GasPool.SubGas | core/gaspool.go:39-45 | takes the amount or refuses and takes nothing |
| StateTransition.Transition.BuyGas | core/state_transition.go:242-284 | refuses without effect, or takes exactly the fee without wrapping and the gas from the pool |
| StateTransition.Transition.PreCheck | core/state_transition.go:286-369 | the first failing check in order decides the error, and nothing changes then |
| StateTransition.Transition.RefundGas | core/state_transition.go:496-523 | the refund is the largest number within the counter and the quotient's share of the gas used, and sender and pool get the rest back without wrapping |
| StateTransition.Transition.PayTip | core/state_transition.go:464-480 | the coinbase gains exactly gas used times tip |
| StateTransition.Transition.Enter | core/state_transition.go:381-437 | everything before the call: which error, when, and what was charged |
| StateTransition.Transition.Settle | core/state_transition.go:456-494 | everything after the call: exact balances, pool and refund |
| StateTransition.Transition.TransitionDb | core/state_transition.go:381-494 | a message runs exactly if admissible; then deposit, refund, charge and payments are exact in plain arithmetic, the sum of balances falls by gas used times base fee plus the blob fee (and what the interpreter burns), the pool by gas used; every error case is exact; the transfer check cannot fail |
| StateProcessor.ApplyTransaction | core/state_processor.go:137-166 | a transaction fails exactly when its message is turned away; otherwise the accounts are those it leaves, and gas and balances are conserved |
| StateProcessor.CumulativeStep | core/state_processor.go:152-173 | appending a receipt keeps cumulative gas the prefix sums |
| StateProcessor.ProcessOne | core/state_processor.go:92-104 | one turn of the loop: an error exactly as the message is turned away, otherwise one more receipt and exact books |
| StateProcessor.Process | core/state_processor.go:92-105 | transactions run one after the other, each on the accounts the one before left, with exact deposit, refund, charge and payments on every receipt; the block succeeds exactly when no sender is unknown and no message turned away, and fails at the first that is; pool plus used gas is the block gas limit throughout, receipts carry prefix sums, and the sum of balances falls by exactly the fees |
| FeedSpec.StepKeeps | event/feed.go:73-180 | every atomic step keeps live subscriptions equal to inbox plus case list and accounts for every delivery |
| FeedSpec.RunKeeps | event/feed.go:73-180 | the same over every interleaving |
| FeedSpec.FoundCase | event/feed.go:108-115 | a waiting cancellation always finds its channel, past the first case |
| FeedSpec.WholeSend | event/feed.go:120-180 | over any interleaving of a send, it delivers to everyone live at its start except those removed before their turn, and the count is the number of deliveries |
| FeedSpec.ExactlyOnce | event/feed.go:145-172 | with distinct channels, a channel that stays gets the value exactly once, any other at most once |
| FeedSpec.TurnShrinks | event/feed.go:145-172 | every turn of a send shrinks the active cases or the case list |
| FeedSpec.ReachedInv | event/feed.go:60-180 | every reachable state of a new feed keeps the books |
| FeedSpec.LiveCounts | event/feed.go:73-115 | in every reachable state a channel is live as often as it was subscribed less the cancellations that took effect, and every other cancellation is waiting |
| FeedSpec.NeverCancelled | event/feed.go:73-115 | a channel never cancelled is live as often as it was subscribed and is never removed |
| Feed.Feed.constructor | event/feed.go:60-66 | a feed nobody subscribed to |
| Feed.Feed.Subscribe | event/feed.go:73-93 | the channel is appended to the inbox and live once more |
| Feed.Feed.Unsubscribe | event/feed.go:95-106 | a channel in the inbox is gone from it at once, any other waits |
| Feed.Feed.RemoveIdle | event/feed.go:111-115 | with no send in progress the waiting channel leaves the case list |
| Feed.Feed.FindCase | event/feed.go:203-210 | the first position of the channel, or none |
| Feed.Feed.DeleteCase | event/feed.go:213-215 | the array loses exactly that position |
| Feed.Feed.Begin | event/feed.go:130-134 | the inbox is appended, in place where there is room |
| Feed.Feed.DeliverTo | event/feed.go:218-222 | the case moves behind the active ones |
| Feed.Feed.Receive | event/feed.go:161-167 | the channel leaves the list, and the active part exactly if it was in it |
| Feed.Feed.FastPath | event/feed.go:149-155 | any subset of channels may take the value at once; books and count stay right |
| Feed.Feed.Select | event/feed.go:159-171 | one turn delivers or removes and makes progress |
| Feed.Feed.Send | event/feed.go:120-180 | it ends under any interference; deliveries plus missed equal the subscriptions live at its start; a channel nobody removed gets the value exactly as often as it was subscribed, and one never cancelled as often as it was ever subscribed; the result counts deliveries |
| DerivationPath.ParseDerivationPath | accounts/hd.go:68-118 | the loop computes the meaning of the path text, with the first error |
| DerivationPath.ToString | accounts/hd.go:122-136 | the loop computes the printed form |
| DerivationPath.ComponentMeaning | accounts/hd.go:91-112 | a component gives an index exactly when its text is a number in range, with a quote behind it for a hardened one and any white space around both; a number out of range and anything else are separate errors |
| DerivationPath.PathMeaning | accounts/hd.go:68-118 | a text gives a path exactly when its components name the indices one by one, after "m" or below the default root |
| DerivationPath.PathErrors | accounts/hd.go:73-112 | ambiguous exactly with a blank first component, empty exactly for a lone "m", otherwise the error of the first bad component |
| DerivationPath.RelativePath | accounts/hd.go:83-84 | a relative text gives the path or the error of the same text behind m/44'/60'/0'/0/ |
| DerivationPath.SplitExactly | accounts/hd.go:72 | the components are the one way to write the text as pieces without a slash |
| DerivationPath.NumberMeaning | accounts/hd.go:101 | a number is digits of the base its prefix names, with single underscores between them |
| DerivationPath.SignMeaning | accounts/hd.go:101 | a sign before the number is taken into account |
| DerivationPath.SpaceIs | accounts/hd.go:92 | white space is that of Unicode, by code point |
| DerivationPath.PrintMeaning | accounts/hd.go:122-136 | a component prints as its decimal digits, none superfluous, with a quote from 2^31 on |
| DerivationPath.ScanTight | accounts/hd.go:101-104 | a text accepted as a number has no white space and no quote in it |
| DerivationPath.ComponentRoundTrip | accounts/hd.go:91-136 | every 32-bit component, hardened or not, parses back from its printed form |
| DerivationPath.RoundTrip | accounts/hd.go:68-136 | parsing the printed form of any non-empty path gives the path back; the empty path is refused |
| DerivationPath.ParsePrintParse | accounts/hd.go:68-136 | printing whatever was parsed and parsing again changes nothing |

## Left out

- The recovery of missing ancestors and of missing state in `SetCanonical` (core/blockchain.go:2390-2398): block states are not part of the chain model.
- Reorgs with missing block bodies: bodies are stored with their headers.
- Heads whose header marker is above the block marker: `writeHeadBlock` then leaves canonical entries above the new head, so `BlockChain.Chain` starts with equal markers and keeps them equal.
- Chain and chain-head events, LRU caches, metrics and logging.
- Transactions outside the indexed range: every canonical block is indexed, as with an unlimited lookup limit.
- BlockChain.Chain.SetCanonical: requires that a child of the current head carries the next number, which `ChainRuns.Execute` shows to hold in every run.
- BlockChain.Chain.InsertSideBlocks: models the storing of side blocks only, not the re-execution that follows when they become the heavier chain, nor an interrupted import.
- HeaderChain.Chain.InsertHeaderChain: header verification by the consensus engine is replaced by the requirement that the headers are linked and collide with nothing stored; entries cached before an abort are not modelled.
- Rewind.Rewinder.SetHead: rewinds to a block number under the hash scheme only; the path scheme, the timestamp mode, rewinding beyond a state root and repair mode are left out. Which of several blocks at a frozen height cuts the freezer is arbitrary.
- Clearing of the safe and finalized markers after a rewind, and reloading the last state.
- Flushing and committing of tries by size or time in the garbage collection.
- TrieGc.Gc.Pop: the heap behind the priority queue is not modelled, only that an item of greatest priority is taken.
- ChainIndexer.Indexer.Update: one indexer without child indexers; a checkpoint is given at the start and not added later; the removal of all sections after a failed backend reset is one atomic step.
- Deletion of headers by a rewind while the indexer runs: the indexer reads from a store that holds every header ever written, and a header that cannot be found is an error path of `ProcessSection`.
- The event loop that turns chain head events into notices, throttling and shutdown of the indexer.
- Compression of stored bloom vectors, and the scheduling of bloom retrievals.
- Calls outside the consensus path (no base fee, skipped checks), access events of stateless execution, and refunds or gas rules of forks past Cancun.
- The interpreter, signature recovery, system calls, withdrawals and rewards around the transaction loop.
- Panics of the feed on channels of the wrong type, and `event/feedof.go`, which is the same algorithm.
- RPC, networking, consensus engines, trie and database layers: they would add assumptions rather than properties.
