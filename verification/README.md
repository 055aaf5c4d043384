# mustdb: a verified model

mustdb is an embedded store written in C. This project models the parts of it whose correctness is hardest to see by
reading one function, and proves what they promise, for every input, every run and every interleaving.

| file | what it models |
|---|---|
| Collections.dfy, Bytes.dfy | shared facts about sequences; byte strings and little-endian integers |
| MetaStream.dfy | block allocation, chained meta-block streams, the writer and the reader as functions |
| FreeList.dfy | saving the free list ahead of a header and loading it on reopen |
| Allocations.dfy | runs of consecutive allocations |
| Checkpoint.dfy | the checkpoint store as a state machine with crashes between any two disk writes |
| AsWrittenStore.dfy, AsWrittenRuns.dfy | the same store with the writer loop and the block count as the code has them, step by step and over whole runs |
| Space.dfy | which operations keep every block of the file accounted for, and which blocks are lost |
| Counterexamples.dfy | runs that show why the conditions of those theorems are needed |
| BlockManager.dfy | the block manager, the stream writer and the stream reader as objects that update their buffers |
| TableRecord.dfy, TableCatalog.dfy | table records: encoder, decoder, and both through the stream objects |
| Checksum.dfy | the block checksum |
| CountingAllocator.dfy | the counting allocator as interleaved atomic steps of any number of threads |
| HashMap.dfy | the chained hash map, its rehashing and its iterator |
| Versions.dfy, CatalogSet.dfy, CatalogTree.dfy | version chains as values and as linked entries; schemas and tables as nested sets |
| Connections.dfy, EventCycle.dfy | one worker of the network server: its connections, and its cycle as an object |
| CycleRuns.dfy | whole cycles and whole runs of the worker |
| BufferPool.dfy | sizing and indexing of the buffer pool's hash table |

## How to read the theorems

**As written and as intended.** Two places of the storage code do not do what they are for, and the model keeps both
forms.

- `metaBlockWriter_write_data` caches the writer's offset (src/storage/table/storage.c:333) and does not reload it
  after a flush has reset it. `MetaStream.AsWrittenExitsIffFits` shows that the loop as written exits exactly when the
  data fits in the current block, and `MetaStream.AsWrittenChunksIff` that a list of writes then does what is intended.
- `write_header` takes the block count (line 492) before the free-list writer may take fresh blocks (line 496).
  `AsWrittenStore.AsWrittenBlockCountIff` gives the exact condition under which this is harmless, and
  `Counterexamples.AsWrittenCounterexample` a run after which it is not.

The other theorems about streams and the store are about the intended loop, which reloads the offset, and the block
count taken afterwards. `AsWrittenRuns` is about the code as it is: its own runs, in which an operation returns, the
machine stops during it, or the loop never ends and the machine is stopped inside it. They go through the states of
the intended store as long as every reopen goes back to a header committed with nothing read or with a free block
(`AsWrittenRuns.AsWrittenRunsIff`); the first commit that frees a block never does (`AsWrittenRuns.FirstFreeingCommit`).

**The meta block.** A client commits with any meta block it likes. `Checkpoint.MetaSafeIff` says which ones give a
header that leads to a known stream and keeps it whole: a stream closed since the last commit, or one of the last
commit none of whose blocks was read since. `Counterexamples.MetaCounterexample` is a run that commits another one.
`Checkpoint.ReachSafeIff` is about any meta block at all.

**Space.** `write_header` drops what is left of the free list (lines 522-523). `Space.CommitLosesExactly` says which
blocks a commit therefore loses; it costs space only, and no other theorem depends on it.

**Crashes.** Each block or header write is atomic and happens in program order. An operation is a list of such writes;
a crash keeps any prefix of the list, and the file is then reopened. The client contract (`Checkpoint.Enabled`) is the
one the allocator needs: a block is read only while the last checkpoint needs it, at most once per checkpoint.

**History.** Some records carry history beside the fields of the source: the bytes given to a stream, the part of an
allocation counted so far, the bytes a connection produced and sent. Nothing the modelled code does depends on them.

**Interleavings.** In the allocator every atomic load, fetch-add and compare-and-swap is one step; compare-and-swap may
fail spuriously and relaxed loads may be stale.

**The outside world.** Memory running out in the allocator, the hash map, the catalog and the worker, system calls,
callbacks, spurious failures and hash functions are inputs of the operations, quantified over in every theorem about
them.

## Model

| member | source | states |
|---|---|---|
| MetaStream.AllocFresh | src/storage/table/storage.c:410-420 | a block handed out was not taken, and the manager stays fresh for everything taken, the new block included |
| MetaStream.WriteDataFresh | src/storage/table/storage.c:331-361 | a write takes only fresh blocks, writes only its own and those, and changes nothing else of the manager |
| MetaStream.WriteDataOrder | src/storage/table/storage.c:331-361 | a write puts out its own block and the ones it takes, in order, but the last |
| MetaStream.WriteDataAppends | src/storage/table/storage.c:331-361 | a write of any length appends exactly its bytes to the stream, over any number of blocks (intended loop) |
| MetaStream.WriteChunksAppends | src/storage/table/storage.c:331-361 | any sequence of writes appends the concatenation of what was written |
| MetaStream.FlushStores | src/storage/table/storage.c:293-304 | after the flush every byte of the stream is on disk in its chain of linked blocks, and nothing is written for an empty stream |
| MetaStream.AsWrittenExitsIffFits | src/storage/table/storage.c:331-361 | the loop as written exits if and only if the data fits in the current block; otherwise it takes one more block each turn, for ever |
| MetaStream.LoopWritesSame | src/storage/table/storage.c:331-361 | every turn of the loop as written takes a further block and puts the same payload out again, to the block taken by the turn before |
| MetaStream.AsWrittenChunksIff | src/storage/table/storage.c:331-361 | a list of writes with the loop as written does what is intended if all of it fits in the current block, and never returns otherwise |
| MetaStream.MidFlushHarmlessIff | src/storage/table/storage.c:293-304 | a flush in mid-stream makes the stream go on from the end of the block before, so it is harmless if and only if the current block had no payload |
| MetaStream.ReadDataCorrect | src/storage/table/storage.c:235-255 | a read of any length at any position returns exactly the bytes there and loads exactly the blocks it crosses |
| MetaStream.StreamRoundTrip | src/storage/table/storage.c:210-255 | a reader opened at the first block returns the stream under any chunking of the reads and loads each block once, in order |
| FreeList.SaveFreeListStores | src/storage/table/storage.c:488-525 | saving the freed ids stores their length and the ids, in order, in a chain of fresh blocks |
| FreeList.LoadFreeListCorrect | src/storage/table/storage.c:543-564 | loading a saved free list returns the same ids in the same order and loads its chain once |
| FreeList.AsWrittenSavesIff | src/storage/table/storage.c:488-525 | with the writer loop as written, saving the free list does what is intended if at most 1021 blocks were freed, and never returns otherwise |
| Allocations.SaveFreeListAllocs | src/storage/table/storage.c:488-525 | saving the freed ids takes exactly the blocks their number calls for, in the order the allocator hands them out |
| Allocations.OneBlockSuffices | src/storage/table/storage.c:488-525 | one block carries the list if and only if it has at most 1021 ids |
| Checkpoint.StepInv | src/storage/table/storage.c:394-525 | every operation of a well-behaved client keeps the store's invariant: slots, snapshot on disk, disjoint streams, fresh allocator |
| Checkpoint.ReadsFreeInOrder | src/storage/table/storage.c:394-525 | after every run, the used blocks are the chain the last reopen went through and the blocks read since, in order; a commit frees exactly those, the last read to be handed out first; the iteration counts the commits and the meta block is the last one's |
| Checkpoint.NewFile | src/storage/table/storage.c:617-642 | a new file, opened as an old one, gives an empty manager without a meta block and with the second header active |
| Checkpoint.ReopenPicks | src/storage/table/storage.c:653-668 | of two headers the first is the active one only if its iteration is larger, and without a saved free list nothing is free or used |
| Checkpoint.CrashInv | src/storage/table/storage.c:643-668 | a crash after any number of an operation's disk writes and a reopen leave the last snapshot, or the one whose header got written, complete and with exactly its manager |
| Checkpoint.CheckpointAtomicity | src/storage/table/storage.c:488-525 | after every run, a crash at any point yields the last committed or the just committed header; the active slot holds it and the other slot an older one |
| Checkpoint.AllocationSafety | src/storage/table/storage.c:410-433 | after every run, no block an operation takes is needed by the last checkpoint or by a stream, and the free list is duplicate-free and below the high-water mark; if every commit was given a safe meta block, no number of allocations hands out a block reached on disk from the active header |
| Checkpoint.HeaderReach | src/storage/table/storage.c:488-525 | the blocks reached from the active header by following the links on disk are those of its meta stream and of its free list |
| Checkpoint.MetaSafeIff | src/storage/table/storage.c:488-525 | among the streams closed since the last commit and those of the last commit: a commit makes a header that leads to one of them and is safe from the allocator if and only if its meta block starts one closed since, or one with no block in `used_blocks`, or is the invalid block |
| Checkpoint.ReachSafeIff | src/storage/table/storage.c:410-420 | whatever meta block a commit is given and however much is read from there, the allocator leaves alone what is reached if and only if all of it is below the high-water mark and was not read since the last commit |
| Checkpoint.MetaReadsBack | src/storage/table/storage.c:543-564 | after every run and a crash at any point, reading from the meta block of the reopened file gives the stream committed with it |
| Counterexamples.MetaCounterexample | src/storage/table/storage.c:488-525 | a run that commits once more a meta block it has read, after which that block is the next one handed out |
| Checkpoint.StreamsReadBack | src/storage/table/storage.c:210-361 | after every run with any interleaving of writers, each closed stream and each committed stream reads back its own bytes under any chunking |
| Checkpoint.FreeListPersistence | src/storage/table/storage.c:488-564 | after every run, a commit and a reopen give back the manager in memory: free list in order, meta block, iteration, slot, high-water mark |
| AsWrittenStore.AsWrittenBlockCountIff | src/storage/table/storage.c:488-525 | with the block count taken as written, a reopen restores the high-water mark, and never hands out a live block, if and only if the free list in hand covers the blocks the saved list needs |
| AsWrittenStore.AsWrittenStepIff | src/storage/table/storage.c:331-525 | a step of the code as written returns if and only if a write fits its block and a commit has at most 1021 freed ids, and is the intended step if and only if, besides, a commit that saves ids has a free block |
| AsWrittenRuns.AsWrittenReturns | src/storage/table/storage.c:331-525 | every run of the intended store, without crashes, whose writes fit their blocks and whose commits free at most 1021 blocks is a run of the code as written with the same memory, streams, blocks and snapshots, and the same headers up to their block counts |
| AsWrittenRuns.AsWrittenRunsIff | src/storage/table/storage.c:331-668 | with stops and reopens in between, the two go through the same states if and only if every reopen goes back to a header committed with nothing read or with a free block |
| AsWrittenRuns.FirstFreeingCommit | src/storage/table/storage.c:488-525 | the first commit that frees a block finds no free block, so its header counts one block too few |
| AsWrittenRuns.AsWrittenSafety | src/storage/table/storage.c:331-525 | after every run of the code as written whose reopens are of that kind, every stream and the snapshot are complete on disk, and no block an operation takes belongs to them |
| AsWrittenRuns.AsWrittenReadsBack | src/storage/table/storage.c:210-361 | and every closed and every committed stream reads back its own bytes |
| AsWrittenRuns.AsWrittenAtomicity | src/storage/table/storage.c:331-668 | stopping the machine then at any write, or after any number of turns of the loop that never ends, leaves the last snapshot or the one just committed, complete and with the manager its header describes; the reopened allocator stays off its blocks if and only if its header counts them all |
| AsWrittenRuns.AsWrittenPersistence | src/storage/table/storage.c:488-564 | after every run of the code as written, whatever its reopens, `write_header` returns if and only if at most 1021 blocks were read, and a reopen then gives back the manager in memory if and only if none was read or the free list was not empty |
| Counterexamples.AsWrittenCounterexample | src/storage/table/storage.c:488-525 | a run of five operations after which commit and reopen, as written, do hand out a live block |
| Counterexamples.AsWrittenStops | src/storage/table/storage.c:488-525 | those five operations all return as written, and stopping the machine right after the next commit leaves such an allocator |
| Checkpoint.ReopenRestores | src/storage/table/storage.c:643-668 | reopening picks the newer header and rebuilds exactly the manager of its snapshot |
| Space.StepKeepsAccounts | src/storage/table/storage.c:394-433 | opening, writing, closing and reading lose no block: each one below the high-water mark stays free, needed or owned |
| Space.CommitLosesExactly | src/storage/table/storage.c:521-524 | the blocks a commit loses are the free blocks it had no use for, and those of the last snapshot neither read nor reached from the new meta block |
| Space.CommitKeepsAccountsIff | src/storage/table/storage.c:521-524 | so a commit loses no block if and only if the free list is no longer than the saved list needs and every block of the last snapshot was read or is kept by the new meta block |
| Counterexamples.LosingCommit | src/storage/table/storage.c:521-524 | a run whose last commit loses a block |
| Space.CrashKeepsAccountsIff | src/storage/table/storage.c:643-668 | a crash and a reopen keep every block accounted for if and only if the snapshot they go back to counts no block that is neither free nor needed |
| Space.WholeIff | src/storage/table/storage.c:488-525 | which is so if and only if its commit lost nothing and no stream was left open over it |
| Space.LostIsNeverHandedOut | src/storage/table/storage.c:410-420 | a lost block is not taken by any operation of any later run, commits, crashes and reopens included |
| BlockManager.SingleFileManager.GetFreeBlockId | src/storage/table/storage.c:410-420 | pops the free list or raises the high-water mark, as the allocation function says |
| BlockManager.SingleFileManager.ReadBlock | src/storage/table/storage.c:394-401 | notes the block as used and fills the buffer with what the disk holds |
| BlockManager.SingleFileManager.WriteBlock | src/storage/table/storage.c:403-408 | the disk changes in that block only |
| BlockManager.SingleFileManager.CreateNew | src/storage/table/storage.c:576-641 | a new file has two headers, the second one newer and active |
| BlockManager.SingleFileManager.SaveList | src/storage/table/storage.c:496-510 | the loop over the used blocks and the final flush make exactly the writes of the saved list |
| BlockManager.SingleFileManager.LoadIds | src/storage/table/storage.c:552-561 | the loop over the saved ids computes its function and notes the blocks it crosses |
| BlockManager.SingleFileManager.WriteDatabaseHeader | src/storage/table/storage.c:488-525 | leaves the memory and the disk that the commit function says |
| BlockManager.SingleFileManager.Initialize | src/storage/table/storage.c:543-564 | rebuilds the manager that the reopen function says |
| BlockManager.OpenExisting | src/storage/table/storage.c:643-668 | a file is refused if and only if its version differs, whatever its magic number; otherwise the manager is the reopened one |
| BlockManager.SingleFileManager.Open | src/storage/table/storage.c:653-668 | reads both headers and rebuilds the manager of the newer one |
| BlockManager.MetaBlockWriter.WriteBytes | src/storage/table/storage.c:331-361 | the loop over in-place buffers computes the write function: manager, writer state, blocks and disk |
| BlockManager.MetaBlockWriter.constructor | src/storage/table/storage.c:279-291 | takes one block and starts behind its link |
| BlockManager.MetaBlockWriter.RollBlock | src/storage/table/storage.c:337-356 | one turn of the loop fills the block, links it to a new one, writes it and goes on in the new one |
| BlockManager.MetaBlockWriter.FlushBlock | src/storage/table/storage.c:293-304 | writes the block if it holds anything and resets the offset |
| BlockManager.MetaBlockReader.ReadBytes | src/storage/table/storage.c:235-255 | the loop computes the read function: bytes, reader state and used blocks |
| BlockManager.MetaBlockReader.LoadBlock | src/storage/table/storage.c:210-223 | loads a block, remembers its link and stands behind it |
| TableRecord.GetTableCorrect | src/parse/parser.c:33-55 | decoding a record at any position of a stored stream gives the written names, types and dimensions with positions as object ids, and stops right after it |
| TableRecord.RecordLayout | src/storage/table/storage.c:689-714 | a record byte by byte: schema name, table name, column count, and the first column with its tag, which is 8 for a vector and followed by its dimension |
| TableRecord.KnownRecord | src/storage/table/storage.c:689-714 | a known record of 34 bytes |
| Bytes.LeAt | src/include/storage.h:299-332 | byte `i` of a written integer is its digit `i` to the base 256, the lowest first |
| TableRecord.DecodedWholeIff | src/storage/table/storage.c:696-698 | all columns come back if and only if their number fits the 32 bits it is written in, so always where the writer's `int` index is defined |
| TableRecord.GetTablesCorrect | src/parse/parser.c:33-55 | any concatenation of records decodes to the same list |
| TableRecord.TableChunksBytes | src/include/storage.h:318-332 | the separate writes of the serializer macros add up to the record's bytes |
| TableRecord.TablesRoundTrip | src/storage/table/storage.c:689-716 | tables written through a stream writer, flushed, and decoded from the first block come back in order, whatever blocks they fall in |
| TableRecord.AsWrittenSavesTablesIff | src/storage/table/storage.c:331-361 | with the writer loop as written, saving tables does what is intended if all records fit one block together, and never returns otherwise |
| TableCatalog.CheckpointManager.WriteTable | src/storage/table/storage.c:689-716 | makes exactly the record's writes, in order |
| TableCatalog.CheckpointManager.PutString | src/include/storage.h:326-332 | a length, then the bytes |
| TableCatalog.CheckpointManager.PutColumn | src/storage/table/storage.c:700-714 | name, type tag, and the dimension of vectors only |
| TableCatalog.ReadTable | src/parse/parser.c:33-55 | the imperative decoder computes the decode function and leaves the reader where it says |
| TableCatalog.ReadColumns | src/parse/parser.c:40-54 | the column loop computes its function |
| TableCatalog.ReadKind | src/parse/parser.c:46-53 | reads the tag, and the signed dimension only after a vector tag |
| TableCatalog.ReadString | src/include/storage.h:260-268 | reads a length and that many bytes |
| Checksum.Murmur32Bijective | libv/src/hash.c:8-16 | the 32-bit mixer is a bijection |
| Checksum.SingleWordDetected | libv/src/hash.c:49-65 | buffers that differ in one word have different checksums if and only if the low halves of that word differ |
| Checksum.SwapUndetected | libv/src/hash.c:49-65 | exchanging two words never changes the checksum |
| Checksum.WordMixedIn | libv/src/hash.c:8-58 | the checksum of nothing is 5381, and each further word is mixed in by the shifts and multiplications of the source on its low 32 bits |
| Checksum.ByteMixedIn | libv/src/hash.c:33-63 | the bytes after the last word contribute 5381 and then each signed byte added to 33 times what came before |
| Checksum.KnownSums | libv/src/hash.c:49-65 | known checksums of one word, two words and one byte |
| Checksum.ComputeChecksum | libv/src/hash.c:49-65 | the loop computes the fold those theorems are about |
| Checksum.WriteBuffer | src/storage/table/storage.c:94-105 | what reaches the disk is the data with its checksum in front, so a read accepts it |
| Checksum.ReadBuffer | src/storage/table/storage.c:77-92 | the data arrives, and the result is 0 exactly when the stored checksum matches |
| Checksum.CorruptionCaught | src/storage/table/storage.c:77-105 | after one word of a written buffer changed on disk, a read accepts it if and only if the change is in the high half of a data word |
| CountingAllocator.StepInv | src/utils/alloc.c:24-186 | every atomic step of every thread keeps the invariant |
| CountingAllocator.ExactPeak | src/utils/alloc.c:24-62 | in every interleaving the peak and the values on their way to it stay at or below the largest live count ever, and one of them equals it; at quiescence the peak does |
| CountingAllocator.LiveConservation | src/utils/alloc.c:67-153 | the live count is the sum of what was counted so far, and at quiescence the sum of all header sizes |
| CountingAllocator.AskedExact | src/utils/alloc.c:85-153 | read off the calls of a run alone: each header holds the size its last successful malloc, calloc or realloc asked for, and the three counters are the numbers of allocations made, resized and freed, up to calls in flight; at quiescence the live count is the sum of the sizes asked for |
| CountingAllocator.StopsAtZero | src/utils/alloc.c:67-77 | even under double frees a subtraction stops at zero |
| CountingAllocator.CallCountersExact | src/utils/alloc.c:55-83 | allocation count minus free count is the number of allocations, up to calls in flight, and exactly at quiescence |
| CountingAllocator.NeverSaturates | src/utils/alloc.c:67-77 | without double frees, a subtraction that lands never takes the saturating branch |
| CountingAllocator.FaultCountdownExact | src/utils/alloc.c:41-52 | in every interleaving the calls let through since the countdown was set plus the countdown make the number set, and it never goes below zero unless set there; a check refuses its call at zero and only then |
| CountingAllocator.FailureChangesNothing | src/utils/alloc.c:88-144 | in any interleaving a call that fails changes no counter and no allocation, and it has spent one unit of the countdown if and only if the fault check let it through while a countdown was in force, that is, only when it was refused later |
| CountingAllocator.CallocOverflowExact | src/utils/alloc.c:103-110 | the overflow test rejects exactly the products that do not fit 64 bits, and then nothing changes |
| HashMap.Map.constructor | libv/src/hash.c:93-105 | an empty map within its load |
| HashMap.Map.Get | libv/src/hash.c:213-224 | returns the node of the key, or null |
| HashMap.Map.Insert | libv/src/hash.c:182-211 | updates the mathematical map, fails only when a new node cannot be allocated, keeps the nodes of other keys, and doubles the buckets exactly when three quarters of them are reached |
| HashMap.Map.Delete | libv/src/hash.c:232-260 | removes the key from the mathematical map and hands its value back |
| HashMap.Map.Contains | libv/src/hash.c:262-273 | membership in the mathematical map |
| HashMap.Map.Grow | libv/src/hash.c:146-167 | twice the buckets and the same nodes, each in the bucket of its hash |
| HashMap.Rehash | libv/src/hash.c:151-163 | moving all chains into a new array keeps exactly the same nodes and puts each in the bucket of its hash |
| HashMap.Iterator.Next | libv/src/hash.c:296-315 | moves to the first of the remaining nodes, or reports that there is none, for good |
| HashMap.Iterator.constructor | libv/src/hash.c:289-294 | all nodes are still to be visited |
| HashMap.VisitAll | libv/src/hash.c:289-315 | iterating to the end visits the chains of all buckets in order |
| HashMap.VisitsEachNodeOnce | libv/src/hash.c:289-315 | that is every node of the map exactly once, `len` of them |
| Versions.ChainIsHistory | src/catalog/catalog.c:133-213 | after any run, whatever memory it finds, a name's chain is one dummy followed by its creates and drops that took effect, in order |
| Versions.RecordsAllReportedIff | src/catalog/catalog.c:194-213 | the chain records every operation that reported success if and only if no drop of the name lacked memory |
| Versions.VisibleIffLastCreated | src/catalog/catalog.c:177-184 | a name is visible, and found, exactly when the last operation on it that took effect was a create |
| Versions.SetCodes | src/catalog/catalog.c:133-213 | after any run on a set: a create is refused if the name is visible or, when unknown, without memory for its dummy; a drop succeeds on every known name, but hides a visible one only with memory |
| Versions.SchemasIsolated | src/catalog/catalog.c:227-283 | over any run, whatever memory it finds, operations on other schemas change nothing a schema shows |
| Versions.MainStaysVisible | src/catalog/catalog.c:250-255 | the default schema, once created, stays visible |
| Versions.DropHidesIff | src/catalog/catalog.c:250-255 | after any run a drop reports success, but hides the schema's tables for as long as it is not created again if and only if it found memory or the schema was not visible |
| Versions.RecreateEmptiesIff | src/catalog/catalog.c:227-243 | after any run, dropping a schema and creating it again leaves it showing only tables made after that if and only if the drop found memory or the schema showed no table |
| Versions.SchemaCodes | src/catalog/catalog.c:227-243 | after any run a create reports -1 exactly without memory for its entry, -2 exactly if, with that memory and without `if_not_exists`, the name was visible before or is not even now, and 0 otherwise |
| Versions.TableCodes | src/catalog/catalog.c:257-275 | the same for tables, with -1 also if the schema is not visible |
| Versions.DropCodes | src/catalog/catalog.c:250-255 | dropping reports -1 for the default schema only |
| CatalogSet.CatalogSet.CreateEntry | src/catalog/catalog.c:133-175 | succeeds if and only if the name is not visible and memory is found; then the entry heads its chain, linked both ways, and no other chain changes |
| CatalogSet.CatalogSet.DropEntry | src/catalog/catalog.c:194-213 | puts a tombstone on any known name, visible or not, if memory is found |
| CatalogSet.CatalogSet.Push | src/catalog/catalog.c:167-173 | the pointer updates keep every chain linked both ways and only extend the one |
| CatalogSet.CatalogSet.Get | src/catalog/catalog.c:177-184 | the newest entry if it is not a tombstone |
| CatalogSet.CatalogSet.CountEntries | src/catalog/catalog.c:215-225 | a scan of the hash map that holds the newest entries counts the visible names |
| CatalogSet.CatalogSet.Deinit | src/catalog/catalog.c:18-51 | reclaims every entry of every chain exactly once |
| CatalogSet.FreeChain | src/catalog/catalog.c:23-48 | the inner loop reclaims one chain from newest to oldest |
| CatalogTree.Catalog.CreateSchema | src/catalog/catalog.c:227-243 | makes the catalog value and the code that the create function says; without memory for a new name's dummy it creates nothing and reports an existing schema, with `if_not_exists` even success |
| CatalogTree.Catalog.DropSchema | src/catalog/catalog.c:250-255 | refuses the default schema; otherwise puts a tombstone on the schema, and its tables' sets stay as they are |
| CatalogTree.Catalog.CreateTable | src/catalog/catalog.c:257-275 | adds the table to the one schema's own set and leaves every other set untouched; fails without the schema |
| CatalogTree.Catalog.GetSchema | src/catalog/catalog.c:245-248 | the newest schema entry of the name, if it is not a tombstone |
| CatalogTree.Catalog.GetTable | src/catalog/catalog.c:277-283 | the newest table of the newest schema of those names, if neither is a tombstone |
| CatalogTree.Catalog.Destroy | src/catalog/catalog.c:115-121 | the nested teardown reclaims every entry of every schema chain and of every table set below, each exactly once |
| Connections.FlushAccounts | libv/src/net/net.c:222-248 | whatever the writes return, bytes sent followed by bytes left are the responses produced, and the buffer is released exactly when all were sent |
| Connections.FlushExact | libv/src/net/net.c:222-248 | exactly how many bytes the results of the writes let through, and that the connection is marked closed if and only if a failure stopped it with something left |
| Connections.FlushCompletes | libv/src/net/net.c:222-248 | if no call stops the loop and there is room, everything is sent |
| Connections.OpenOk | libv/src/net/net.c:161-170 | opening a connection keeps the table's invariant, whether or not the insertion succeeds |
| Connections.CloseOk | libv/src/net/net.c:283-297 | closing a queued connection keeps it: one closed callback, out of the map, freed |
| EventCycle.FlushConn | libv/src/net/net.c:222-248 | the loop computes the flush function |
| EventCycle.Worker.Reset | libv/src/net/net.c:329-336 | empties every queue |
| EventCycle.Worker.Accept | libv/src/net/net.c:117-192 | computes the sorting of all events; on distinct descriptors every connection enters at most one queue, and all queues together hold at most one entry per event |
| EventCycle.Worker.FindOrOpen | libv/src/net/net.c:124-170 | finds the connection of an event or opens one; wake, listening and failed events give none |
| EventCycle.Worker.Enqueue | libv/src/net/net.c:172-190 | sorts the connection into the one queue its state calls for |
| EventCycle.Worker.ReadOne | libv/src/net/net.c:194-220 | computes one read; a packet lands in a slot of its own with its terminator and all earlier packets stay intact |
| EventCycle.Worker.Read | libv/src/net/net.c:211-220 | computes all reads of the cycle |
| EventCycle.Worker.ProcessOne | libv/src/net/net.c:300-327 | the callback meets a live connection outside background work with no unsent output and gets exactly the bytes read since its last call; computes the callback and the routing after it from the bytes in the packet buffer |
| EventCycle.Worker.Process | libv/src/net/net.c:300-327 | computes all callbacks of the cycle |
| EventCycle.Worker.WriteOne | libv/src/net/net.c:250-269 | computes one flush, then queues the connection for close or leaves it open |
| EventCycle.Worker.Write | libv/src/net/net.c:250-269 | computes all flushes of the cycle |
| EventCycle.Worker.CloseAll | libv/src/net/net.c:283-297 | frees every queued connection once, in order |
| EventCycle.Worker.Cycle | libv/src/net/net.c:343-370 | computes `EventCycle.CycleOf` on at most `queuesize` events of distinct descriptors; every queue stays within its array, nothing freed is used, and every connection there was is later or ended |
| EventCycle.Worker.Run | libv/src/net/net.c:343-370 | computes `EventCycle.RunOf`; over any run the laws of `EventCycle.Lawful` hold, and opened minus closed callbacks is the size of the map if no insertion fails |
| EventCycle.TableLaws | libv/src/net/net.c:222-327 | between cycles: sent followed by unsent is produced, an empty buffer means all sent, closed connections sent a prefix, everything read was processed |
| CycleRuns.CycleOutcome | libv/src/net/net.c:117-327 | what a cycle does to a connection that has an event: background work is left alone, unsent output is flushed before a pending close, otherwise it is read, its packet answered and the response flushed; after a flush that leaves it open it is marked closed if and only if its poll update failed |
| CycleRuns.Untouched | libv/src/net/net.c:117-192 | a connection without an event, or lost to a failed insertion, is left as it is |
| CycleRuns.SentIsReadNext | libv/src/net/net.c:172-266 | a connection whose output was sent and whose poll update succeeded is read at its next event |
| CycleRuns.CycleOpens | libv/src/net/net.c:124-170 | each new descriptor opens one connection if memory is found, and nothing else does |
| CycleRuns.CycleKeeps | libv/src/net/net.c:343-370 | a cycle keeps the table sound; every connection there was lives on with longer histories or was closed, never in background work |
| CycleRuns.RunKeeps | libv/src/net/net.c:343-370 | over any run histories only grow, no connection is closed twice, and one in background work is neither changed nor closed until that work ends |
| CycleRuns.LostStays | libv/src/net/net.c:117-192 | a connection lost to a failed insertion is untouched by every later cycle and stays lost |
| CycleRuns.LostIffSurvives | libv/src/net/net.c:161-327 | a connection whose insertion failed is lost at the end of its cycle if and only if the outcomes of its read, its callback and its flush leave it open |
| CycleRuns.CountsMapIff | libv/src/net/net.c:161-170 | over every run, opened minus closed callbacks is the size of the map if and only if every connection whose insertion failed was closed in its own cycle |
| CycleRuns.OneEventLeaks | libv/src/net/net.c:168 | one failed insertion breaks that count for good if the read in its cycle would block, and does not if the read ends the stream |
| BufferPool.HashSize | src/storage/buffer/pool.c:19-24 | the least power of two at or above 16 and the product as computed |
| BufferPool.SizingExitsIff | src/storage/buffer/pool.c:19-24 | in 64-bit arithmetic the loop terminates if and only if the product as computed is at most 2^63 |
| BufferPool.ExitsWithLeast | src/storage/buffer/pool.c:19-24 | when the loop stops it has the least power of two that is at least 16 and the product |
| BufferPool.SizedForAllPagesIff | src/storage/buffer/pool.c:19-24 | it terminates with the true product as bound if and only if there are at most 2^62 pages |
| BufferPool.HashIsMod | src/storage/buffer/pool.c:28-31 | for every power of two and every block id, masking is the id modulo the size |

## Left out

- A schema's set of indexes, which nothing fills, and the opaque data table of a table entry are not modelled.
- A catalog set keeps its names in a mathematical map, which is what HashMap.dfy shows the hash map to be; only the scan
  that counts them walks a hash map itself.
- Memory running out inside the storage code is not modelled; most of its allocations go unchecked.
- The worker's queues are sequences with a capacity checked at every push instead of fixed arrays; the packet buffer is
  an array written in place.
- The background work of a connection is a flag that the process callback may set and that may be cleared between
  cycles; nothing in the source starts or ends such work.
- The opened and closed callbacks do not touch a connection's output; the process callback replaces the output buffer,
  as `ev_process` in libv/src/net/conn.c:15-36 does.
- Accepting a connection on the listening socket hands it to another worker's poll set and is not modelled further.
- TableRecord.DecodedWholeIff: is about the record; from 2^31 columns on the writer's `int` index overflows and the
  source has no defined behaviour to model.
- Torn writes of a block or header, and block ids beyond 64-bit file offsets, are excluded.
- CountingAllocator.LiveConservation: assumes that callers do not free or resize a block twice at once and that the
  counted bytes fit 64 bits.
- Memory orderings other than stale relaxed loads of the peak and the live count are not modelled.
- `Slice`, the interface macros, the typed hash functions and comparisons, and the remaining column types of
  `get_internal_type` would only add easy members.
- DataTable, segments, scans, pinning and eviction have no implementation in the repository; the table-data writer has
  no live caller.
- Floating-point distances in the vector operators are outside this model.
