# Verified models of the Monad query index, call traces, archive formats and log queries

This project models, in Dafny 4.11, the parts of the repository that have to stay right across crashes,
encodings and interleavings, and proves what they promise.

* **The query index.** `QueryWriter` appends finalized blocks, gives out ids, and flushes blobs, locations,
  bitmap pages, page statistics, hashes, ranges, a block index and finally the state row. The durable
  tables are maps; every write step may fail after any subset of its rows. The validator is the reader.
  Files `Schema`, `Payload`, `Bitmap`, `Metadata`, `Chain`, `Layout`, `IndexState`, `Consistency`, `Runs`,
  `Reads`, `RowMeaning`, `IndexedRows`, `FlushStages`, `QueryWriter`, `Linking`, `Progress`, `Indexer`,
  `Validation`, `Validator`, `Soundness`, `Acceptance`, `Counterexamples`.
* **Call frames.** One pre-order list seen as a tree with numbered logs, as trace addresses, and as
  ancestor failure flags. Files `CallTree`, `LogOrder`, `TraceAddresses`, `AncestorStatus`, `BlockReader`;
  `Transfers` ties frames to the bits of a crash-consistent index.
* **Archived records.** RLP offsets, tagged storage formats, the transaction index. Files `Rlp`,
  `RlpScanner`, `RlpDecoder`, `StorageFormats`, `TxIndex`.
* **eth_getLogs.** Superset index against scan, and the collector. Files `LogQuery`, `LogCollector`, `LogAnswer`.
* **The failover circuit breaker.** File `CircuitBreaker`.

How the model reads the code:

* A finalized chain and a start block are fixed for a run; blocks handed to the writer come from it, and
  `start_at` is called with its first number. Runs are any sequence of open, crash, start_at, append and
  flush. `Faults` says at which of the eleven write steps the store fails and which of that step's rows
  landed anyway, the state row included (its put may land and still report an error).
* Loops and in-place updates are methods and classes; each is tied by its postcondition to a function
  about which the theorems are proved (`FlushStages.FlushBatch` to `IndexState.FlushDb`, the class
  `QueryWriter` to `IndexState.Exec`, `CallTree.BuildTree` to `CallTree.Build`, `Validator.Validate` to
  `Validation.Passes`, `LogCollector.Collect` to `LogCollector.OutcomeFrom`).
* Tables keyed by (family, key) are one map per family. Hashing, RLP plus zstd of index rows and
  transaction envelopes are the parameter `Codec`; that decoding inverts encoding is assumed
  (`Codec.Lawful`) only where rows are decoded. Archived records are RLP lists, encoded and decoded by the
  model itself; only how a single header, transaction, receipt or the like becomes an RLP item is a
  parameter (`ItemCoder`), assumed to convert back.
* Unchecked 64-bit subtraction of cumulative gas wraps, as in the release profile.
* Partitions hold 1024 rows and bitmap pages span 65536 ids, as in the schema crate.
* Panics of the source (an index out of range, a debug assertion) are failures or proved impossible.

Some results say that the code does less than one might expect, and exactly when:

* An index whose start block is not a multiple of 1024 never passes validation over a range that begins at
  its start block, because the first header's predecessor location does not exist (`Payload.Addressing`,
  `Acceptance.PassesIff`; at a concrete chain in `Counterexamples.UnalignedStartFails`).
* After a flush that failed between its bitmap pages and the state row, validation of the full range fails
  although nothing committed is wrong, exactly when a page of committed rows holds a bit above the frontier
  (`Acceptance.PassesIff`; at a concrete run in `Counterexamples.StaleBitsFail`).
* `BlockStorageRepr::rlp_list_slice` does not strip the V2 tag that `encode_block` writes; on such a buffer the
  offset scanner reports one transaction, the marker byte (`StorageFormats.BlockLib.SliceIff`,
  `StorageFormats.V2OffsetsIff`).
* Rounding makes the extrapolating size limit of eth_getLogs move both ways with the number of items
  (`LogCollector.ExceedsNotMonotone`); before rounding, fewer items make it stricter (`LogCollector.OverFewer`).

## Model

| member | source | states |
|---|---|---|
| `Reads.CrashConsistency` | crates/monad-query-write/src/lib.rs:77-324 | After any run of open, crash, start_at, append and flush, with any flush failing at any write after any subset of its rows, every block the persisted state row admits has its hash, its ranges, resolving ids, readable rows and bits set exactly for its filters (said row by row in IndexedRows) |
| `IndexedRows.HeaderRowSays` | crates/monad-query-schema/src/family/block.rs:40-46 | After any run a committed header stands at its block number, is found by its beneficiary and nothing else, and reads back unless it opens an unaligned index |
| `IndexedRows.TxRowSays` | crates/monad-query-schema/src/family/transaction.rs:31-48 | After any run a committed transaction stands at the count of transactions before it, is found by sender, recipient and selector and nothing else, and reads back |
| `IndexedRows.LogRowSays` | crates/monad-query-schema/src/family/log.rs:31-46 | After any run a committed log stands at the count of logs before it, is found by its address and by each of its first four topics at the topic's own position and nothing else, and reads back |
| `IndexedRows.TraceRowSays` | crates/monad-query-schema/src/family/trace.rs:168-199 | After any run a committed trace stands at the count of traces before it, is found by caller, callee, selector, depth 0 and moved value and nothing else, and reads back |
| `RowMeaning.LogFiltersSay` | crates/monad-query-schema/src/family/log.rs:31-46 | A log's filters are its address and its topics by position |
| `RowMeaning.TxFiltersSay` | crates/monad-query-schema/src/family/transaction.rs:31-48 | A transaction's filters are sender, recipient and selector, and none if it does not decode |
| `RowMeaning.TraceFiltersSay` | crates/monad-query-schema/src/family/trace.rs:168-199 | A trace's filters, one by one |
| `Reads.StateRowExact` | crates/monad-query-write/src/lib.rs:237-241 | After any run the state row, if present, is the start block and the frontiers after exactly the committed blocks |
| `Runs.RunKeeps` | crates/monad-query-write/src/lib.rs:77-324 | The invariant of tables and writer memory holds in every state of every run |
| `Runs.ExecKeeps` | crates/monad-query-write/src/lib.rs:77-324 | Each single operation, whatever the store does, keeps the invariant |
| `Runs.OpenKeeps` | crates/monad-query-write/src/lib.rs:77-112 | In a reachable state opening never reports a missing block hash and yields a writer standing at the persisted frontier |
| `Runs.StartKeeps` | crates/monad-query-write/src/lib.rs:244-256 | start_at with the chain's first block keeps the writer's memory consistent with the tables |
| `Runs.AppendKeeps` | crates/monad-query-write/src/lib.rs:121-144 | Append accepts only the chain's next block, so pending blocks are always a slice of the chain |
| `Linking.RunLinked` | crates/monad-query-write/src/lib.rs:121-144 | In every run, with any blocks offered and any store failures, pending blocks are linked by number and parent hash to each other and to the stored hash of the last committed block |
| `Linking.AppendLinked` | crates/monad-query-write/src/lib.rs:121-144 | A block is taken iff it has the next number and names the newest block as its parent |
| `Progress.CommitsIff` | crates/monad-query-write/src/lib.rs:121-324 | The first k blocks are committed by some run iff each of them decodes, counts its rows in 32 bits, and ends its ids and number within 64 |
| `Progress.Resumes` | crates/monad-query-write/src/lib.rs:77-256 | From whatever a run with any failures has left, reopening, appending the missing blocks and one completed flush commit exactly the wanted number of committable blocks |
| `Progress.RecoversClean` | crates/monad-query-write/src/lib.rs:77-256 | If no earlier flush tried more, such a recovery leaves the very tables of a run whose store never failed |
| `Progress.RunCommits` | crates/monad-query-write/src/lib.rs:258-324 | No run commits a block that does not decode or whose ids do not fit |
| `Progress.FlushMoves` | crates/monad-query-write/src/lib.rs:146-242 | In a reachable state a flush succeeds iff its blocks are committable and the store completes it; the state row moves iff it lands, and then past all pending blocks |
| `QueryWriter.AssignIff` | crates/monad-query-write/src/lib.rs:258-324 | Ranges are assigned to any list of blocks iff every count fits 32 bits and every end 64 |
| `Runs.FlushKeeps` | crates/monad-query-write/src/lib.rs:146-170 | A flush failing anywhere keeps the invariant: memory is unchanged or advanced past the batch, and durable data stays sound |
| `Runs.FlushDbKeeps` | crates/monad-query-write/src/payload.rs:133-165 | In a reachable state a flush's own reads never fail: only an undecodable transaction stops it, and the tables stay consistent whatever the store does |
| `Consistency.FlushKeepsDb` | crates/monad-query-write/src/lib.rs:189-242 | One flush against any store failure keeps every table sound and complete up to the persisted frontier, and advances it exactly when the state row lands |
| `Consistency.AnySubsetLands` | crates/monad-query-write/src/payload.rs:170-170 | A failing put may leave any part of its rows, later puts nothing, earlier ones everything |
| `Runs.DbUnique` | crates/monad-query-write/src/lib.rs:189-242 | With nothing attempted beyond the frontier the contents of every table are determined by the chain |
| `Runs.RecoveredRunsAgree` | crates/monad-query-write/src/lib.rs:146-170 | Two runs, failures included, that committed the same blocks and whose commits cover all attempts leave identical tables |
| `Runs.CleanRun` | crates/monad-query-write/src/lib.rs:146-170 | In a failure-free run nothing is ever attempted beyond what is persisted |
| `Runs.BatchingInvisible` | crates/monad-query-write/src/lib.rs:146-324 | In failure-free runs the final tables do not depend on where flush boundaries fell |
| `Reads.FlushRepairsPages` | crates/monad-query-write/src/bitmap_index.rs:101-168 | Whatever earlier failures left, after a successful flush every page the batch touches holds exactly the committed ids with its filter and its statistics row is its cardinality; for all pages once the frontier covers all attempts |
| `Reads.SettledWhenCovered` | crates/monad-query-write/src/bitmap_index.rs:101-168 | With nothing attempted beyond the frontier every page and every statistics row is exact, and no other exists |
| `Payload.Addressing` | crates/monad-query-write/src/payload.rs:117-190 | The bytes from the previous row's location (0 at a partition start) to the row's own are its encoding, for every committed row except the first of a family that does not start a partition, and that one has no start |
| `Payload.FlushStep` | crates/monad-query-write/src/payload.rs:123-190 | A flush from any earlier frontier, landing in part or in full, keeps blobs and locations sound and complete |
| `Payload.PayloadUnique` | crates/monad-query-write/src/payload.rs:117-190 | Without attempts beyond the frontier blobs and locations are determined by the rows |
| `Payload.GroupByPartition` | crates/monad-query-write/src/payload.rs:117-127 | The rows of a batch are split into one consecutive group per partition |
| `Payload.PrepareAppend` | crates/monad-query-types/src/store/blob/partition.rs:107-131 | Keeps the first committed bytes, appends the items and returns their running ends; fails if the blob is shorter than what is committed |
| `Payload.FlushPartition` | crates/monad-query-write/src/payload.rs:129-190 | One partition: the committed end comes from the location of the committed id if that is in the partition, else 0; the new blob and locations are those of the specification |
| `Payload.FlushFamily` | crates/monad-query-write/src/payload.rs:59-190 | All partitions of one family produce exactly the specified blob and location rows, or fail exactly when some committed location or byte is missing |
| `FlushStages.PutBatch` | crates/monad-query-write/src/payload.rs:170-170 | A batch put that fails leaves any subset of its rows |
| `FlushStages.CollectRows` | crates/monad-query-write/src/payload.rs:60-108 | The rows collected from a batch are the chain's row stream from the batch's first id |
| `FlushStages.PutBlobs` | crates/monad-query-write/src/payload.rs:59-170 | Families are written in order, each only after the one before succeeded |
| `FlushStages.PayloadStage` | crates/monad-query-write/src/payload.rs:47-205 | Blobs of all families, then locations, as the flush specification says for every failure |
| `Bitmap.TrimRepairs` | crates/monad-query-write/src/bitmap_index.rs:129-143 | Trimming the stored page at the committed id leaves exactly the bits of rows below it |
| `Bitmap.PageRowExact` | crates/monad-query-write/src/bitmap_index.rs:129-145 | The row written for a page is its exact content below the new frontier, whatever was stored above the old one |
| `Bitmap.FlushStep` | crates/monad-query-write/src/bitmap_index.rs:101-201 | A bitmap flush landing in part or in full keeps pages sound and complete; in full, every touched page is exact with its statistics |
| `Bitmap.BitmapUnique` | crates/monad-query-write/src/bitmap_index.rs:101-201 | Without attempts beyond the frontier pages and statistics are determined by the rows |
| `Bitmap.AddRow` | crates/monad-query-write/src/bitmap_index.rs:52-62 | Adding a row sets its bit in the page of each of its filters and changes nothing else |
| `Bitmap.UpdatePage` | crates/monad-query-write/src/bitmap_index.rs:129-143 | One page: nothing kept at or after the committed id, the batch's bits added |
| `Bitmap.PageUpdates` | crates/monad-query-write/src/bitmap_index.rs:101-184 | Every touched page gets a row and a statistics row, and no other page does |
| `FlushStages.AccumulatePages` | crates/monad-query-write/src/bitmap_index.rs:50-97 | The accumulated pages hold exactly the bits of the batch, every family at its assigned ids; fails iff some envelope does not decode |
| `FlushStages.AddTx` | crates/monad-query-write/src/bitmap_index.rs:73-94 | One transaction adds its own row, its logs and its traces at the running ids |
| `FlushStages.BitmapStage` | crates/monad-query-write/src/bitmap_index.rs:41-203 | Pages, then statistics, as the flush specification says for every failure |
| `Metadata.LookupResolves` | crates/monad-query-write/src/metadata.rs:56-96 | The greatest index key at most an id leads to the one block whose range holds the id, with empty blocks anywhere |
| `Metadata.Flush` | crates/monad-query-write/src/metadata.rs:50-97 | The rows of the three metadata tables: hash and ranges of every block, index rows only for non-empty ranges |
| `Metadata.AddBlock` | crates/monad-query-write/src/metadata.rs:66-96 | One block adds one range per family and an index row for each non-empty one |
| `Metadata.HashStep` | crates/monad-query-write/src/metadata.rs:59-64 | Hash rows landing in part or in full keep the hash table true |
| `Metadata.RangeStep` | crates/monad-query-write/src/metadata.rs:67-83 | Range rows landing in part or in full keep the range table true |
| `Metadata.IndexStep` | crates/monad-query-write/src/metadata.rs:85-95 | Index rows landing in part or in full keep the block index true |
| `Metadata.IndexUnique` | crates/monad-query-write/src/metadata.rs:85-95 | Without attempts beyond the frontier the block index is determined by the ranges |
| `FlushStages.MetadataStage` | crates/monad-query-write/src/metadata.rs:40-133 | Hashes, then ranges, then index, as the flush specification says for every failure |
| `FlushStages.FlushBatch` | crates/monad-query-write/src/lib.rs:189-242 | The four stages in order leave exactly the specified tables, and succeed exactly when no step failed |
| `QueryWriter.QueryWriter.Open` | crates/monad-query-write/src/lib.rs:77-112 | Opens at the stored state with the last block's hash, or fails iff that hash is missing |
| `QueryWriter.QueryWriter.NextBlockNumber` | crates/monad-query-write/src/lib.rs:114-119 | The next block plus the number of pending ones, or none exactly when that does not fit 64 bits |
| `QueryWriter.QueryWriter.StartAt` | crates/monad-query-write/src/lib.rs:244-256 | Sets start and next block on an untouched writer only |
| `QueryWriter.QueryWriter.Append` | crates/monad-query-write/src/lib.rs:121-144 | Takes exactly the block with the next number whose parent is the newest block |
| `QueryWriter.QueryWriter.PrepareFlush` | crates/monad-query-write/src/lib.rs:258-324 | Assigns consecutive ranges to the pending blocks and takes them iff there are any and all counts, ids and the next number fit; otherwise changes nothing |
| `QueryWriter.QueryWriter.Flush` | crates/monad-query-write/src/lib.rs:146-170 | Tables and memory are those of the specification; a failed flush leaves pending, state and last hash unchanged |
| `QueryWriter.AssignRanges` | crates/monad-query-write/src/lib.rs:263-303 | The loop gives every pending block its ranges, or reports an overflow exactly when some count or end does not fit |
| `QueryWriter.PreparedConsecutive` | crates/monad-query-write/src/lib.rs:277-322 | The ranges of a prepared batch are consecutive in every family and match the rows of the blocks |
| `QueryWriter.CountRows` | crates/monad-query-write/src/lib.rs:278-280 | Summing per transaction gives the number of rows of the block |
| `Indexer.AppendAll` | crates/monad-query-cli/src/index/mod.rs:147-165 | Appending with flushes in between keeps the index consistent and counts on correctly |
| `Indexer.IndexRange` | crates/monad-query-cli/src/index/mod.rs:108-174 | For any fetch size, flush interval and store failures the index stays consistent; on return everything up to the latest block is committed and, unless more had been attempted before, the tables are exact |
| `Validator.Validate` | crates/monad-query-cli/src/validate/mod.rs:101-292 | Refuses exactly an empty index or an inverted range, stops exactly when interrupted, and otherwise passes exactly when every block of the range is valid, frontiers agree at the end, over the full range every page called for is exact, and the state row read at the end has the same counters |
| `Validator.Finish` | crates/monad-query-cli/src/validate/mod.rs:262-291 | The checks after the blocks: exact pages over the full range, unchanged counters, frontiers |
| `Soundness.PassedBlock` | crates/monad-query-cli/src/validate/mod.rs:180-260 | If a range passes, whatever wrote the tables, every block has its hash, follows on, is found by seek_le at its own first id, and every row reads, decodes, matches the hash (headers) and has the bit of every filter it calls for |
| `Soundness.PassedContiguous` | crates/monad-query-cli/src/validate/mod.rs:197-213 | Inside a passed range the ranges of a family follow one another without gaps |
| `Soundness.PassedFrontiers` | crates/monad-query-cli/src/validate/mod.rs:279-286 | A passed range up to the last indexed block ends at the frontiers of the state row |
| `Soundness.PassedExact` | crates/monad-query-cli/src/validate/mod.rs:521-555 | If the full range passes, each bit of a page some row calls for belongs to a row of the range that calls for its filter |
| `Validator.ValidateBlock` | crates/monad-query-cli/src/validate/mod.rs:180-260 | Counts no issue exactly when the block has its hash and each family is valid |
| `Validator.ValidateFamily` | crates/monad-query-cli/src/validate/mod.rs:197-256 | Counts no issue exactly when the range is there, contiguous, indexed, and its payload valid |
| `Validator.SeekIndex` | crates/monad-query-cli/src/validate/mod.rs:214-232 | Accepts iff the greatest key at most the range's first id is that id and leads to this block |
| `Validator.ValidatePayload` | crates/monad-query-cli/src/validate/mod.rs:294-414 | Accepts exactly rows that can be located, decoded, match the hash (headers) and have all their bits; grows the expected pages by those rows |
| `Validator.ReadBytes` | crates/monad-query-cli/src/validate/mod.rs:340-382 | Locates a row by its own and the preceding location |
| `Validator.FiltersOf` | crates/monad-query-cli/src/validate/mod.rs:425-463 | Filters of a block's rows, traces with ancestor status over the whole block |
| `Validator.ValidateMembership` | crates/monad-query-cli/src/validate/mod.rs:416-519 | Accepts exactly when every filter of every row has its bit, its page and its statistics; the expected pages grow by those bits and every one of them is cached |
| `Validator.CheckRow` | crates/monad-query-cli/src/validate/mod.rs:467-516 | Accepts a row exactly when every filter of it has its bit, its page and its statistics |
| `Validator.ValidateBitmapExact` | crates/monad-query-cli/src/validate/mod.rs:521-555 | Accepts exactly when every expected page was loaded and equals its bits |
| `Acceptance.PassesIff` | crates/monad-query-cli/src/validate/mod.rs:101-555 | The tables of a reachable state pass over a range of committed blocks iff the range does not begin with an unaligned start block and, when it is the full range, no failed flush left a bit at or above the frontier in a page of committed rows |
| `Acceptance.EveryRunPassesIff` | crates/monad-query-cli/src/validate/mod.rs:101-555 | So for every run, whatever failed in it |
| `Acceptance.PagesIff` | crates/monad-query-cli/src/validate/mod.rs:521-555 | The exact page comparison over the full range passes iff no page of committed rows holds a bit at or above the frontier |
| `Acceptance.RecoveredIndexPasses` | crates/monad-query-cli/src/validate/mod.rs:101-555 | For runs whose commits cover all attempts only the alignment counts |
| `Acceptance.FailureFreeIndexPasses` | crates/monad-query-cli/src/validate/mod.rs:101-555 | So for every failure-free run |
| `Counterexamples.FailedFlushLeavesBits` | crates/monad-query-write/src/bitmap_index.rs:191-201 | A flush stopping after its pages and before the state row leaves a bit above the frontier in every page of committed rows it touches beyond it |
| `Counterexamples.UnalignedStartFails` | crates/monad-query-cli/src/validate/mod.rs:340-358 | An index started at block 1, with one block and no failure, does not pass |
| `Counterexamples.StaleBitsFail` | crates/monad-query-cli/src/validate/mod.rs:521-555 | After one committed block and one flush failing after its pages the full range does not pass |
| `Acceptance.TagsOfBlock` | crates/monad-query-cli/src/validate/mod.rs:425-463 | Filters recomputed from a block's decoded rows are the filters the writer indexed, traces of all transactions together |
| `CallTree.BuildTree` | crates/monad-rpc/src/handlers/debug.rs:727-750 | The stack pass builds the tree obtained by inserting the frames one by one |
| `CallTree.Complete` | crates/monad-rpc/src/handlers/debug.rs:740-745 | Closing open frames does not change the tree and leaves only shallower frames open |
| `CallTree.PreorderOfBuild` | crates/monad-rpc/src/handlers/debug.rs:726-750 | For every frame list, whatever its depths, pre-order flattening of the tree gives the list back |
| `CallTree.ParentsOfBuild` | crates/monad-rpc/src/handlers/debug.rs:740-745 | Every frame but the root hangs below the nearest earlier non-root frame of strictly smaller depth, or the root |
| `LogOrder.ExtendLogs` | crates/monad-rpc/src/handlers/debug.rs:752-768 | The recursive pass lists the logs in the specified order |
| `LogOrder.EmitList` | crates/monad-rpc/src/handlers/debug.rs:752-768 | The order lists every log of the tree exactly once |
| `LogOrder.NumberLogs` | crates/monad-rpc/src/handlers/debug.rs:770-775 | Each log is numbered by its place in the order |
| `LogOrder.NumbersBijective` | crates/monad-rpc/src/handlers/debug.rs:770-775 | The numbers are a bijection between the tree's logs and 0..n-1 |
| `LogOrder.NumbersWithinFrame` | crates/monad-rpc/src/handlers/debug.rs:756-768 | Within any frame the numbers increase |
| `LogOrder.NumbersAgainstChild` | crates/monad-rpc/src/handlers/debug.rs:758-766 | A frame's k-th log comes before all logs below child c iff the highest position up to k is at most c, else after all of them |
| `LogOrder.BuildCallTree` | crates/monad-rpc/src/handlers/debug.rs:726-778 | The tree's frames are the input list in pre-order below the nearest earlier shallower frame, and log k of frame i is the input's with its emission number; none iff the list is empty |
| `LogOrder.TopCall` | crates/monad-rpc/src/handlers/debug.rs:647-663 | The only-top-call path returns the root alone, each of its logs carrying its number in the full trace |
| `LogOrder.NumberedParents` | crates/monad-rpc/src/handlers/debug.rs:770-775 | Numbering moves no frame to another parent |
| `TraceAddresses.ComputeTraceAddresses` | crates/monad-query-cli/src/index/mod.rs:314-363 | Returns the address of every frame, or fails iff the list does not start at depth 0 or skips a level |
| `TraceAddresses.AddressesExist` | crates/monad-query-cli/src/index/mod.rs:338-347 | Addresses exist iff the list starts at depth 0 and skips no level |
| `TraceAddresses.TwoViewsAgree` | crates/monad-query-cli/src/index/mod.rs:314-363 | With one root and no skipped level, following a frame's address through the children of the built tree reaches that frame |
| `TraceAddresses.AddressesDistinct` | crates/monad-query-cli/src/index/mod.rs:349-359 | Under one root no two frames share an address |
| `TraceAddresses.PrefixClosed` | crates/monad-query-cli/src/index/mod.rs:349-359 | Every prefix of an address is the address of an earlier frame or of the frame itself |
| `TraceAddresses.AncestorsByAddress` | crates/monad-query-cli/src/index/mod.rs:314-363 | Under one root a frame's ancestors are the frames at proper prefixes of its address |
| `TraceAddresses.AncestorReverted` | crates/monad-query-schema/src/family/trace.rs:135-165 | The flag is set iff some proper ancestor of the same transaction has nonzero status |
| `TraceAddresses.AncestorRevertedByAddress` | crates/monad-query-schema/src/family/trace.rs:135-165 | Under one root: iff a trace at a proper prefix of its address has nonzero status |
| `AncestorStatus.FromTraces` | crates/monad-query-schema/src/family/trace.rs:135-165 | The one-pass stacks per transaction compute every trace's flag |
| `AncestorStatus.Visit` | crates/monad-query-schema/src/family/trace.rs:142-160 | One trace reads its parent's flag and replaces the stack from its depth on |
| `AncestorStatus.BlockRunIsPerTransaction` | crates/monad-query-schema/src/family/trace.rs:135-165 | Running over a whole block equals concatenating the runs of its transactions |
| `BlockReader.ReadFinalizedBlock` | crates/monad-query-cli/src/index/mod.rs:176-312 | Assembles the block iff counts agree, indices fit 32 bits and every transaction's frames have addresses and fit their widths; log j carries the transaction's index, j, and its address, topics and data |
| `BlockReader.AssembleTraces` | crates/monad-query-cli/src/index/mod.rs:206-268 | Traces are the frames in order with computed addresses and the transaction's index and status; fails iff a level is skipped or a depth, gas or status does not fit |
| `BlockReader.FlagsOfAssembledBlock` | crates/monad-query-cli/src/index/mod.rs:206-268 | In an assembled block the flag, over the block or the transaction, says whether a proper ancestor frame failed |
| `Transfers.TraceBitsSay` | crates/monad-query-schema/src/family/trace.rs:168-199 | After any run, failures included, a committed trace's transfer bit is set iff its frame can transfer, it and its transaction succeeded and no ancestor frame failed; its top-level bit iff its depth is 0 |
| `Transfers.FiltersSay` | crates/monad-query-schema/src/family/trace.rs:168-199 | The transfer and top-level filters of an assembled trace, in terms of the archived frames |
| `RlpScanner.DecodeUint` | crates/monad-archive/src/rlp_offset_scanner.rs:70-89 | Big-endian value; rejects empty input, leading zeros and overflow |
| `RlpScanner.DecodeLength` | crates/monad-archive/src/rlp_offset_scanner.rs:29-67 | Payload and total length by prefix byte |
| `RlpScanner.LengthOfEncoding` | crates/monad-archive/src/rlp_offset_scanner.rs:29-67 | At any encoding per Appendix B of the Yellow Paper, short or long, the lengths read are its own |
| `RlpScanner.GetListRanges` | crates/monad-archive/src/rlp_offset_scanner.rs:123-145 | The scan of a list from its prefix on |
| `RlpScanner.GetTransactionRanges` | crates/monad-archive/src/rlp_offset_scanner.rs:93-120 | The scan of the list after a block's header |
| `RlpScanner.GetAllTxOffsets` | crates/monad-archive/src/rlp_offset_scanner.rs:149-209 | The three scans, rebased and zipped, or failure (what they hold is in the two lemmas about it) |
| `RlpScanner.ListScanned` | crates/monad-archive/src/rlp_offset_scanner.rs:123-145 | For every encoded list: one range per item, the ranges tile the payload, and their slices are the items' encodings |
| `RlpScanner.BlockScanned` | crates/monad-archive/src/rlp_offset_scanner.rs:93-120 | For every encoded block the ranges are the encodings of its transactions |
| `RlpScanner.OffsetsAreTransactionRanges` | crates/monad-archive/src/rlp_offset_scanner.rs:149-209 | Whenever all offsets are found, on any bytes, those of transaction i are the i-th ranges of get_transaction_ranges, of the receipts and of the traces |
| `RlpScanner.OffsetsOfEncodings` | crates/monad-archive/src/rlp_offset_scanner.rs:149-209 | For encoded data offsets are found iff the three lists have equally many items, and entry i holds the i-th transaction, receipt and trace |
| `Rlp.BigEndianInverts` | crates/monad-archive/src/rlp_offset_scanner.rs:70-89 | Big-endian lengths decode to themselves and have no leading zero |
| `Rlp.FirstByte` | crates/monad-archive/src/model/block_data_archive.rs:380-398 | The first byte of an encoding is at least 0xc0 iff it is a list |
| `RlpDecoder.DecodesEncoding` | crates/monad-archive/src/model/block_data_archive.rs:383-398 | At any encoding per Appendix B the decoder reads the item that was encoded |
| `RlpDecoder.OnlyEncodings` | crates/monad-archive/src/model/block_data_archive.rs:383-398 | Whatever the decoder accepts is the encoding of what it returns |
| `RlpDecoder.FieldsIff` | crates/monad-archive/src/model/block_data_archive.rs:383-398 | A buffer decodes to a list of given fields iff it starts with that list's encoding |
| `RlpDecoder.ListOpens` | crates/monad-archive/src/model/block_data_archive.rs:346-349 | Only a first byte of 0xc0 or more opens a list, so the sentinels 50, 55 and 88 never do |
| `StorageFormats.Format.RoundTrip` | crates/monad-archive/src/model/block_data_archive.rs:351-412 | In any format with a sentinel below 0xc0 decoding inverts tagged encoding for every version |
| `StorageFormats.Format.LegacyRead` | crates/monad-archive/src/model/index_repr.rs:131-134 | A raw list of version 0 is not taken for a tagged buffer and reads back as it was |
| `StorageFormats.Format.RetryNeverAccepts` | crates/monad-archive/src/model/index_repr.rs:135-147 | No buffer can be read both tagged and raw, so the retry never accepts what the first attempt refused |
| `StorageFormats.BlockLib.LayoutLawful` | crates/monad-archive/src/model/block_data_archive.rs:345-398 | The block format satisfies what the format lemmas need, given that single headers, transactions, ommers and withdrawals decode back |
| `StorageFormats.BlockLib.ReadsBack` | crates/monad-archive/src/model/block_data_archive.rs:375-454 | A stored block of any version, or a raw one, reads back with its header, ommers, transactions and withdrawals, senders recovered for raw ones; it is refused only if a raw signature cannot be recovered |
| `StorageFormats.BlockLib.TagBytes` | crates/monad-archive/src/model/block_data_archive.rs:345-372 | The tag is 55 and 0, 1 or 2 |
| `StorageFormats.BlockLib.SliceIff` | crates/monad-archive/src/model/block_data_archive.rs:456-466 | The offset slice is what the decoder reads iff the buffer is not tagged V2 |
| `StorageFormats.BlockLib.OffsetsOfStored` | crates/monad-archive/src/model/block_data_archive.rs:149-154 | For raw, V0 and V1 blocks the offset scan finds one range per transaction, each holding its encoding |
| `StorageFormats.V2OffsetsIff` | crates/monad-archive/src/model/block_data_archive.rs:149-154 | For a V2 block offsets are found iff there is one receipt and one trace, and then they point at the marker byte |
| `StorageFormats.ReceiptLib.ReadsBack` | crates/monad-archive/src/model/block_data_archive.rs:493-552 | Stored receipts of either version, and every raw list including the empty one, read back in order, raw ones with the number of logs before each |
| `StorageFormats.ReceiptLib.TagBytes` | crates/monad-archive/src/model/block_data_archive.rs:469-491 | The tag is 88 and 0 or 1 |
| `StorageFormats.ReceiptLib.SliceAgrees` | crates/monad-archive/src/model/block_data_archive.rs:555-565 | For receipts the slice strips exactly the decoder's tag |
| `StorageFormats.ReceiptLib.OffsetsOfStored` | crates/monad-archive/src/model/block_data_archive.rs:149-154 | The offset scan finds one range per receipt, each holding its encoding |
| `StorageFormats.NumberReceipts` | crates/monad-archive/src/model/block_data_archive.rs:537-550 | The running count gives each receipt the number of logs before it |
| `StorageFormats.LogNumbersTile` | crates/monad-archive/src/model/block_data_archive.rs:537-550 | Log numbers of different receipts never meet, and consecutive receipts join without a gap |
| `TxIndex.IndexLib.ReadsBack` | crates/monad-archive/src/model/index_repr.rs:92-148 | An index record of any variant, and a raw old one, decodes to itself |
| `TxIndex.IndexLib.TagBytes` | crates/monad-archive/src/model/index_repr.rs:74-110 | The tag is 50 and 0, 1 or 2 |
| `TxIndex.IndexLib.OldConverts` | crates/monad-archive/src/model/index_repr.rs:152-174 | An old record resolves iff its block is archived, its sender recoverable and its index in range, to its own fields with the archived receipt and timestamp |
| `TxIndex.IndexLib.Projections` | crates/monad-archive/src/model/index_repr.rs:200-289 | get_receipt, get_trace and (when the archive holds the record's transaction) get_tx are projections of the converted record |
| `TxIndex.IndexBlock` | crates/monad-archive/src/model/tx_index_archive.rs:211-283 | Fails iff the counts differ or a row cannot be encoded; otherwise stored rows stay, every transaction has a row and every new row is one of the block's |
| `TxIndex.PutRows` | crates/monad-archive/src/kvstore/mod.rs:125-141 | Puts without clobbering leave what index_block promises |
| `TxIndex.EncodeRow` | crates/monad-archive/src/model/tx_index_archive.rs:250-276 | Inline if short enough, otherwise a reference |
| `TxIndex.RowReadsBack` | crates/monad-archive/src/model/index_repr.rs:150-198 | With the block archived, a row resolves to the record, inline or by reference |
| `TxIndex.LookupAfter` | crates/monad-archive/src/model/tx_index_archive.rs:117-123 | After index_block a lookup by transaction hash finds what was stored before, or else the transaction, trace, receipt, block hash, number, timestamp, base fee, index and gas of the block |
| `TxIndex.RowSays` | crates/monad-archive/src/model/tx_index_archive.rs:249-276 | A stored row is the whole record in at most the inline limit or, iff the record is longer, a reference with the same header data and the transaction's own byte offsets |
| `TxIndex.ThresholdInvisible` | crates/monad-archive/src/model/tx_index_archive.rs:211-283 | After indexing the same block into the same store, indexers that differ only in their inline threshold answer every lookup alike |
| `TxIndex.GasConserved` | crates/monad-archive/src/model/tx_index_archive.rs:235-247 | Gas used over a block sums to the last cumulative value plus 2^64 for every drop of cumulative gas |
| `TxIndex.GasConservedIff` | crates/monad-archive/src/model/tx_index_archive.rs:235-247 | It is the last cumulative value iff cumulative gas never drops |
| `TxIndex.MapBlockReceipts` | crates/monad-rpc/src/data/mod.rs:1437-1476 | The whole-block path reports the same gas used |
| `TxIndex.ReceiptGas` | crates/monad-rpc/src/data/mod.rs:1572-1590 | The single-receipt path reports the same gas used |
| `TxIndex.GasAgrees` | crates/monad-rpc/src/data/mod.rs:1437-1590 | The gas in the index record is the gas of both receipt paths |
| `LogQuery.BuildQuery` | crates/monad-archive/src/model/logs_index.rs:152-178 | The query has a condition for the addresses if there are any and for every non-empty topic |
| `LogQuery.Superset` | crates/monad-archive/src/model/logs_index.rs:142-178 | A transaction with a matching log is always selected |
| `LogQuery.GroupByBlock` | crates/monad-rpc/src/data/mod.rs:1188-1228 | On an answer sorted by block with distinct transaction indices no assertion fires; the groups are the blocks in order, receipts by transaction index |
| `LogQuery.IndexedIsScan` | crates/monad-rpc/src/data/mod.rs:1137-1252 | Prefix matching, grouping and exact filtering give the same logs in the same order as filtering every receipt |
| `LogQuery.BloomIsScan` | crates/monad-rpc/src/data/mod.rs:1065-1074 | A bloom filter without false negatives leaves nothing out of the scan |
| `LogCollector.Collect` | crates/monad-rpc/src/data/mod.rs:921-1009 | The outcome is that of the first item that is out of order, out of range or too large, or the whole response |
| `LogCollector.CollectsIff` | crates/monad-rpc/src/data/mod.rs:938-1006 | On a sorted stream inside the range the order and range checks never fire: the whole stream is returned iff no prefix exceeds or extrapolates beyond the limit |
| `LogCollector.OutcomeSays` | crates/monad-rpc/src/data/mod.rs:938-1006 | On any stream the first item that is not after its predecessor, is beyond the range's count or makes the response too large decides the outcome, in this order of checks |
| `LogCollector.AcceptedIff` | crates/monad-rpc/src/data/mod.rs:938-1006 | A response is returned iff the stream ends without an error and every item passes the three checks |
| `LogCollector.AcceptedWithinLimit` | crates/monad-rpc/src/data/mod.rs:979-986 | An accepted response is the concatenation of the stream and within the limit |
| `LogCollector.SizeOfOne` | crates/monad-rpc/src/data/mod.rs:979-982 | The size of a single log is its own |
| `LogCollector.SizeOfAppend` | crates/monad-rpc/src/data/mod.rs:979-982 | Sizes add up |
| `LogCollector.LimitBounds` | crates/monad-rpc/src/data/mod.rs:995-998 | The extrapolation limit stays between max and 2 * max, so the subtraction cannot underflow |
| `LogCollector.LastBlockExact` | crates/monad-rpc/src/data/mod.rs:988-1002 | At the last block of the range a response is rejected iff it is above the plain limit |
| `LogCollector.IndexedAnswerIsScanned` | crates/monad-rpc/src/data/mod.rs:921-1252 | Whenever the indexed and the bloom-filtered scanned path both answer, the answers are equal; neither can fail but for size |
| `LogAnswer.AnswersAreExact` | crates/monad-rpc/src/data/mod.rs:921-1252 | What either path answers is exactly the matching logs of the range, each once, by block, transaction and log index |
| `LogAnswer.ScanLists` | crates/monad-rpc/src/data/mod.rs:1011-1031 | The scan lists exactly the matching logs in chain order |
| `LogAnswer.MatchesWanted` | crates/monad-rpc/src/data/mod.rs:1011-1031 | A log is kept iff its address is one of those named, if any, and it has a named topic at every position that names some |
| `LogCollector.PathsBySize` | crates/monad-rpc/src/data/mod.rs:979-1002 | A response above the limit stops both paths, one below 4 MiB stops neither, and with fewer than 100 selected blocks only the plain limit stops the indexed path |
| `LogCollector.FewerItemsRejectMore` | crates/monad-rpc/src/data/mod.rs:988-1002 | Having read a block the indexed path has the scan's size and at most as many items, so it is above the exact limit wherever the scan rejects, and rejects itself once beyond rounding |
| `LogCollector.OverFewer` | crates/monad-rpc/src/data/mod.rs:990-1002 | For the same size the exact extrapolation test is easier to fail with fewer items |
| `LogCollector.RejectedIsOver` | crates/monad-rpc/src/data/mod.rs:990-1002 | A rejection by extrapolation means the exact ratio is above the limit |
| `LogCollector.FarOverIsRejected` | crates/monad-rpc/src/data/mod.rs:990-1002 | Being above the exact limit by more than two means a rejection |
| `LogCollector.ExceedsNotMonotone` | crates/monad-rpc/src/data/mod.rs:990-1002 | A size and a range for which 28300 items pass and 28301 do not |
| `CircuitBreaker.CircuitBreaker.ReadSection` | crates/monad-archive/src/failover_circuit_breaker.rs:72-100 | The read section's decision |
| `CircuitBreaker.CircuitBreaker.WriteSection` | crates/monad-archive/src/failover_circuit_breaker.rs:82-87 | The write section turns an open breaker half-open only |
| `CircuitBreaker.CircuitBreaker.RecordSuccess` | crates/monad-archive/src/failover_circuit_breaker.rs:103-121 | A success resets the count, and closes a half-open breaker |
| `CircuitBreaker.CircuitBreaker.RecordFailure` | crates/monad-archive/src/failover_circuit_breaker.rs:124-149 | A failure is counted, opens at the threshold, and reopens a half-open breaker |
| `CircuitBreaker.CircuitBreaker.Execute` | crates/monad-archive/src/failover_circuit_breaker.rs:205-235 | With a fallback an error means the fallback erred |
| `CircuitBreaker.EveryInterleaving` | crates/monad-archive/src/failover_circuit_breaker.rs:72-149 | In every state of every interleaving the count is the failures since the last recorded success, the opening time is set iff not closed, and closed means a count of 0 or below the threshold |
| `CircuitBreaker.OpensAtThreshold` | crates/monad-archive/src/failover_circuit_breaker.rs:124-141 | Under every interleaving a closed breaker opens exactly when a recorded failure makes the streak reach the threshold |
| `CircuitBreaker.BelowThreshold` | crates/monad-archive/src/failover_circuit_breaker.rs:72-149 | As long as no streak has reached the threshold the breaker is closed and calls try the primary |
| `CircuitBreaker.FailsOnlyByFallback` | crates/monad-archive/src/failover_circuit_breaker.rs:205-235 | Under every interleaving a call fails only after its own fallback answered with an error |
| `CircuitBreaker.SucceedsOnlyByAnswer` | crates/monad-archive/src/failover_circuit_breaker.rs:205-235 | Under every interleaving a call succeeds only by an answer of one of its sources |
| `CircuitBreaker.OpenLeavesByProbe` | crates/monad-archive/src/failover_circuit_breaker.rs:72-149 | An open breaker leaves that state only through a probe's write section |
| `CircuitBreaker.WindowStays` | crates/monad-archive/src/failover_circuit_breaker.rs:143-147 | Answers arriving while the breaker is open do not move its recovery window |
| `CircuitBreaker.RecoveryWindow` | crates/monad-archive/src/failover_circuit_breaker.rs:72-100 | Of calls that do not overlap, every one within the recovery window uses the fallback and changes nothing |
| `CircuitBreaker.AfterWindow` | crates/monad-archive/src/failover_circuit_breaker.rs:72-149 | The first call after the window tries the primary, whose answer closes or reopens the breaker |

## Left out

- Stores and clients (S3, DynamoDB, Mongo, SQLite, RocksDB, files), retries and rate limits: a store is a map with per-key puts; reads do not fail.
- Concurrency of the writer: one writer at a time; `put_batch` rows of one step have distinct keys and land in any subset.
- 64-bit exhaustion of ids, page ends and offsets, except where `prepare_flush`, `next_block_number` and the RLP scanner check it themselves.
- Key encodings of tables, and the byte formats inside records (call frame, trace, log and header codecs): records are values, encodings of single parts are parameters.
- Validator.Validate: the tables other than the state row do not change during validation; progress output and the statistics warning are not modelled; metadata is read block by block, not 64 at a time; rows are read one by one, not grouped by partition.
- Validator.ValidateMembership: a page row carries no bounds of its own, because the writer always stores those of its key, so the bounds check of the source always holds.
- Validator.CheckRow: the same; page bounds are those of the key.
- FlushStages.PutBatch: does not model the order of rows within a batch, because any subset may land.
- Indexer.IndexRange: polling for new blocks and fetch concurrency; the reader is a function of the block number.
- BlockReader.ReadFinalizedBlock: value and output of a frame are carried by one opaque field.
- TraceAddresses.TwoViewsAgree: for lists with several depth-0 frames addresses repeat, so only the depth-based `AncestorReverted` is stated for them.
- LogOrder.BuildCallTree: conversion of frame fields, the with_log checks and the lookup of contract code for empty outputs.
- RlpScanner.DecodeLength: a total length that does not fit 64 bits, where the source's unchecked addition would wrap or panic, is a failure here.
- RlpScanner.ListScanned: malformed lists beyond the scanner's own errors; a read past the end, which panics in the source, is a failure here.
- StorageFormats.BlockLib.ReadsBack: the fields inside a header or a transaction are opaque; signature recovery is a function that may fail; nothing longer than the address space is encoded.
- TxIndex.ThresholdInvisible: assumes that the transactions of a block have distinct hashes, because with unordered puts either of two equal keys may win.
- LogQuery.IndexedIsScan: bloom filters are an assumption (`NoFalseNegatives`), not computed; logs are already decorated with block and transaction data, which both paths take from the same records.
- LogCollector.Collect: 64-bit overflow of the summed size.
- CircuitBreaker.RecoveryWindow: not claimed for overlapping calls, where a stale read may turn a breaker half-open early; lock poisoning and metrics are not modelled.
- HTTP handlers, dispatch, middleware, metrics, configuration and terminal output.
