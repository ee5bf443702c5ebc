# ethrex core: trie-node records, state healing, log filtering

A Dafny model of three parts of the ethrex Ethereum client, each with its
properties proved.

- **Trie-node persistence codec** (`crates/common/trie/rlp.rs`). A trie node
  is stored as one tag byte (0 = branch, 1 = extension, 2 = leaf) followed by
  the variant's fields as a Recursive Length Prefix list. RLP is defined in
  Appendix B of the Ethereum Yellow Paper. Decoding reads the tag, dispatches
  on it and rebuilds every child as a hash reference. Modules `Rlp` (a minimal
  RLP codec with the field-by-field list decoder) and `TrieCodec`.
- **State-trie healing** (`crates/networking/p2p/sync/state_healing.rs`).
  `heal_state_trie` runs a work queue of trie paths. The queue is seeded from
  the persisted checkpoint plus the root path. Each round drains up to
  `MAX_PARALLEL_FETCHES` slices of at most `NODE_BATCH_SIZE` paths and runs
  `heal_state_batch` on each. A round merges the returned paths back and stops
  when the queue is empty or the pivot went stale. `heal_state_batch`:
  - pairs each fetched node with the front path;
  - queues the node's missing children;
  - checks each leaf's 32-byte key;
  - raises storage and bytecode work;
  - writes the nodes that have a standalone hash.

  Module `HealingSpec` describes one batch's walk over the fetched nodes as
  values. Module `HealingRun` describes a whole run as values: a batch
  against the world the earlier batches left, a round, the draining and
  merging of the queue, and the round loop. The world is the peers'
  remaining answers, the request log, the trie table, the storage heal queue
  and the bytecode messages. The laws of healing are proved about these
  functions. Module `StateHealing` holds the store, the peers and the
  bytecode channel as classes. Its methods are proved to compute exactly
  what `HealingRun` describes.
- **Log filtering for `eth_getLogs`** (`crates/networking/rpc/eth/logs.rs`).
  `LogsFilter::parse` checks the parameter shape. `fetch_logs_with_filter`
  works in three steps:
  1. it resolves and checks the block range;
  2. it walks blocks, transactions and the logs of succeeded receipts,
     numbering logs per block and keeping those from the wanted addresses;
  3. it applies the positional topic filter.

  Module `Logs` holds both the walk as specification functions and the
  nested loops as methods proved equal to them.

Collaborators whose code lies elsewhere are parameters:
- `compute_hash` of a node (`hashOf`);
- `node_missing_children`;
- `Nibbles::to_bytes`;
- `AccountState::decode`;
- `BlockIdentifier::parse` and `resolve_block_number`;
- the serde decoding of address and topic filters;
- the transaction and header hashes (given as values in the chain).

The peer layer is the finite sequence of answers it will give. The store is
a class holding maps and sets. The chain that the log endpoint reads is a
value of maps.

## Model

| member | source | states |
|---|---|---|
| Rlp.BytesRoundTrip | crates/common/trie/rlp.rs:57-59 | a byte-string field decodes back to itself and leaves the following bytes untouched |
| Rlp.ListRoundTrip | crates/common/trie/rlp.rs:33-42 | a field list decodes back to its payload and leaves the following bytes untouched |
| Rlp.HeaderRoundTrip | crates/common/trie/rlp.rs:33-42 | the short and long length prefixes decode to the announced payload, including the big-endian length |
| Rlp.NewDecoder | crates/common/trie/rlp.rs:68 | opening a struct decoder consumes a list header and leaves strictly fewer bytes after it |
| Rlp.Finish | crates/common/trie/rlp.rs:75 | finishing succeeds exactly when every field of the list was read |
| Rlp.BytesFieldRoundTrip | crates/common/trie/rlp.rs:97-98 | reading a byte-string field yields the value written and the decoder positioned at the next field |
| Rlp.DecodeItem | crates/common/trie/rlp.rs:68 | an empty field list input is `InvalidLength`; a decoded item always leaves fewer bytes than it read |
| TrieCodec.Tag | crates/common/trie/rlp.rs:13-17 | the tag written for a variant reads back as that variant |
| TrieCodec.NodeTypeFromU8 | crates/common/trie/rlp.rs:19-28 | a byte names a node type exactly when it is 0, 1 or 2 |
| TrieCodec.TagIsInjective | crates/common/trie/rlp.rs:19-28 | every accepted byte is the tag of the type it names |
| TrieCodec.Hashify | crates/common/trie/rlp.rs:70 | replacing children by hash references keeps the variant and the arity and leaves only hash children |
| TrieCodec.HashifyKeepsHashedNodes | crates/common/trie/rlp.rs:84-88 | a node whose children are already hash references is unchanged by hashing its children |
| TrieCodec.HashFromSlice | crates/common/trie/rlp.rs:83 | a hash field is accepted exactly when it has at most 32 bytes, and its bytes are kept |
| TrieCodec.HashesRoundTrip | crates/common/trie/rlp.rs:69 | a list of child hashes decodes back to the same list |
| TrieCodec.Encode | crates/common/trie/rlp.rs:103-116 | a record is longer than one byte and starts with the tag of the node's variant |
| TrieCodec.EncodeFields | crates/common/trie/rlp.rs:30-62 | the field list of each variant; defined by its body, stated by `FieldOrder` and the field round trips |
| TrieCodec.DecodeBranch | crates/common/trie/rlp.rs:64-77 | a decoded branch has sixteen choices, all hash references |
| TrieCodec.DecodeExtension | crates/common/trie/rlp.rs:79-92 | a decoded extension's child is a hash reference |
| TrieCodec.DecodeLeaf | crates/common/trie/rlp.rs:94-101 | decoding leaf fields yields a leaf and consumes input |
| TrieCodec.DecodeUnfinished | crates/common/trie/rlp.rs:119-135 | empty input is `InvalidLength`; a first byte above 2 is `MalformedData`; a decoded node has the tag's variant, is well formed and has only hash children |
| TrieCodec.Decode | crates/common/trie/rlp.rs:119-135 | a whole record is accepted exactly when the node decodes with nothing after it |
| TrieCodec.BranchFieldsRoundTrip | crates/common/trie/rlp.rs:30-44 | a branch's field list decodes to the branch with hashed children, trailing bytes kept |
| TrieCodec.ExtensionFieldsRoundTrip | crates/common/trie/rlp.rs:46-53 | an extension's field list decodes to the extension with a hashed child, trailing bytes kept |
| TrieCodec.LeafFieldsRoundTrip | crates/common/trie/rlp.rs:55-62 | a leaf's field list decodes to the same leaf, trailing bytes kept |
| TrieCodec.TagDispatch | crates/common/trie/rlp.rs:121-134 | the tag byte is consumed and selects the variant decoder, which gets the rest |
| TrieCodec.EncodeSplits | crates/common/trie/rlp.rs:110-115 | a record is the tag byte in front of the field list |
| TrieCodec.RoundTrip | crates/common/trie/rlp.rs:103-135 | decoding an encoded node followed by anything gives the node with hashed children and exactly the trailing bytes |
| TrieCodec.RecordRoundTrip | crates/common/trie/rlp.rs:103-135 | a stored record decodes to its node with hashed children; nodes with hash children round-trip exactly |
| TrieCodec.BranchArityEnforced | crates/common/trie/rlp.rs:66-73 | a branch record whose choices list is not sixteen hashes long is refused with the arity error, never truncated or padded |
| TrieCodec.FieldOrder | crates/common/trie/rlp.rs:33-41 | fields are written in fixed order: choices then value, prefix then child, partial then value |
| HealingSpec.ScanNodes | crates/networking/p2p/sync/state_healing.rs:116-140 | the batch loop visits every fetched node in order; the batch plus the children found equals the paths visited plus the queue left; every visited leaf decoded and had a 32-byte key |
| HealingSpec.StepShape | crates/networking/p2p/sync/state_healing.rs:117-118 | a node is paired with the front path and its missing children go behind the batch |
| HealingSpec.Step | crates/networking/p2p/sync/state_healing.rs:117-139 | one fetched node: pair it with the front path, queue its missing children, and check and record a leaf; defined by its body, stated by `StepShape`, `StepChecksLeaf`, `StepSideWork` and `CorruptLeafStep` |
| HealingSpec.AccountKey | crates/networking/p2p/sync/state_healing.rs:123 | a leaf's account key is its full path, the path followed by its partial, as bytes; used by `StepChecksLeaf` and `CorruptLeafAborts` |
| HealingSpec.NeedsStorageHealing | crates/networking/p2p/sync/state_healing.rs:129-130 | storage is queued when the storage root is not the empty trie and is not stored; stated by `StorageWorkExact` |
| HealingSpec.NeedsBytecode | crates/networking/p2p/sync/state_healing.rs:134-135 | code is requested when the code hash is not the empty hash and the code is absent; stated by `CodeWorkExact` |
| HealingSpec.SeedEmptyPath | crates/networking/p2p/sync/state_healing.rs:156-159 | each queued account starts its storage heal at the empty path; used by `ProcessNodes` and `HealingRun.Batch` |
| HealingSpec.QueueShift | crates/networking/p2p/sync/state_healing.rs:117-118 | consuming the front path and appending children keeps the queue identity |
| HealingSpec.StepKeepsQueue | crates/networking/p2p/sync/state_healing.rs:117-118 | one node step keeps the batch's queue identity |
| HealingSpec.StepChecksLeaf | crates/networking/p2p/sync/state_healing.rs:119-127 | a step only succeeds on a leaf that decodes and has a 32-byte key |
| HealingSpec.ScanExtends | crates/networking/p2p/sync/state_healing.rs:116-140 | one more fetched node is one more step, after an unfailed prefix |
| HealingSpec.ScanErrorPersists | crates/networking/p2p/sync/state_healing.rs:121-126 | a failure aborts the batch: later nodes do not change the error |
| HealingSpec.PairingInOrder | crates/networking/p2p/sync/state_healing.rs:93-95 | with k nodes for at least k paths, node i is paired with path i and the batch comes back as the unfetched paths followed by each node's missing children in order |
| HealingSpec.StepSideWork | crates/networking/p2p/sync/state_healing.rs:129-138 | a step adds storage and code work only for the visit it appends |
| HealingSpec.StorageWorkExact | crates/networking/p2p/sync/state_healing.rs:129-133 | an account hash is queued for storage healing exactly when a visited leaf has a storage root that is not the empty trie and not stored |
| HealingSpec.CodeWorkExact | crates/networking/p2p/sync/state_healing.rs:134-138 | a code hash is queued exactly when a visited leaf has a code hash that is not the empty hash and whose code is absent |
| HealingSpec.CorruptLeafAborts | crates/networking/p2p/sync/state_healing.rs:123-127 | a leaf whose full path is not 32 bytes aborts the batch with `CorruptPath` |
| HealingSpec.CorruptLeafStep | crates/networking/p2p/sync/state_healing.rs:123-127 | the step at such a leaf is `CorruptPath` |
| HealingSpec.HashedRecords | crates/networking/p2p/sync/state_healing.rs:142-150 | the records written are exactly the fetched nodes with a standalone hash, under that hash with their stored encoding |
| HealingSpec.Upsert | crates/networking/p2p/sync/state_healing.rs:142 | a batch write adds the written keys and leaves every other entry alone |
| HealingSpec.UpsertValues | crates/networking/p2p/sync/state_healing.rs:142 | after a batch write, a key written only with one value holds that value |
| HealingSpec.VisitedWereFetched | crates/networking/p2p/sync/state_healing.rs:116 | every visited node is one of the fetched nodes |
| HealingSpec.StoreHashedNodes | crates/networking/p2p/sync/state_healing.rs:142-150 | the node write only adds keys, all of them hashes, and stores every fetched node that has a hash, under its hash with its encoding unless another fetched node with that hash has a different encoding |
| HealingSpec.ResultsSnoc | crates/networking/p2p/sync/state_healing.rs:72-76 | one more batch result extends the round's verdict, its stale flag and its returned paths |
| HealingSpec.RoundConserves | crates/networking/p2p/sync/state_healing.rs:72-75 | summed over the batches of a round, the paths drained plus the children found equal the paths returned plus the paths visited |
| HealingSpec.RoundMerge | crates/networking/p2p/sync/state_healing.rs:57 | draining from the front and queueing the returned paths behind the rest keeps the queue identity as a multiset |
| HealingSpec.ConservationStep | crates/networking/p2p/sync/state_healing.rs:48-80 | the conservation law of the whole healing run carries over a round |
| StateHealing.Store.SetStateHealPaths | crates/networking/p2p/sync/state_healing.rs:85 | the checkpoint becomes the given paths |
| StateHealing.Store.PutBatch | crates/networking/p2p/sync/state_healing.rs:142-150 | the trie table is the old one with the records written in order |
| StateHealing.Store.SetStorageHealPaths | crates/networking/p2p/sync/state_healing.rs:153-161 | the storage heal queue is the old one with the entries written |
| StateHealing.PeerHandler.RequestStateTrienodes | crates/networking/p2p/sync/state_healing.rs:103-105 | the request is recorded against its root; the answer is the next scripted one, or none once the peers are exhausted |
| StateHealing.BytecodeChannel.Send | crates/networking/p2p/sync/state_healing.rs:164 | the message is appended to what was sent |
| StateHealing.WalkNodes | crates/networking/p2p/sync/state_healing.rs:114-140 | the loop over fetched nodes fails exactly when the batch scan does, with the same error, and otherwise yields the scan's queue, storage work and code work |
| StateHealing.ProcessNodes | crates/networking/p2p/sync/state_healing.rs:107-166 | a failing scan writes nothing; otherwise the hashed nodes are written, new accounts are seeded with the empty path, code hashes are sent when any, and the batch comes back not stale |
| StateHealing.WriteBatch | crates/networking/p2p/sync/state_healing.rs:141-165 | the three writes of a processed batch, and that every fetched node with a hash is stored afterwards |
| StateHealing.HealStateBatch | crates/networking/p2p/sync/state_healing.rs:96-170 | result, pairings and every write (peers, trie table, storage heal queue, bytecode messages) are exactly those of `HealingRun.Batch`; with no answer or a failed walk nothing is visited and nothing is written |
| StateHealing.DrainBatches | crates/networking/p2p/sync/state_healing.rs:55-69 | the spawning loop yields exactly `HealingRun.Drain` of the queue |
| StateHealing.RunRound | crates/networking/p2p/sync/state_healing.rs:54-76 | results, pairings and the world after are exactly `HealingRun.Round` of the batches from the world before |
| StateHealing.MergeResults | crates/networking/p2p/sync/state_healing.rs:71-76 | the merge loop computes exactly `HealingRun.Merge` |
| StateHealing.HealRound | crates/networking/p2p/sync/state_healing.rs:53-76 | one round drains the queue, runs the batches and merges behind the rest exactly as `HealingRun.Drain`, `Round` and `Merge` |
| StateHealing.HealRounds | crates/networking/p2p/sync/state_healing.rs:48-80 | the loop's queue, failure, pairings, last round and world are exactly `HealingRun.Rounds` from the seeded queue |
| StateHealing.HealStateTrie | crates/networking/p2p/sync/state_healing.rs:32-91 | the queue is seeded with the checkpoint plus the root path and run by `HealingRun.Rounds`; the result is whether the queue emptied, or the first error; the remaining queue is persisted only when non-empty and a failure persists nothing; the empty sentinel is sent unless healing failed; plus the laws of `HealingRun.RoundsLaws` for this run |
| HealingRun.Requests | crates/networking/p2p/sync/state_healing.rs:58-64 | a round makes one request per batch, in order, against the state root |
| HealingRun.Batch | crates/networking/p2p/sync/state_healing.rs:96-169 | a batch logs its request against the root and consumes one answer; with no answer it comes back untouched and stale; what the walk and the writes do is defined by its body and stated by `BatchNoWrites`, `BatchQueue`, `BatchVisits` and `BatchStores` |
| HealingRun.BatchStale | crates/networking/p2p/sync/state_healing.rs:103-106 | a batch is stale exactly when the peers gave no answer |
| HealingRun.BatchNoWrites | crates/networking/p2p/sync/state_healing.rs:103-106 | a batch with no answer, or whose walk failed, visits nothing and leaves the trie table, the storage heal queue and the bytecode messages unchanged |
| HealingRun.BatchQueue | crates/networking/p2p/sync/state_healing.rs:116-118 | a successful batch's paths plus the children it found are the paths it visited plus the paths it hands back |
| HealingRun.BatchVisits | crates/networking/p2p/sync/state_healing.rs:114-118 | every pairing joins a node of the batch's answer with the children missing under it in the trie table as the batch found it |
| HealingRun.BatchStores | crates/networking/p2p/sync/state_healing.rs:142-150 | a batch only adds hashed keys to the trie table and stores every visited node that has a hash |
| HealingRun.RoundAnswers | crates/networking/p2p/sync/state_healing.rs:56-66 | a round consumes one answer per batch and logs one request per batch against the root, in batch order; batches past the last answer come back untouched and stale |
| HealingRun.Round | crates/networking/p2p/sync/state_healing.rs:54-72 | the batches of a round run in spawn order, each against the world the earlier ones left, one result per batch; defined by its body, stated by `RoundAnswers`, `RoundBatch`, `RoundQueue`, `RoundStores` and `RoundDelivered` |
| HealingRun.RoundBatch | crates/networking/p2p/sync/state_healing.rs:56-66 | the j-th batch gets the j-th answer, or none once they ran out, and its result is that batch run against the world the earlier batches left |
| HealingRun.RoundStale | crates/networking/p2p/sync/state_healing.rs:69-76 | a round is stale only if some batch got no answer |
| HealingRun.RoundQueue | crates/networking/p2p/sync/state_healing.rs:69-76 | when every batch succeeds, the paths drained plus the children found are the paths returned plus the paths visited |
| HealingRun.RoundStores | crates/networking/p2p/sync/state_healing.rs:142-150 | a round only adds hashed keys to the trie table and stores every visited node that has a hash |
| HealingRun.RoundDelivered | crates/networking/p2p/sync/state_healing.rs:103-116 | every node a round visited was handed out by the peers, and the answers left are among those before |
| HealingRun.DrainShape | crates/networking/p2p/sync/state_healing.rs:55-69 | the batches are consecutive front slices with the rest after them, between one and `MAX_PARALLEL_FETCHES` of at most `NODE_BATCH_SIZE` paths; all but the last are full and a non-empty rest means every slot was used |
| HealingRun.Drain | crates/networking/p2p/sync/state_healing.rs:55-69 | the spawning loop: front slices of at most the batch size, until the slots or the queue run out; defined by its body, stated by `DrainShape` |
| HealingRun.DrainQueue | crates/networking/p2p/sync/state_healing.rs:55-57 | the spawning loop with `MAX_PARALLEL_FETCHES` slots of `NODE_BATCH_SIZE` paths; stated by `DrainShape` |
| HealingRun.FirstErrorExact | crates/networking/p2p/sync/state_healing.rs:71-73 | a round has a first error exactly when some batch failed, and it is the earliest failed batch's error |
| HealingRun.FirstError | crates/networking/p2p/sync/state_healing.rs:72-73 | the error of the first failed batch in spawn order; defined by its body, stated by `FirstErrorExact` |
| HealingRun.Merge | crates/networking/p2p/sync/state_healing.rs:71-76 | the first failed batch aborts the round, otherwise the returned paths are queued behind the rest and the stale flags are or-ed; defined by its body, stated by `FirstErrorExact` and `RoundsConserve` |
| HealingRun.RoundConsumes | crates/networking/p2p/sync/state_healing.rs:48-80 | a round never gains answers, and a round the loop goes on after consumed at least one, so the loop ends |
| HealingRun.Rounds | crates/networking/p2p/sync/state_healing.rs:48-80 | the round loop until the queue is empty, a round fails or a round is stale; defined by its body, stated by `RoundsConserve`, `RoundsExit`, `RoundsStore`, `RoundsRequests`, `RoundsAsks` and `RoundsDelivered` |
| HealingRun.RoundsConserve | crates/networking/p2p/sync/state_healing.rs:48-80 | over the whole loop, the seeded paths plus the children found are the paths left plus the paths visited |
| HealingRun.RoundsExit | crates/networking/p2p/sync/state_healing.rs:48-80 | the loop ends with paths left only after a stale round, and a failure is its last round's first error |
| HealingRun.RoundsStore | crates/networking/p2p/sync/state_healing.rs:48-80 | the loop only adds hashed keys to the trie table and stores every visited node that has a hash |
| HealingRun.RoundsRequests | crates/networking/p2p/sync/state_healing.rs:58-64 | every request of the loop is logged after the earlier ones and made against the state root |
| HealingRun.RoundsAsks | crates/networking/p2p/sync/state_healing.rs:48-69 | healing a non-empty queue asks the peers at least once |
| HealingRun.RoundsDelivered | crates/networking/p2p/sync/state_healing.rs:103-116 | every node the loop visited was handed out by the peers |
| HealingRun.RoundsLaws | crates/networking/p2p/sync/state_healing.rs:32-91 | from a fresh start, all the laws above hold for one healing run |
| Logs.Parse | crates/networking/rpc/eth/logs.rs:44-49 | parameters that are not one element are refused, as is an element that is not an object |
| Logs.ParseObject | crates/networking/rpc/eth/logs.rs:50-81 | the four fields read in order, the first failure reported; defined by its body, stated by `ParseAccepts` and `ParseReportsFirstMissing` |
| Logs.ParseAccepts | crates/networking/rpc/eth/logs.rs:50-81 | a parameter object is accepted exactly when all four fields are present and decode; the filter carries the decoded values and a null topic list becomes empty |
| Logs.ParseReportsFirstMissing | crates/networking/rpc/eth/logs.rs:50-75 | the first missing field is reported by name, and a field that does not decode is a wrong parameter |
| Logs.AnyAlternative | crates/networking/rpc/eth/logs.rs:202-205 | true exactly when some alternative is a wildcard or equals the topic |
| Logs.MatchesTopics | crates/networking/rpc/eth/logs.rs:188-213 | the topic closure agrees with the positional predicate: enough topics, and every position matches |
| Logs.Decimal | crates/networking/rpc/eth/logs.rs:140-146 | a block number is written as a non-empty string of decimal digits |
| Logs.DecimalRoundTrip | crates/networking/rpc/eth/logs.rs:140-146 | the digits written for a block number read back as that number |
| Logs.WalkTxs | crates/networking/rpc/eth/logs.rs:150-179 | the block's log counter after its transactions counts every log of their succeeded receipts |
| Logs.WalkTx | crates/networking/rpc/eth/logs.rs:154-179 | one transaction: its receipt must be stored, and a succeeded receipt's logs are numbered from the block counter; stated by `WalkTxsSound` and `WalkTxsComplete` |
| Logs.EmitReceiptExact | crates/networking/rpc/eth/logs.rs:161-177 | a succeeded receipt emits exactly its accepted logs, each numbered by its position, counting rejected logs too |
| Logs.EmitReceipt | crates/networking/rpc/eth/logs.rs:161-177 | the accepted logs of one succeeded receipt, numbered by position; defined by its body, stated by `EmitReceiptExact` and `EmitReceiptOrdered` |
| Logs.Accepted | crates/networking/rpc/eth/logs.rs:163 | an empty address set accepts every log, otherwise the log's address must be in it; used by `EmitReceiptExact` |
| Logs.EmitReceiptOrdered | crates/networking/rpc/eth/logs.rs:162-177 | a receipt's emitted logs are in log-index order |
| Logs.OrderedAppend | crates/networking/rpc/eth/logs.rs:134-179 | appending a later run of ordered logs keeps the output ordered |
| Logs.WalkTxsSound | crates/networking/rpc/eth/logs.rs:154-179 | every emitted log is an accepted log of a succeeded receipt in the block, with its transaction hash and index, and they are ordered |
| Logs.WalkTxsComplete | crates/networking/rpc/eth/logs.rs:154-159 | the walk over transactions succeeds exactly when every receipt is stored, and then emits every wanted log |
| Logs.BlockExact | crates/networking/rpc/eth/logs.rs:137-179 | a block's walk succeeds exactly when its body, header and receipts are stored, and emits precisely its wanted logs in order |
| Logs.WalkBlock | crates/networking/rpc/eth/logs.rs:137-179 | one block: body, then header, then its transactions; defined by its body, stated by `BlockExact` |
| Logs.WalkBlocksOk | crates/networking/rpc/eth/logs.rs:134-147 | the walk over the range succeeds exactly when every block in it is stored |
| Logs.WalkBlocks | crates/networking/rpc/eth/logs.rs:134-180 | the blocks of the range in order, the first failure ending it; defined by its body, stated by `WalkBlocksOk`, `WalkBlocksSound`, `WalkBlocksComplete` and `WalkBlocksErrorPersists` |
| Logs.WalkBlocksSound | crates/networking/rpc/eth/logs.rs:134-180 | every log from the range walk comes from a stored block in the range, and they are ordered by block, transaction and log index |
| Logs.WalkBlocksComplete | crates/networking/rpc/eth/logs.rs:134-180 | the range walk emits every wanted log of its blocks |
| Logs.WalkBlocksErrorPersists | crates/networking/rpc/eth/logs.rs:137-159 | a failing block ends the range walk with that failure |
| Logs.FilterByTopicsExact | crates/networking/rpc/eth/logs.rs:187-214 | the topic filter keeps exactly the matching logs, and keeps them in order |
| Logs.FilterByTopics | crates/networking/rpc/eth/logs.rs:184-215 | the logs whose topics match, in order; defined by its body, stated by `FilterByTopicsExact` and `EmptyTopicFilterKeepsAll` |
| Logs.TopicsMatch | crates/networking/rpc/eth/logs.rs:188-212 | a log matches when it has at least as many topics as the filter and every position matches; the loop `MatchesTopics` computes it |
| Logs.EmptyTopicFilterKeepsAll | crates/networking/rpc/eth/logs.rs:184-185 | skipping the filter when there are no topics gives what the filter would |
| Logs.FetchLogsRejects | crates/networking/rpc/eth/logs.rs:110-122 | an unresolved bound is a wrong parameter, and a range whose start lies after its end is `Empty range` |
| Logs.FetchLogs | crates/networking/rpc/eth/logs.rs:106-218 | the endpoint's answer; defined by its body, stated by `FetchLogsRejects`, `FetchLogsOk`, `FetchLogsSound` and `FetchLogsComplete` |
| Logs.FetchLogsOk | crates/networking/rpc/eth/logs.rs:120-217 | for a resolved range the endpoint succeeds exactly when every block is stored, and answers the walk's logs through the topic filter |
| Logs.FetchLogsSound | crates/networking/rpc/eth/logs.rs:134-217 | every answered log is an accepted log of a succeeded receipt in the range that matches the topics, none is removed, and the answer is ordered |
| Logs.FetchLogsComplete | crates/networking/rpc/eth/logs.rs:134-217 | every wanted log in the range that matches the topics is answered |
| Logs.CollectBlock | crates/networking/rpc/eth/logs.rs:137-179 | the nested transaction and log loops of one block append exactly the block walk's logs, or fail as it does |
| Logs.KeepMatching | crates/networking/rpc/eth/logs.rs:187-214 | the filtering pass equals the topic filter |
| Logs.FetchLogsWithFilter | crates/networking/rpc/eth/logs.rs:106-218 | the endpoint's loops compute exactly the specified answer, errors included |

## Left out

- Rlp.DecodeItem: canonical-form checks are not modelled. The decoder
  accepts non-canonical prefixes: a single byte below 0x80 written as
  `0x81 b`, the long form for payloads of 55 bytes or fewer, and length bytes
  with leading zeros.
- The `ethrex_rlp` library is not part of this model. `Rlp` is a minimal RLP
  codec. A path (`Nibbles`) and a node value are encoded as byte strings. A
  `NodeHash` is encoded as its at most 32 bytes. A hash field longer than 32
  bytes is refused with `MalformedData`; the source's `from_slice` behaviour
  there is not visible.
- TrieCodec.Encodable: field lengths are bounded by `MaxFieldLen` (2^62) so
  every payload fits the eight-byte RLP length. The source has no such bound.
- Hashing: `compute_hash`, `tx.compute_hash` and `block_header.hash` are not
  modelled. The first is the parameter `hashOf`; the other two appear as
  values in `Chain`.
- Concurrency:
  - The batches of a round run one after the other, in spawn order. `join_all`
    yields results in completion order, so the order of returned paths in the
    queue may differ. The multiset conservation law does not depend on it.
  - When several batches of a round fail, `res?` over `join_all` reports the
    first to finish, which may not be the first spawned. `Merge` reports the
    first spawned.
  - The spawned bytecode fetcher, channel backpressure, and joining the
    fetcher are not modelled. The channel is the log of messages sent.
- Termination: the peers are a finite script of answers, and an exhausted
  script answers nothing (a stale batch). A source run whose peers keep
  answering need not terminate.
- StateHealing.HealStateTrie: the configuration is required to be positive,
  as for `StateHealing.HealRounds` and `HealingRun.Rounds`. The source uses
  fixed positive constants, `MAX_PARALLEL_FETCHES` and `NODE_BATCH_SIZE`.
- Store and channel errors are not modelled; the store never fails. This
  covers `get_state_heal_paths`, `open_state_trie`, `contains_storage_node`,
  `get_account_code`, `put_batch`, `set_storage_heal_paths`, `send` and the
  fetcher join.
- The error of `node_missing_children` is not modelled; it is a total
  parameter.
- `batch.remove(0)` on an empty batch (more nodes than paths) panics in the
  source. It is modelled as the error `PathsExhausted`.
- `AccountState::decode` failure is the error `AccountDecode`.
- `Nibbles::concat` / `to_bytes` are a parameter taking the concatenated path.
- Timing and logging (`Instant`, progress `info!`, `debug!`, `tracing::error!`)
  are not modelled.
- JSON: `BlockIdentifier::parse`, `resolve_block_number` and the serde
  decoding of `AddressFilter` and `Vec<TopicFilter>` are parameters. JSON
  numbers are unbounded integers. The serialization in `handle` is not
  modelled.
- Logs.CollectBlock: the `u64` log index and the `tx_index as u64` cast are
  unbounded naturals. A block has far fewer than 2^64 logs, so no wrap-around
  is modelled.
- `log.clone().into()` is the identity on `Log`.
