# Massbit indexer: a verified model

Massbit reads blocks from Solana and Ethereum, filters them for the indexers that asked for them,
runs the indexers' mapping handlers and stores the entities they write. This project models the
parts where order, loss, duplication and recovery are decided, and proves what they guarantee, for
every input, every interleaving and every run.

The main results, by area:

* **Solana streaming.** `FetchProtocol` is the fetch protocol as a state machine: a polling loop,
  bounded concurrent fetches, a bounded channel and the reorder buffer. Every run releases blocks in
  slot order without gap or repetition, every requested slot is in exactly one place, and release
  stops for good at the least slot whose fetch timed out. `Broadcast` and `Pipeline` follow the
  blocks to the indexers while these come and go, and `Delivery` adds their bounded channels.
  `SendQueue` is the older queue, which gives up one slot per drain; it is complete exactly when the
  first slot arrives last.
* **Entity changes.** Compacting pending operations agrees with replaying them one by one, up to
  attributes that are stored as Null, and exactly if no Null lingers. The two-layer entity cache and
  its modifications are proved against the log of all writes.
* **Ethereum triggers.** Range scans with splitting and back-off equal one query; every log, call and
  block that a data source decodes is delivered in its block, logs once per event handler meant for
  them and calls once per trace, whatever the range; the trigger order is transitive exactly when no
  two logs around a call are inverted; event signatures are injective.
* **The indexer loop.** Creating data sources while a block is processed ends when handlers can name
  finitely many and need not otherwise. The store is written at most once per block, as the last
  step, never on an error, a cancellation or a suspected reorg. After any run a start from the store
  rebuilds the same hosts in the same order and the same filter, and no block in which a host would
  have found something was skipped. Every input is a processed block as long as the
  node answers, and the stored entities are the replay of all committed writes. The scan, the stream,
  the loop and the store are proved together.
* **Values and lists.** Decimal normalization, integers from bytes, hexadecimal text, line splitting
  of chunked JSON, table dependencies and paging through an address's history.

Inputs that come from outside are parameters: the node's answers, time-outs, hashing (Keccak),
address parsing, ABI decoding, the handlers' code, cancellation and the database's acceptance.
Integers are unbounded; where the source relies on a machine width, the bound is stated and proved.

## Where the code does not do what is expected

* A fetch that times out sends nothing, so everything behind it would wait forever
  (`FetchProtocol.TimeoutStallsForGood`). This is conditional: `get_block` calls the node without a
  point at which it could be interrupted, so as written the time-out around it does not fire; the
  model lets it fire at any time.
* An indexer that does not read stops the stream for all others and blocks registration
  (`Delivery.SlowIndexerStopsAll`), which does happen (`Delivery.CanBlock`).
* An indexer whose filter has no keys gets nothing from the fan-out, although its filter accepts
  everything; indexers with equal hashes get each other's transactions (`Broadcast.SharedHash`).
  `Broadcast.FanOutIsPerIndexerFilter` says exactly when the fan-out is right all the same.
* The older send queue loses the slot after every drained run and can wait for a slot that has
  already passed (`SendQueues.CompleteIffStartArrivesLast`, `SendQueues.StuckForGood`).
* Compacted operations can keep a Null where replaying removes the attribute
  (`EntityOps.CompactExactIffNothingLingers`).
* Block filters never gain addresses, so block handlers with a call filter are never triggered
  (`TriggerFilters.BlockFilterFromDataSources`).
* A log is found once per event handler meant for it and every host sees every copy, so each handler
  runs as often as there are such handlers (`Decoding.LogHandledCount`).
* Calls are searched for from the start of the range as soon as their address starts anywhere in it
  (`TriggerScan.RangeIsItsBlocks`); the extra calls are decoded by nobody (`Decoding.EarlyNotDecoded`).
* The comparison of triggers has cycles (`TriggerOrder.Cycle`).
* Table dependencies repeat a table that is listed after something that already needs it
  (`ChainDependencies.CreateChainDependencies`).
* The comment on the loop over created data sources names a limit (`MAX_DATA_SOURCES`); the code has
  none, and the model follows the code (`EndlessRounds.RoundsNeedNotEnd`).
* The comment on block stream errors says the stream goes on producing blocks. The polling stream
  keeps its finished future after a failed scan and polls it again, which panics; in the model the
  run ends there (`IndexerRun.Turn`).

## Model

| member | source | states |
|---|---|---|
| `Common.FirstAbsent` | chain-reader/src/indexer_broadcast.rs:44-49 | where a drain stops: every slot from the key up to it is queued, it is not |
| `BlockBuffers.Queued` | chain-reader/src/indexer_broadcast.rs:44-49 | the queued blocks of a run come out one per slot, in slot order |
| `BlockBuffers.BlockBuffer.HandleIncomingBlock` | chain-reader/src/indexer_broadcast.rs:24-54 | new state and released blocks for each message: start slot, expected slot with the whole run behind it, other slot |
| `FetchProtocol.NextKeeps` | chain-reader/src/solana_chain_adapter.rs:48-125 | every step of polling, spawning, fetching, sending and receiving, in any interleaving, keeps the invariant: slots are split among the places without loss or overlap and every copy carries what its fetch returned |
| `FetchProtocol.RunInvariant` | chain-reader/src/solana_chain_adapter.rs:48-161 | the invariant holds in every state of every run |
| `FetchProtocol.ReleasedInSlotOrder` | chain-reader/src/indexer_broadcast.rs:24-54 | in every run the released blocks are those of root, root + 1, ... without gap or repetition, each with the contents its fetch returned |
| `FetchProtocol.ExactlyOnePlace` | chain-reader/src/solana_chain_adapter.rs:78-113 | in every run each requested slot is in exactly one place: being fetched, waiting to be sent, in the channel, in the buffer, timed out or released; every other slot is in none |
| `FetchProtocol.QuietFrontier` | chain-reader/src/solana_chain_adapter.rs:82-111 | when nothing is in flight, release has reached exactly the least timed-out slot, or everything requested if none timed out, and the buffer holds exactly the later slots that did not time out |
| `FetchProtocol.TimeoutStallsForGood` | chain-reader/src/solana_chain_adapter.rs:104-109 | from the moment a fetch times out release never passes its slot, in every continuation of the run |
| `FetchProtocol.ArithmeticStaysInRange` | chain-reader/src/solana_chain_adapter.rs:54-76 | no subtraction underflows and no sum overflows a 64-bit slot number in any run; never more fetches than permits |
| `FetchProtocol.CanBecomeQuiet` | chain-reader/src/solana_chain_adapter.rs:78-112 | from every reachable state the fetches in flight can all finish and be received: neither permits nor the bounded channel can deadlock as long as the broadcaster receives |
| `FetchProtocol.AlwaysBecomesQuiet` | chain-reader/src/solana_chain_adapter.rs:78-112 | from every state, in every order and whichever fetches time out, at most three steps per fetch in flight, two per block to be sent and one per message can follow before more is requested, and where none is possible everything has arrived |
| `Broadcast.IndexerBroadcast.RegisterIndexer` | chain-reader/src/indexer_broadcast.rs:92-112 | appends one indexer whose key set is that of its filter |
| `Broadcast.IndexerBroadcast.BroadcastBlocks` | chain-reader/src/indexer_broadcast.rs:113-175 | closed indexers go, order kept; each first holder of a hash gets one message with what was collected under the hash, if anything |
| `Broadcast.IndexerBroadcast.PushTransaction` | chain-reader/src/indexer_broadcast.rs:132-150 | each interested indexer adds one copy of the transaction under its hash |
| `Broadcast.IndexerBroadcast.PushTransactions` | chain-reader/src/indexer_broadcast.rs:123-151 | per hash, the block with the copies of all its transactions in order |
| `Broadcast.IndexerBroadcast.FileBlocks` | chain-reader/src/indexer_broadcast.rs:152-159 | a block is filed under a hash exactly when it kept a transaction |
| `Broadcast.IndexerBroadcast.Distribute` | chain-reader/src/indexer_broadcast.rs:161-167 | each collection is sent once, to the first indexer with its hash |
| `Broadcast.CopiesForAll` | chain-reader/src/indexer_broadcast.rs:131-151 | where no other indexer under the same hash wants these transactions, the copies collected for an indexer are those its own filter matches |
| `Broadcast.CollectedIsWanted` | chain/solana/src/types.rs:65-93 | for a filter with keys, where no other indexer under its hash wants anything of the batch, the shared pass collects what filtering each block for that indexer alone gives |
| `Broadcast.FanOutIsPerIndexerFilter` | chain-reader/src/indexer_broadcast.rs:113-175 | for every list of indexers with channels of their own, whatever hashes they share: the fan-out equals filtering per indexer if and only if the first indexer of each hash has keys, or the batch has no transactions, and the filter of every later one accepts nothing of the batch |
| `Broadcast.FanOutWithDistinctHashes` | chain-reader/src/indexer_broadcast.rs:113-175 | with distinct hashes: if and only if every filter has keys or the batch has no transactions, since a filter without keys accepts everything in `filter_block` and gets nothing from the fan-out |
| `Broadcast.ReceivedByOne` | chain-reader/src/indexer_broadcast.rs:161-167 | the first indexer of a hash receives one message with all that was collected under the hash, if anything, and a later one nothing |
| `Broadcast.WithoutKeys` | chain-reader/src/indexer_broadcast.rs:139-150 | an indexer with an empty filter receives nothing, although its filter selects every block with a transaction |
| `Broadcast.SharedHash` | chain-reader/src/indexer_broadcast.rs:125-167 | counterexample for equal hashes: the first indexer gets every transaction twice and the second gets nothing |
| `Pipeline.AfterKeeps` | chain-reader/src/indexer_broadcast.rs:77-175 | registering under any hash, closing and every network step keep: channels differ, and each indexer is known with the point at which it joined |
| `Pipeline.AfterDelivers` | chain-reader/src/indexer_broadcast.rs:77-175 | whatever happens and whatever hashes others share: what an indexer with a hash of its own received stays what its filter selects from the blocks released since it joined |
| `Pipeline.IndexerSeesItsBlocksInOrder` | chain-reader/src/indexer_broadcast.rs:77-175 | end to end, for every run with indexers coming and going: the messages of a listening indexer that has had its hash for itself, put together, are exactly the selection of its filter from consecutive slots since it joined, in order, no message empty; the others may share hashes |
| `Delivery.MoveKeeps` | chain-reader/src/indexer_broadcast.rs:113-175 | with a bounded channel per indexer: every message is read, on its channel or still to be delivered, and channels never overflow |
| `Delivery.RefinesPipeline` | chain-reader/src/indexer_broadcast.rs:113-175 | every run with bounded channels is a run of the pipeline that ends in the same state, with the same events in the same order but for deliveries and reads |
| `Delivery.ReadsInOrder` | chain-reader/src/indexer_broadcast.rs:161-167 | in every run what an indexer with a hash of its own has read is a prefix of what its filter selects since it joined |
| `Delivery.SlowIndexerStopsAll` | chain-reader/src/indexer_broadcast.rs:161-167 | once the broadcaster waits for room on the channel of an indexer, then as long as that one neither reads nor leaves, in every continuation nothing is released, no message reaches anyone and nobody can register |
| `Delivery.CanBlock` | chain-reader/src/stream_service.rs:43-62 | for every indexer whose filter has keys there is a run in which its channel fills up and the broadcaster waits for it |
| `Delivery.CanQueue` | chain-reader/src/stream_service.rs:43-62 | and one for every number of messages on its channel up to the capacity |
| `Delivery.CanDrain` | chain-reader/src/indexer_broadcast.rs:161-167 | reading where there is no room is enough for all pending messages to be delivered |
| `Delivery.CanBecomeQuietWithReaders` | chain-reader/src/indexer_broadcast.rs:77-90 | from every reachable state, if the indexers read, all fetches in flight can finish and everything released be delivered |
| `SendQueues.SendQueue.PopQueue` | chain-reader/src/solana_chain.rs:190-197 | takes the waiting slot out if it is there and moves on in either case |
| `SendQueues.SendQueue.InsertAndPrepareSend` | chain-reader/src/solana_chain.rs:198-231 | queues the block, or packs the run from the sending slot and gives up the slot after it |
| `SendQueues.PackedSlotsRise` | chain-reader/src/solana_chain.rs:198-231 | for every order of arrivals the packed slots strictly rise |
| `SendQueues.PackedIsTaken` | chain-reader/src/solana_chain.rs:198-231 | in every run a block is packed if and only if its slot was taken, with the contents it arrived with |
| `SendQueues.MissedStaysMissed` | chain-reader/src/solana_chain.rs:189-231 | a slot that a drain gave up is never packed, however the run goes on |
| `SendQueues.StuckForGood` | chain-reader/src/solana_chain.rs:189-231 | once the queue waits for a slot that has already arrived, nothing is packed ever again |
| `SendQueues.CompleteIffStartArrivesLast` | chain-reader/src/solana_chain.rs:189-231 | a complete range of slots is taken completely if and only if its first slot arrives last; then every block is packed, and when no slot is empty every block is packed only then |
| `EntityOps.Merge` | chain/solana-sdk/src/entity.rs:231-235 | the attributes of the update replace those of the entity, Null included |
| `EntityOps.MergeRemoveNullFields` | chain/solana-sdk/src/entity.rs:242-249 | as merge, but Null in the update removes the attribute |
| `EntityOps.PendingOp.Accumulate` | chain/solana-sdk/src/model.rs:82-100 | two pending operations become one |
| `EntityOps.AccumulateAssociative` | chain/solana-sdk/src/model.rs:82-100 | accumulating is associative on all operations |
| `EntityOps.CompactAppend` | chain/solana-sdk/src/model.rs:82-100 | compacting two logs separately and then together is compacting the joined log |
| `EntityOps.UpdatesOnEntity` | chain/solana-sdk/src/model.rs:70-100 | on a stored entity, one compacted update does exactly what the updates do one by one |
| `EntityOps.CompactAgreesUpToNulls` | chain/solana-sdk/src/model.rs:61-100 | for every non-empty log and every stored state, applying the compacted operation and replaying the log agree except for attributes stored as Null |
| `EntityOps.CompactExactIffNothingLingers` | chain/solana-sdk/src/model.rs:61-100 | compacting is exact on every stored state if and only if no Null lingers |
| `EntityOps.ReplayIsCompactWithoutLingering` | chain/solana-sdk/src/model.rs:61-100 | otherwise the difference is exactly the lingering Nulls, each of which the compacted data carries |
| `EntityOps.LingeringMeaning` | chain/solana-sdk/src/model.rs:61-100 | a Null lingers exactly when some update sets it on data written earlier in the log and nothing later overwrites it |
| `EntityOps.WithoutNullsCompactIsExact` | chain/solana-sdk/src/model.rs:61-100 | logs whose updates set no Null compact exactly |
| `EntityCaches.EntityCache.Write` | massbit/src/components/store.rs:269-283 | the operation joins the pending one of its layer; the log of that layer grows by it |
| `EntityCaches.EntityCache.Get` | massbit/src/components/store.rs:228-239 | what a handler reads is what the compaction of each layer makes of the stored entity: the replay of all its writes up to Nulls, and exactly if no Null lingers |
| `EntityCaches.EntityCache.EnterHandler` | massbit/src/components/store.rs:206-210 | a handler starts with an empty layer of its own |
| `EntityCaches.EntityCache.ExitHandler` | massbit/src/components/store.rs:211-221 | afterwards every key has the writes of before and then those of the handler |
| `EntityCaches.EntityCache.ExitHandlerAndDiscardChanges` | massbit/src/components/store.rs:222-227 | the writes of the handler are gone and all others are as before |
| `EntityCaches.EntityCache.AsModifications` | massbit/src/components/store.rs:298-381 | at most one modification per key, each changes the store, and together they bring every key to exactly what the compaction of its writes makes of it, new entities without Nulls; up to Nulls that is the replay of its writes |
| `EntityCaches.ModificationAgrees` | massbit/src/components/store.rs:334-374 | insert, overwrite, remove or nothing: what is chosen for a key gives exactly the outcome of its pending operation |
| `EntityCaches.SavedExactIff` | massbit/src/components/store.rs:334-374 | what a block stores of an entity is exactly the replay of its operations, whatever was stored before, if and only if an entity they create ends without Nulls, and they are all updates or no Null lingers |
| `EntityCaches.LayersAgree` | massbit/src/components/store.rs:228-239 | the two pending layers applied in order agree with the whole log of the key |
| `ChainDependencies.CreateChainDependencies` | core/index-store/src/core.rs:372-390 | without a cycle below the table: exactly the reachable tables, each after everything it depends on, and without repetition if and only if no dependency is listed that an earlier one already brings in |
| `ChainDependencies.AddMissing` | core/index-store/src/core.rs:381-385 | keeps the order of dependencies and adds what is missing |
| `ChainDependencies.ReturnsIffNoCycle` | core/index-store/src/core.rs:372-390 | the recursion returns if and only if no cycle is reachable from the table |
| `ChainDependencies.BelowShrinks` | core/index-store/src/core.rs:379-380 | a dependency reaches strictly fewer tables, the measure of the recursion |
| `TriggerOrder.CmpReverses` | chain/ethereum/src/trigger.rs:250-287 | comparing the other way round gives the reverse ordering |
| `TriggerOrder.TransitiveIffNoInversion` | chain/ethereum/src/trigger.rs:250-287 | the comparison is transitive on a list if and only if no two logs around a call are numbered against their transactions |
| `TriggerOrder.Cycle` | chain/ethereum/src/trigger.rs:250-287 | counterexample: two logs and a call that are each less than the next, in a circle |
| `TriggerOrder.RisingIsTransitive` | chain/ethereum/src/trigger.rs:250-287 | with log numbers that rise with transactions the comparison is transitive |
| `TriggerOrder.SortIsByTransaction` | chain/ethereum/src/trigger.rs:250-287 | then every sorted rearrangement is in transaction order, with calls after the logs of their transaction and block triggers at the end |
| `TriggerOrder.SortedPairwise` | chain/ethereum/src/trigger.rs:250-287 | a list sorted step by step is sorted for every pair, where the comparison is transitive |
| `TriggerOrder.SortSorts` | massbit/src/blockchain/block_stream.rs:22-27 | insertion sort leaves no two neighbours out of order, also where the comparison is not transitive |
| `JsonStream.LineStream.Poll` | manager/src/indexer/link_resolver.rs:278-322 | yields the first remaining line with its number, or says that nothing is ready, that the source failed, or that all is done, which it is |
| `JsonStream.CollectAll` | manager/src/indexer/link_resolver.rs:269-324 | however the text is cut into chunks and wherever the source waits or fails, what comes out is each non-empty line, once, in order, with its line number |
| `JsonStream.LinesCutTheText` | manager/src/indexer/link_resolver.rs:280-282 | the lines are the only way to cut the text, closed by a newline, into pieces that end in their only newline |
| `JsonStream.LinesTerminated` | manager/src/indexer/link_resolver.rs:315-318 | adding the missing newline at the end does not change the lines |
| `JsonStream.LineStartsAfterNewlines` | manager/src/indexer/link_resolver.rs:275-289 | the reported number is one more than the newlines before the line |
| `EventSignatures.TypeSignatureInjective` | chain/ethereum/src/data_source.rs:320-345 | different parameter types, nested arrays and tuples included, have different signatures |
| `EventSignatures.JoinInjective` | chain/ethereum/src/data_source.rs:302-318 | a comma-separated list of signatures can be read back in only one way |
| `EventSignatures.CanonicalIsPlain` | chain/ethereum/src/data_source.rs:959-964 | erasing the hints and spaces from a signature with hints gives the plain signature if and only if the name has no space |
| `EventSignatures.LookupAgreesWithTopic` | chain/ethereum/src/data_source.rs:286-382 | the event that the lookup returns is one whose plain signature has the topic that the handler filters by |
| `EventSignatures.IndexedSignatureInjective` | chain/ethereum/src/data_source.rs:302-318 | events with the same signature with hints have the same name, parameter types and hints |
| `EventSignatures.ExactLookupFinds` | chain/ethereum/src/data_source.rs:346-349 | looking up the full signature of a listed event finds an event of that shape |
| `Decimals.Normalized` | chain/solana-sdk/src/scalar.rs:67-83 | the rounded magnitude without its trailing zeros, scale adjusted, sign kept |
| `Decimals.Truncate` | chain/solana-sdk/src/scalar.rs:75-79 | cutting trailing zero digits and counting them, on the list of digits |
| `Decimals.NormalFitsPrecision` | chain/solana-sdk/src/scalar.rs:67-83 | at most 34 digits even when rounding carries into a 35th, no trailing zero, sign kept, zero exactly for zero |
| `Decimals.SameValueIffCanonical` | chain/solana-sdk/src/scalar.rs:67-83 | two decimals have equal values if and only if they are equal without trailing zeros |
| `Decimals.ValuePreservedIffFits` | chain/solana-sdk/src/scalar.rs:67-83 | normalizing keeps the value if and only if at most 34 digits are significant, whatever the rounding rule |
| `Decimals.EqualValuesNormalizeAlike` | chain/solana-sdk/src/scalar.rs:67-83 | equal values within the precision have one normal form |
| `Decimals.NormalIdempotent` | chain/solana-sdk/src/scalar.rs:67-83 | normalizing twice is normalizing once |
| `Decimals.NormalIsCanonical` | chain/solana-sdk/src/scalar.rs:67-83 | within the precision only trailing zeros go |
| `Decimals.DigitsRoundTrip` | chain/solana-sdk/src/scalar.rs:75-79 | the digits of a number, read back, give the number |
| `Scalars.TryFromBigInt` | chain/solana-sdk/src/scalar.rs:200-219 | the value itself if it fits 64 bits; negative and too large values give their errors; the shifts lose no bit |
| `Scalars.OrDisjoint` | chain/solana-sdk/src/scalar.rs:211-216 | or of a shifted byte with smaller bits is their sum |
| `Scalars.ParseDisplay` | chain/solana-sdk/src/scalar.rs:415-427 | parsing what is displayed gives back the bytes |
| `Scalars.ParseSucceeds` | chain/solana-sdk/src/scalar.rs:422-427 | text parses if and only if, without leading `0x`, it has an even number of hexadecimal digits and nothing else |
| `SignaturePaging.GetSignaturesForAddress` | chain/solana/src/adapter.rs:37-95 | for every sequence of page sizes: without errors exactly the signatures at or above the first slot and before the end signature, oldest first; an error leaves the newest part; an unknown end signature gives nothing |
| `SignaturePaging.OneAtATime` | chain/solana/src/adapter.rs:51-63 | for every history there is a node that answers as assumed and never fails, so that case is not empty |
| `SignaturePaging.AddPage` | chain/solana/src/adapter.rs:78-83 | prepends what is wanted of a page |
| `SignaturePaging.OldEntriesNotWanted` | chain/solana/src/adapter.rs:68-70 | stopping at the first page that ends below the first slot misses nothing |
| `SignaturePaging.WantedIsReversedSelection` | chain/solana/src/adapter.rs:78-83 | the result read backwards is the selection by slot |
| `SignaturePaging.GetConfirmedBlocks` | chain/solana/src/adapter.rs:97-148 | one block per slot with a decoded transaction, holding exactly that slot's transactions in signature order |
| `SignaturePaging.AddBatch` | chain/solana/src/adapter.rs:102-126 | a batch that fails adds nothing; otherwise each decoded transaction joins its slot |
| `SignaturePaging.ToBlocks` | chain/solana/src/adapter.rs:127-147 | one block per group, whatever the order of the map |
| `SignaturePaging.EveryTransactionOnce` | chain/solana/src/adapter.rs:97-148 | no transaction is lost, duplicated or moved to another slot |
| `DataSources.RestoreIffInterchangeable` | chain/ethereum/src/data_source.rs:81-123 | a data source that a handler created, stored and loaded, is itself again if and only if the first and the last template of its name agree |
| `DataSources.UniqueNamesRestore` | chain/ethereum/src/data_source.rs:81-123 | with unique template names it always is |
| `DataSources.NamedFirst` | runtime/wasm/src/host_exports.rs:481-500 | the template that handlers get for a name is a listed one with that name, and is missing exactly if none has it |
| `DataSources.NamedLast` | manager/src/indexer/loader.rs:12-13 | the template that loading gets for a name is a listed one with that name, and is missing exactly if none has it |
| `DataSources.Validate` | chain/ethereum/src/data_source.rs:162-196 | each error exactly when its rule is broken, none exactly for valid data sources |
| `TriggerFilters.LogFilterFromDataSources` | chain/ethereum/src/adapter.rs:114-136 | one entry per event handler, in order |
| `TriggerFilters.CallFilterFromWishes` | chain/ethereum/src/adapter.rs:241-262 | per address the smallest start block and all selectors |
| `TriggerFilters.CallFilterExtend` | chain/ethereum/src/adapter.rs:207-229 | addresses of both filters, smaller start block, union of selectors |
| `TriggerFilters.BlockFilterExtend` | chain/ethereum/src/adapter.rs:322-344 | every-block joins; each address of the filter stays, with its start block lowered to that of a pair for the same address in the other; no address is added |
| `TriggerFilters.BlockFilterFromDataSources` | chain/ethereum/src/adapter.rs:284-320 | every block if some source with an address has an unfiltered block handler; built through extend from an empty filter, it never has addresses |
| `TriggerFilters.Extend` | chain/ethereum/src/adapter.rs:98-105 | extends the three filters; the addresses of the block filter do not change |
| `TriggerFilters.FromDataSources` | chain/ethereum/src/adapter.rs:92-96 | the filter of a list of data sources |
| `TriggerFilters.ExtendIsAppend` | chain/ethereum/src/adapter.rs:92-105 | extending the filter of one list by another list is the filter of the joined list |
| `TriggerFilters.CallFilterAppend` | chain/ethereum/src/adapter.rs:207-262 | the call filter of joined lists is the extension of one by the other |
| `TriggerFilters.CallFilterMeaning` | chain/ethereum/src/adapter.rs:241-262 | an address is listed exactly if some source names it, with exactly the selectors named and the smallest start block |
| `ChainScan.LogStream` | chain/ethereum/src/ethereum_adapter.rs:309-390 | for every way in which the node answers requests and their ranges: each request starts where the stream has got to; the result is that of one unsplit query; it fails only at a request that fails otherwise, or that is for a single block and too heavy; at most as many requests are in vain as the first step has digits, and the one that fails; sums stay within the stated bound |
| `ChainScan.ServedTile` | chain/ethereum/src/ethereum_adapter.rs:336-386 | the requests that succeeded cover what the stream has passed in order, without a gap or an overlap; all others were in vain |
| `ChainScan.TraceStream` | chain/ethereum/src/ethereum_adapter.rs:267-307 | requests of at most the step size that each start where the last one ended and together give one unsplit query; it ends at the first request that fails |
| `ChainScan.QuerySplit` | chain/ethereum/src/ethereum_adapter.rs:309-390 | a query over a range is the queries over its parts, in order |
| `ChainScan.LogsInBlockRange` | chain/ethereum/src/ethereum_adapter.rs:534-552 | the scans of all filters one after the other, each complete before the next; it fails only at a request of the filter in turn that fails otherwise, or that is for a single block and too heavy |
| `ChainScan.LogMultiplicity` | chain/ethereum/src/ethereum_adapter.rs:534-552 | a log in the range is returned once for every filter entry that matches it, and no other log is |
| `ChainScan.MatchingFiltersAreHandlers` | chain/ethereum/src/adapter.rs:114-136 | the matching entries of a log are as many as the event handlers meant for it |
| `ChainScan.LogScanComplete` | chain/ethereum/src/ethereum_adapter.rs:534-552 | every log that some data source accepts is returned |
| `ChainScan.CallsInBlockRange` | chain/ethereum/src/ethereum_adapter.rs:554-589 | the calls of the traces that the call filter keeps; it fails only at a request that fails, and asks for nothing if no address has started |
| `ChainScan.MatchesIffNamed` | chain/ethereum/src/adapter.rs:159-179 | the call filter matches a call exactly if some data source names its address and selector, whatever the start block |
| `ChainScan.CallScanComplete` | chain/ethereum/src/ethereum_adapter.rs:554-589 | every call that some valid data source accepts is returned |
| `ChainScan.CallMultiplicity` | chain/ethereum/src/ethereum_adapter.rs:554-589 | a call of the range is returned as often as it was traced, exactly if the filter matches it and its address has started by the end of the range |
| `ChainScan.CallsOfWildcardAreNotFound` | chain/ethereum/src/adapter.rs:188-205 | a data source without an address never gets a call, whatever its handlers |
| `BlocksWithTriggers.LoadBlocks` | chain/ethereum/src/ethereum_adapter.rs:862-879 | loads if the node knows every hash; one block per hash, ascending |
| `BlocksWithTriggers.GroupByBlock` | chain/ethereum/src/ethereum_adapter.rs:978-988 | per block number its triggers in scan order; the last block of the range is always there |
| `BlocksWithTriggers.Attach` | chain/ethereum/src/ethereum_adapter.rs:990-1006 | succeeds if and only if block numbers are all grouped and strictly ascend; each block gets its triggers, sorted |
| `BlocksWithTriggers.LoadBlocksWithTriggers` | chain/ethereum/src/ethereum_adapter.rs:976-1030 | succeeds if and only if the hashes are known, have different numbers, and each number is in the range and has triggers or ends it; then one block per hash in strictly ascending order with its triggers |
| `BlocksWithTriggers.AgreeingNodeLoads` | chain/ethereum/src/ethereum_adapter.rs:976-1030 | when the node numbers blocks as the triggers do, it succeeds exactly if each number has one hash and all lie in the range |
| `BlocksWithTriggers.EveryTriggerInItsBlock` | chain/ethereum/src/ethereum_adapter.rs:976-1030 | every trigger is in the block of its number, as often as it was scanned, and in no other |
| `BlocksWithTriggers.SingleBlockRange` | chain/ethereum/src/chain.rs:245-266 | the range of one block gives exactly that block: the assertion after the reload never fails |
| `BlocksWithTriggers.LogsReachTheirBlock` | chain/ethereum/src/ethereum_adapter.rs:895-1030 | from the chain to the block: an accepted log is delivered in its block once per matching handler and nowhere else |
| `BlocksWithTriggers.BlockInTransactionOrder` | massbit/src/blockchain/block_stream.rs:22-27 | with log numbers that rise with transactions, the triggers of a block are in transaction order |
| `TriggerScan.RangeIsItsBlocks` | chain/ethereum/src/ethereum_adapter.rs:895-974 | searching a range finds in each block what searching that block alone finds, as often, and besides only calls to addresses that start later in the range |
| `TriggerScan.ScanTriggers` | chain/ethereum/src/chain.rs:228-243 | whatever fails and in whatever order the searches finish: a scan that succeeds delivers rising blocks with everything due in them, as often as due, and leaves out no block in which something is due; it succeeds if every block can be loaded and every request is answered, where requests for the logs of several blocks may be too heavy |
| `TriggerScan.HeaviestAnswers` | chain/ethereum/src/ethereum_adapter.rs:324-390 | for every chain and range there are such answers, even from a node that finds every request for the logs of more than one block too heavy |
| `TriggerScan.Group` | chain/ethereum/src/ethereum_adapter.rs:976-1030 | grouping what was found covers the range, and succeeds if every block can be loaded |
| `Decoding.DecodedIsDue` | chain/ethereum/src/data_source.rs:431-640 | whatever some valid data source decodes, log, call or block, is due in its block for the filter of the whole list |
| `Decoding.DecodedArrives` | chain/ethereum/src/data_source.rs:431-640 | in a range that a scan covers, a trigger that some valid data source decodes comes in its block, as often as it is due |
| `Decoding.EarlyNotDecoded` | chain/ethereum/src/data_source.rs:437-443 | a call before the start of every data source that names it is decoded by none |
| `Decoding.HandlersSeeWhatIsDue` | chain/ethereum/src/data_source.rs:431-640 | whatever range a block was scanned in, its handlers make of it what they make of the triggers due in it, each as often as due |
| `Decoding.LogHandledCount` | chain/ethereum/src/ethereum_adapter.rs:534-552 | a host that decodes a log runs on it once for every event handler of all hosts that is meant for the log, times as often as the log is on the chain and the host in the list |
| `Decoding.OnceIffOneHandler` | chain/ethereum/src/ethereum_adapter.rs:534-552 | for a log that is on the chain once and a host listed once, it runs exactly once if and only if exactly one event handler of all hosts is meant for the log |
| `Decoding.CallHandledCount` | chain/ethereum/src/ethereum_adapter.rs:554-589 | a host that decodes a call runs on it once for every trace of the call, times as often as the host is listed |
| `Handlers.ProcessTriggerInRuntimeHosts` | manager/src/indexer/instance.rs:95-118 | hosts see the trigger in order, each on the state the one before left; the first failure ends it |
| `Handlers.ProcessTriggers` | manager/src/indexer/instance_manager.rs:539-560 | all triggers of a block through all hosts |
| `Handlers.TriggersRunInvocations` | manager/src/indexer/instance.rs:95-118 | processing triggers is running exactly the handlers that decode, one after the other |
| `Handlers.InvocationCount` | manager/src/indexer/instance.rs:95-118 | a host runs on a trigger that it decodes as often as the trigger comes, times as often as the host is listed |
| `Handlers.IdleTriggers` | manager/src/indexer/instance.rs:102-110 | triggers that no host decodes change nothing |
| `Handlers.ResolveMadeHere` | runtime/wasm/src/host_exports.rs:464-510 | requested data sources come from the template handlers get by name, for this block |
| `Handlers.RunTriggersGrows` | massbit/src/components/indexer/instance.rs:77-102 | whatever handlers do, created data sources and errors are only appended and persisted ones are left alone; without hosts nothing changes |
| `IndexerRounds.CreatedHosts` | manager/src/indexer/instance.rs:120-141 | hosts that are added duplicate no earlier host, belong to this block and restore from the store to themselves |
| `IndexerRounds.StepKeeps` | manager/src/indexer/instance_manager.rs:435-492 | a round keeps: hosts only added, none a duplicate, the rows to persist are exactly the new hosts in order; unless it creates nothing more, it hosts an identity that was not hosted |
| `IndexerRounds.RoundsKeep` | manager/src/indexer/instance_manager.rs:435-492 | the same after any number of rounds |
| `IndexerRounds.RoundsEnd` | manager/src/indexer/instance_manager.rs:435-492 | if handlers can name only finitely many data sources the loop ends, at the latest one round after as many as can be named |
| `EndlessRounds.RoundsNeedNotEnd` | manager/src/indexer/instance_manager.rs:427-435 | otherwise it need not: one log of a contract and a handler that creates a data source for the same contract with a longer context keep the loop going forever, with addresses parsed, triggers searched for and logs decoded as elsewhere; there is no limit on the number of data sources, although a comment names one |
| `EndlessRounds.SceneExists` | manager/src/indexer/instance_manager.rs:427-435 | such a chain exists for every hash function and every contract address |
| `IndexerRounds.UniqueNamesSuffice` | manager/src/indexer/loader.rs:12-13 | unique template names give what restoring needs |
| `IndexerStore.LoadDynamicDataSources` | manager/src/indexer/loader.rs:8-30 | restores all rows in order of block and id; the check that creation blocks do not fall never fails |
| `IndexerStore.InOrderLoads` | store/postgres/src/dynds.rs:55-103 | rows that were inserted in block order load in insertion order |
| `IndexerStore.ApplyWrites` | manager/src/indexer/instance_manager.rs:514-536 | the writes of a block, through its cache and its modifications, leave every entity as compacting its operations gives it |
| `IndexerStore.EntitiesAreReplayed` | store/postgres/src/deployment_store.rs:272-303 | after any sequence of commits every stored entity is the replay of all operations written to it, up to Nulls |
| `IndexerStore.EntitiesExact` | store/postgres/src/deployment_store.rs:272-303 | and exactly the replay if each commit meets, for every entity it writes, the condition of `EntityCaches.SavedExactIff` |
| `IndexerStore.RebuildIsExact` | manager/src/indexer/loader.rs:8-30 | when the store agrees with a list of hosts, loading gives exactly its dynamic ones, in order |
| `IndexerStore.CommitKeepsHistory` | store/postgres/src/deployment.rs:135-181 | a commit keeps rows in block order, none beyond the block pointer, and committed block numbers strictly rising |
| `IndexerStore.CommitKeepsSound` | store/postgres/src/deployment_store.rs:272-303 | a committed block leaves the store in agreement with the hosts after its rounds |
| `IndexerLoop.Rebuild` | manager/src/indexer/instance_manager.rs:149-178 | starts if and only if every row restores and every host can be built; hosts are those of the manifest and then the loaded ones, the filter is theirs |
| `IndexerLoop.Indexer.Start` | manager/src/indexer/instance_manager.rs:127-216 | succeeds exactly if every row restores and every host can be built, so from a store that agrees with some hosts exactly if these can be built, and then gives exactly these hosts and their filter |
| `IndexerLoop.Indexer.AddDynamicDataSource` | manager/src/indexer/instance.rs:120-141 | panics exactly if the creation block falls; adds the host at the end exactly if no host is a duplicate |
| `IndexerLoop.Indexer.CreateDynamicDataSources` | manager/src/indexer/instance_manager.rs:562-593 | hosts grow by exactly the data sources returned |
| `IndexerLoop.Indexer.PersistDynamicDataSources` | manager/src/indexer/instance_manager.rs:595-623 | one row per new data source; the filter becomes that of all hosts |
| `IndexerLoop.Indexer.OneRound` | manager/src/indexer/instance_manager.rs:435-492 | one round, with a suspected reorg treated as failure; the filter stays that of the hosts |
| `IndexerLoop.Indexer.RunRounds` | manager/src/indexer/instance_manager.rs:435-492 | all rounds, with termination |
| `IndexerLoop.Indexer.ProcessBlock` | manager/src/indexer/instance_manager.rs:362-537 | a suspected reorg in the first pass changes neither hosts nor filter nor store; any error, deterministic failure or cancellation leaves the store alone; otherwise one commit, after which the store agrees with hosts and filter; without a restart the hosts are unchanged |
| `IndexerLoop.Indexer.CommitBlock` | manager/src/indexer/instance_manager.rs:494-536 | errors, cancellation, unreadable changes and a refused transaction each leave the store as it was |
| `PollingStream.NextRange` | massbit/src/blockchain/polling_block_stream.rs:165-173 | between one block and the maximum, at most ten times the last range, and aimed at the target |
| `PollingStream.PollingBlockStream.Poll` | massbit/src/blockchain/polling_block_stream.rs:192-252 | yields the blocks of contiguous ranges in order, each with everything due in it; nothing is due in a block between the position and the block yielded, and no block ahead in which something is due is lost; it fails only with nothing pending, leaving the stream as it was, and yields if every request is answered and the blocks of one longest range behind the position can be loaded |
| `PollingStream.PollingBlockStream.ScanNext` | massbit/src/blockchain/polling_block_stream.rs:145-187 | scans the range right after the last one, which always yields its last block; a failed scan changes nothing |
| `PollingStream.AheadAfterScan` | massbit/src/blockchain/polling_block_stream.rs:149-173 | the next range joins the last one without a gap |
| `IndexerRun.Turn` | manager/src/indexer/instance_manager.rs:278-336 | one event of the loop: one more block is processed and the stream stays in step with hosts and store, or the run ends for a stated reason with the store unchanged |
| `IndexerRun.RunIndexer` | manager/src/indexer/instance_manager.rs:246-338 | for every run whose handlers can name finitely many data sources, whatever the node answers and the handlers do: each input is one processed block, which is committed unless a handler suspects a reorg, until the run ends, and it ends only if a request is not answered or a block of one longest range behind the position cannot be loaded, on cancellation, or with the error of that block; the store always rebuilds to exactly the hosts of the last commit and their filter; each commit holds what the handlers made of the triggers of its block and of the entities stored before; each block came with everything due for the hosts of its time, and nothing was due for them in a block between two commits; the stored entities are the replay of all committed writes, up to Nulls |
| `IndexerRun.NothingDecodedIsSkipped` | manager/src/indexer/instance_manager.rs:246-338 | between two commits of a run there is no log, call or block on the chain that a valid host of that time decodes |

## Left out

- The entity schema, GraphQL, SQL generation, the API servers and the deployment commands: not part of this model.
- Wire formats, gRPC transport and the Firehose block stream: not part of this model.
- Decoding of Solana transactions and of the ABI parameters of Ethereum logs and calls: whether it succeeds is a parameter of the model.
- The WASM runtime, gas and the cache of instantiated modules in `IndexerInstance`: only the outcome of a handler is modelled.
- The LFU entity cache between blocks: it only saves reads; the model reads the store.
- The history phase of `loop_get_block` in chain-reader/src/solana_chain.rs: marked there as right for one address only.
- Reverting blocks after a reorg: the source has no such step in this loop.
- Time, back-off delays, retries and log output: not observable in the results.
- PollingStream.NextRange: real numbers stand for 64-bit floating point, so rounding of the estimate is not modelled; a maximum range of at least one block is required, where the source would scan empty ranges.
- Decimals.Normalized: the rounding rule of the decimal library is a parameter, so nothing is said about which way a dropped digit rounds.
- IndexerStore.LoadDynamicDataSources: numbers are unbounded, so the conversion of a stored creation block to 32 bits is not modelled; block numbers have 32 bits throughout the source, so it loses nothing there.
- IndexerRun.RunIndexer: handlers can name finitely many data sources, since otherwise a block need not end (`EndlessRounds.RoundsNeedNotEnd`); a run is as long as its list of inputs and reads one fixed chain, so reorganizations of the chain are outside this statement; the search for triggers of new data sources inside a block is any function of their filter.
- TriggerScan.ScanTriggers: filters without addresses of call-filtered block handlers, which are the only ones that data sources give; the branch for such addresses is not modelled.
