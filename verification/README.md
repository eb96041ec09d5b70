# Verified model of the Merkle service core

The service watches for transactions on behalf of callback URLs.  When a block is mined it extracts, subtree by subtree,
Merkle proofs (STUMPs) for the registered transactions, publishes them to a callback topic, and announces
BLOCK_PROCESSED once every subtree has been handled; a delivery service posts those messages to the URLs.  This project
models the parts of it whose correctness is not visible from any one function, and proves what they are for.

- **Ring-buffer cache** (`RingLedger`, `Capacity`, `RecordLayout`, `GenerationTags`, `SlabSizing`, `UnallocatedBucket`,
  `TrimLedger`, `PreallocatedBucket`, `ShardedCache`).  A bucket is a class over real byte arrays with its packed 64-bit index, its
  generation counter and its slab allocator.  It is proved to agree with a ledger that has none of these; the theorems about
  staleness, retention and capacity are then about histories of calls.  The hash is an arbitrary function, so collisions are covered.
- **Registration and dedup caches** (`RegistrationCache`, `DedupCache`).  Lookups through the lossy cache return what the
  store would; the LRU set holds exactly the most recently added keys.
- **STUMPs** (`StumpSpec`, `StumpBuilder`, `StumpCodec`, `SubtreeProcessor`).  A STUMP is specified as a set of entries per
  level; `Build` and `MergeSTUMPs` are loops proved to compute it, a climb along its entries reaches the root, and the BRC-74
  bytes, given literally, decode to it.  The two-argument Merkle hash is an arbitrary function.
- **Block protocol** (`SubtreeCounter`, `CallbackLog`, `BlockProtocol`, `BlockOnce`, `BlockProgress`, `BlockCompletion`) and
  **delivery** (`Delivery`, `DeliveryGate`, `GateCleanup`, `DeliveryFirst`, `DeliveryProgress`, `DeliveryAccount`,
  `DeliveryOutcome`, `DeliveryService`, `DeliveryDrain`, `DeliveryShutdown`, `DeliveryDedup`), composed in `EndToEnd` and
  `EndToEndProgress`.  Both are machines of atomic steps over an append-only partitioned topic; a run is any interleaving, and
  what the network, the clock and the stores do is part of the action.  A step that is not enabled leaves the state as it is.
  Beside what never goes wrong it is proved what can always be got done: from every state of every run a block of which
  nothing was lost can be completed and delivered to every registered URL, every message can be brought to its end, and Stop
  can come to its end.  These are statements about some continuation; nothing is said about fair scheduling.

Conventions.  Machine words are natural numbers below 2^64 with shifts and masks written as arithmetic, and wrap-around is
explicit where it can happen (`GenerationTags.NextGen`).  A Go panic on bad arguments is a precondition: a preallocated bucket
needs a size that is a multiple of the chunk size and a trim ratio from 1 to 100 (`internal/cache/improved_cache.go:1065-1091`),
and `Build` on two or more leaves needs a leaf for every registered index.  A failing `mmap` is a nondeterministic choice, and
a bucket counts as history how often one was refused.

Where comments and code differ the model follows the code: chunks are 1024 bytes, so a slab of 1024 chunks is 1 MB and the
4 MB bound of `calcMaxSlabChunks` never applies; a bucket whose share of the cache is less than one chunk gets eight
chunks, so only a cache of at least 32 chunks stays within its configured size.

Three properties turn out to need a condition, which is stated exactly.

- *Cached registrations.*  The subtree processor looks txids up as `Hash.String()` spells them, in lower case
  (`internal/datahub/client.go:92`), and over any run of such lookups a call returns exactly what the store holds, whatever
  spellings were registered and however answers are evicted, except for txids that an earlier call looked up before they
  were registered (`RegistrationCache.RunCalls`, `RegistrationCache.NeverLateIsExact`).  Such a late registration is really
  missed while the old answer is cached: `RegistrationCache.LookUpAgain`.
- *Truthfulness over all spellings.*  The cache is keyed by decoded txids and the API stores 64 hex digits in either case
  (`internal/api/handlers.go:12`), so the cached answer for an absent lower-case txid also covers an upper-case registration.
  No caller asks for that spelling, so no result is affected; but a cache is truthful of every spelling after one absent
  lookup if and only if the store has no alias of it, provided no mapping is refused (`RegistrationCache.LookUpAbsent`).
- *Round trip.*  A STUMP comes back from its bytes if and only if its height, offsets and counts fit the format, its tree
  height is its number of levels, and every leaf is a 32-byte hash or a bare duplicate
  (`StumpCodec.RoundTripIffEncodable`); those that `Build` makes are.

## Model

| member | source | states |
|---|---|---|
| `RingLedger.HitIsLatest` | internal/cache/improved_cache.go:1509-1661 | For every history of Set, Del and Reset, every hash function and any number of wraps, a hit is the value of the latest Set of that key since its last Del or Reset. |
| `RingLedger.FoundIffRetained` | internal/cache/improved_cache.go:1538-1623 | A pair is found if and only if some Set of exactly that pair is retained: no later Set or Del of its hash, no Reset, cursor of the next generation not past it. |
| `RingLedger.GoneStaysGone` | internal/cache/improved_cache.go:1616-1623 | A record that is no longer retained is never retained again after any further call. |
| `RingLedger.StoreOnlyExpires` | internal/cache/improved_cache.go:1616-1623 | A store never makes an unreadable record readable. |
| `RingLedger.SpotInRing` | internal/cache/improved_cache.go:1541-1574 | The write position lies inside one chunk of the ring, at or past the cursor unless the ring wraps from its last chunk to 0. |
| `RingLedger.SpotExact` | internal/cache/improved_cache.go:1541-1574 | A record that ends before the end of the 1024-byte chunk goes to the cursor; else to the start of the next chunk, and from the last chunk to 0 in the next generation. |
| `RingLedger.FitsExactly` | internal/cache/improved_cache.go:1509-1540 | Set takes exactly the pairs of at most 1019 bytes. |
| `Capacity.RingHolds` | internal/cache/improved_cache.go:1509-1661 | Over every history: a Set that no later call touches is found as long as the later Sets, of at most m bytes each, take together no more than (slots - 1) * (1024 - m). |
| `Capacity.TrimHolds` | internal/cache/improved_cache.go:1182-1329 | The same for the trimmed bucket, with (slots - removed chunks) * (1024 - m). |
| `RecordLayout.ParseRecord` | internal/cache/improved_cache.go:1638-1653 | The lengths, key and value parsed at a record are those written there. |
| `RecordLayout.RecordsAfterStore` | internal/cache/improved_cache.go:1573-1591 | Writing a record leaves every record that is still readable afterwards in place byte for byte. |
| `RecordLayout.ReadRecord` | internal/cache/improved_cache.go:1630-1657 | Reading at a live offset finds the key exactly if it is the stored one, and appends exactly its value. |
| `GenerationTags.PackParts` | internal/cache/improved_cache.go:1596-1621 | The word is the offset plus the low 24 bits of the generation times 2^40, and packing and unpacking are inverse, for any generation counter. |
| `GenerationTags.NextGenTag` | internal/cache/improved_cache.go:1555-1559 | The 64-bit counter that skips tag 0 keeps step with the unbounded generation, across 24-bit and 64-bit overflow. |
| `GenerationTags.LiveIffReadable` | internal/cache/improved_cache.go:1616-1623 | With words at most two generations old, the 24-bit test decides exactly readability: tags never alias. |
| `GenerationTags.CleanedIndexed` | internal/cache/improved_cache.go:1438-1470 | Cleaning after a wrap drops no readable record and leaves only the current and the previous generation. |
| `SlabSizing.CalcMaxSlabChunks` | internal/cache/improved_cache.go:84-117 | A slab is a sixteenth of the bucket, at least 8 and at most 1024 chunks and no more than the ring, in closed form with these numbers; never empty. |
| `SlabSizing.CalcInitialAllocChunks` | internal/cache/improved_cache.go:119-144 | The first slab, in closed form: the whole ring up to 32 chunks, else the slab cap, or a quarter of it if the cap is above 32; never empty. |
| `UnallocatedBucket.Init` | internal/cache/improved_cache.go:1384-1413 | Init succeeds exactly for sizes from 1 byte to below 2^40, and a bucket of at least one chunk has exactly size / 1024 chunks. |
| `UnallocatedBucket.Bucket.Set` | internal/cache/improved_cache.go:1509-1604 | Set keeps the bucket in agreement with its ledger and succeeds exactly for pairs that fit, unless a mapping is refused, which takes a pair that opens a chunk, an empty free list and chunks still unmapped; a failure changes nothing. |
| `UnallocatedBucket.Bucket.Get` | internal/cache/improved_cache.go:1607-1661 | Get finds a key exactly when the ledger has it readable and appends exactly its value. |
| `UnallocatedBucket.Bucket.Del` | internal/cache/improved_cache.go:1762-1766 | Del removes exactly the record under the hash. |
| `UnallocatedBucket.Bucket.Reset` | internal/cache/improved_cache.go:1415-1435 | Reset empties the ledger, unmaps nothing, moves every mapped chunk to the free list, and starts slab growth over. |
| `UnallocatedBucket.Bucket.Locate` | internal/cache/improved_cache.go:1538-1586 | The chunk and offset Set chooses are the ledger's spot, with the generation and the truncation that go with it. |
| `UnallocatedBucket.Bucket.CleanLockedMap` | internal/cache/improved_cache.go:1438-1470 | The map afterwards holds exactly the live words, whichever of the two branches is taken. |
| `UnallocatedBucket.Bucket.GetChunk` | internal/cache/improved_cache.go:1681-1750 | Mapped chunks equal free, occupied and handed-out ones and never exceed the ring; the next slab is twice the last up to the cap; only a refused mapping fails, never once all chunks are mapped, so the at-maxChunks error is unreachable and no slab is empty. |
| `UnallocatedBucket.Bucket.GetByHistory` | internal/cache/improved_cache.go:1509-1661 | On a bucket, whatever calls led to it: a hit is the latest Set of the key, and a pair is found if and only if some Set of it is retained. |
| `UnallocatedBucket.Bucket.HoldsRecent` | internal/cache/improved_cache.go:1509-1661 | On a bucket: Get finds the pair of a Set untouched since, while the Sets after it take no more room than the other chunks have. |
| `TrimLedger.FoundIsLatest` | internal/cache/improved_cache.go:1182-1329 | The trimmed bucket is never stale, for every history and hash function, trims included. |
| `TrimLedger.FoundIffStillThere` | internal/cache/improved_cache.go:1182-1329 | A pair is found if and only if some Set of exactly that pair is untouched and at or above the floor. |
| `TrimLedger.TrimDropsExactly` | internal/cache/improved_cache.go:1221-1245 | A store drops exactly the other records in removed chunks, and nothing unless it trims. |
| `TrimLedger.PutExact` | internal/cache/improved_cache.go:1182-1245 | A record goes to the end of the log if it ends inside that chunk, else to the next; the floor rises by the removed chunks exactly when the ring is full. |
| `PreallocatedBucket.ShiftShelved` | internal/cache/improved_cache.go:1225-1233 | Shifting chunks down leaves every surviving record readable at its rebased offset. |
| `PreallocatedBucket.RebasedMapped` | internal/cache/improved_cache.go:1109-1127 | Rebasing keeps exactly the words of surviving records, each pointing at its moved record. |
| `PreallocatedBucket.ChunksToRemove` | internal/cache/improved_cache.go:1222-1223 | The rounded-up share of chunks to drop is at least one and at most all. |
| `PreallocatedBucket.Bucket.Set` | internal/cache/improved_cache.go:1182-1273 | Set succeeds exactly for pairs that fit, and its shelf gains the record after any trim. |
| `PreallocatedBucket.Bucket.Get` | internal/cache/improved_cache.go:1276-1329 | Get finds a key exactly when its record is on the shelf, and appends exactly its value. |
| `PreallocatedBucket.Bucket.GetByHistory` | internal/cache/improved_cache.go:1182-1329 | On a bucket, whatever calls led to it: a hit is the latest Set of the key, and a pair is found if and only if some Set of it is still there. |
| `PreallocatedBucket.Bucket.HoldsRecent` | internal/cache/improved_cache.go:1182-1329 | On a bucket: Get finds the pair of a Set untouched since, while the Sets after it take no more room than the chunks one trim leaves. |
| `PreallocatedBucket.Bucket.Trim` | internal/cache/improved_cache.go:1221-1245 | The two shift loops and the map rebuild together raise the floor and nothing else. |
| `PreallocatedBucket.Bucket.Reset` | internal/cache/improved_cache.go:1093-1102 | Reset empties the index; the old bytes stay and are never found again. |
| `ShardedCache.InterleavingIrrelevant` | internal/cache/improved_cache.go:448-486 | Any interleaving in which each bucket gets its batch in list order leaves all buckets as setting the pairs one by one does. |
| `ShardedCache.DoneIsListOrder` | internal/cache/improved_cache.go:448-486 | What SetMulti leaves in each bucket is what setting all pairs in list order leaves there. |
| `ShardedCache.Cache.SetMulti` | internal/cache/improved_cache.go:448-486 | With goroutines in any order, every bucket ends as its own pairs in list order leave it; every pair has an outcome, and without a refused mapping exactly the pairs that fit are stored. |
| `ShardedCache.SetBatch` | internal/cache/improved_cache.go:1496-1506 | A bucket applies its batch in order; a fitting pair is left out only for a refused mapping, when it opens a chunk, and none is once all chunks are mapped. |
| `ShardedCache.Cache.Set` | internal/cache/improved_cache.go:334-339 | Set touches exactly the bucket of the key's hash and stores exactly the pairs that fit, unless that bucket has a mapping refused. |
| `ShardedCache.Cache.Get` | internal/cache/improved_cache.go:500-515 | Get answers from the bucket of the key's hash. |
| `ShardedCache.Cache.GetByHistory` | internal/cache/improved_cache.go:334-552 | Over any run of Set, SetMulti, Del and Reset on the cache a hit of Get is the key's latest successfully set value, and a pair is found exactly while some Set of it is retained. |
| `ShardedCache.Cache.Del` | internal/cache/improved_cache.go:538-542 | Del removes the record under the key's hash in its bucket and nothing else. |
| `ShardedCache.Cache.Reset` | internal/cache/improved_cache.go:548-552 | Every bucket is emptied. |
| `ShardedCache.New` | internal/cache/improved_cache.go:266-310 | New succeeds exactly for positive sizes that fit the index word, with 32 empty buckets of exactly their share of chunks, or eight if that is none. |
| `ShardedCache.BatchIsLossy` | internal/cache/improved_cache.go:1496-1506 | After a batch a key shows a pair of the batch, what it showed before, or nothing. |
| `RegistrationCache.FindRegisteredTxids` | internal/subtree/processor.go:371-428 | The result is the store's answer for every txid not cached as unregistered, hence for all with a truthful cache; error and partial result are exact; the cache is updated by one batch of marks for the found txids and one for the absent ones, in list order, and not at all on an error; for lower-case txids it then denies nothing but what it denied before and the absent ones of the list, and without a refused mapping it shows the last of each. |
| `RegistrationCache.RunCalls` | internal/subtree/processor.go:371-428 | In any run of lower-case lookups from a new cache, with the store changing in between, a call returns the store's answer and misses only txids that an earlier call looked up before they were registered. |
| `RegistrationCache.NeverLateIsExact` | internal/subtree/processor.go:371-428 | Without such late registrations every call of a run returns exactly the store's BatchGet. |
| `RegistrationCache.LookUpAgain` | internal/subtree/processor.go:371-428 | After an absent lookup, without a refused mapping, the next lookup of that txid returns the store's answer if and only if it is still not registered. |
| `RegistrationCache.LookUpPresent` | internal/subtree/processor.go:391-408 | After looking up a registered, uncached txid, without a refused mapping, the cache answers that it is registered. |
| `RegistrationCache.DeniesOnly` | internal/subtree/processor.go:391-408 | Marking registered txids denies nothing new; marking lower-case txids as not registered denies at most those, for any store. |
| `RegistrationCache.TxidStringIsLower` | internal/datahub/client.go:82-97 | Every txid the subtree processor looks up is two lower-case hex digits per byte, from the last byte to the first, and decodes to the reversed hash. |
| `RegistrationCache.HexDigits` | internal/cache/registration_cache.go:97-101 | The characters that decode are the sixteen hex digits in either case, each to its value. |
| `RegistrationCache.LookupsCombine` | internal/subtree/processor.go:374-427 | The lookup of uncached txids and that of cached-registered ones together equal one lookup of all; stale or evicted answers cannot matter. |
| `RegistrationCache.UpperHexAliases` | internal/api/handlers.go:12 | Two 64-digit txids that the API accepts, in lower and upper case, share one cache key. |
| `RegistrationCache.SameKeyIffSameDigits` | internal/cache/registration_cache.go:97-101 | Two strings share a cache key exactly if they have the same hex digits. |
| `RegistrationCache.LookUpAbsent` | internal/subtree/processor.go:371-428 | Looking up one absent, uncached txid in a cache truthful of every spelling, without a refused mapping, leaves it so if and only if the store has no alias of it. |
| `RegistrationCache.AliasBreaksTruth` | internal/subtree/processor.go:391-408 | A readable mark of an absent txid with an alias in the store makes the cache untruthful of that spelling. |
| `RegistrationCache.RegCache.GetCached` | internal/cache/registration_cache.go:97-111 | The answer is that of the cached value, and not cached for malformed, evicted or empty entries. |
| `RegistrationCache.RegCache.FilterUncached` | internal/cache/registration_cache.go:114-124 | Returns the uncached txids in order and exactly those cached as registered. |
| `RegistrationCache.RegCache.SetMultiAs` | internal/cache/registration_cache.go:59-93 | The marks of the decodable txids are set in list order, all of them unless a mapping is refused; each key afterwards shows a mark of the list, what it showed before, or nothing. |
| `DedupCache.RecentIsByRecency` | internal/cache/dedup_cache.go:32-55 | The recency list holds exactly the keys ever added, ordered by their last Add. |
| `DedupCache.HeldExactly` | internal/cache/dedup_cache.go:32-55 | A key is among the n most recent exactly if it was added and fewer than n other keys were added after its last Add. |
| `DedupCache.Cache.Add` | internal/cache/dedup_cache.go:32-55 | True exactly when the key is not among the maxSize most recently added distinct keys; map and list stay in agreement with that list. |
| `DedupCache.Cache.Contains` | internal/cache/dedup_cache.go:58-63 | True exactly for those keys, without changing the order. |
| `DedupCache.Cache.Len` | internal/cache/dedup_cache.go:66-70 | The number of those keys, never above maxSize. |
| `StumpSpec.ProofReachesRoot` | internal/stump/builder.go:37-158 | For every tree, hash function and registered set, climbing from any registered leaf with the emitted entries ends at the root. |
| `StumpSpec.ProofBindsLeaf` | internal/stump/builder.go:37-158 | Another hash that also climbs to the root at that offset gives, at some level of the STUMP, two different pairs that both climbs hash to one value: the collision itself. |
| `StumpSpec.ClimbBinds` | internal/stump/builder.go:37-158 | Two climbs along the same entries that start apart and end alike hash different pairs to one value at the returned level. |
| `StumpSpec.StumpUnique` | internal/stump/builder.go:89-155 | There is one STUMP per registered set, so map iteration order cannot show. |
| `StumpSpec.RealNodePresent` | internal/stump/builder.go:59-80 | Every real node of the padded layout is where the level offsets say. |
| `StumpSpec.NeededExactly` | internal/stump/builder.go:89-155 | The path nodes of a level are exactly the nodes above a registered leaf. |
| `StumpSpec.OffsetsExactly` | internal/stump/builder.go:89-155 | A level lists exactly the siblings of the nodes above registered leaves, and level 0 the registered leaves too. |
| `StumpSpec.RealCountExactly` | internal/stump/builder.go:94-155 | A level has exactly as many real nodes as it takes to cover the leaves with 2^level to a node. |
| `StumpSpec.NodePosition` | internal/stump/builder.go:59-80 | Real node i of level k is internal node 2^h - 2^(h - k + 1) + i. |
| `StumpSpec.EntryExactly` | internal/stump/builder.go:95-143 | An entry is a real node with its hash, flagged as txid exactly for a registered leaf, or a bare duplicate exactly past the last real node. |
| `StumpBuilder.TreeShape` | internal/stump/builder.go:42-49 | The next power of two and the number of levels belong together and are the least that cover the leaves. |
| `StumpBuilder.FetchNode` | internal/stump/builder.go:61-80 | The summed level offsets find the node of the layout, or none. |
| `StumpBuilder.BuildLevel` | internal/stump/builder.go:89-155 | One level lists exactly the siblings and registered leaves in offset order, and passes on exactly the parents. |
| `StumpBuilder.Build` | internal/stump/builder.go:37-158 | Nothing exactly for no leaves or no registered index, else the STUMP of the registered indices. |
| `StumpBuilder.MergeStumps` | internal/stump/builder.go:203-243 | At every level, by offset, one leaf per offset listed anywhere: the first one flagged as txid in the order the STUMPs list them, or the first of all if none is; height and number of levels of the first STUMP. |
| `StumpBuilder.MergeIsBuildOfUnion` | internal/stump/builder.go:203-243 | Merging the STUMPs of several sets over one tree equals building once for their union. |
| `StumpBuilder.SortByOffset` | internal/stump/builder.go:145-149 | Ascending, with exactly the same leaves. |
| `StumpCodec.CompactSizeInverse` | internal/stump/builder.go:269-286 | Reading a CompactSize integer gives back every 64-bit value and the rest of the data. |
| `StumpCodec.CompactSizeBytes` | internal/stump/builder.go:269-286 | The shortest of the four forms: v itself up to 252, else 0xFD, 0xFE or 0xFF and 2, 4 or 8 bytes that are v in little endian, by the ranges of the format. |
| `StumpCodec.LeafBytes` | internal/stump/builder.go:176-194 | A leaf is its offset, the byte 1 for a duplicate, 2 for a txid and 0 otherwise, and its hash unless duplicate. |
| `StumpCodec.StumpBytes` | internal/stump/builder.go:161-200 | A STUMP is its block height, one byte of tree height, and per level the number of leaves and the leaves. |
| `StumpCodec.TwoLeafExample` | internal/stump/builder.go:161-200 | All the bytes of a STUMP of two leaves. |
| `StumpCodec.DecodesFlags` | internal/api/dashboard.html:374-398 | The decoder accepts exactly the flag bytes 0, 1 and 2, with 32 bytes of hash after 0 and 2, and reads from them what they mean. |
| `StumpCodec.Encode` | internal/stump/builder.go:161-200 | The loops write the binary form, level by level and leaf by leaf. |
| `StumpCodec.RoundTrip` | internal/api/dashboard.html:374-398 | Decoding the bytes of an encodable STUMP gives it back and leaves whatever follows. |
| `StumpCodec.RoundTripIffEncodable` | internal/stump/builder.go:161-200 | A STUMP comes back from its bytes if and only if it is encodable. |
| `StumpCodec.BuiltRoundTrips` | internal/stump/builder.go:37-200 | Every STUMP of a tree of 32-byte hashes is encodable and round-trips with nothing left over. |
| `SubtreeProcessor.GroupByCallback` | internal/stump/builder.go:247-254 | Every URL gets each txid as often as the txid lists it, and nothing else. |
| `SubtreeProcessor.FindRegistered` | internal/block/subtree_processor.go:68-113 | Exactly the registrations of the subtree's txids, and of every registered txid the last leaf that carries it. |
| `SubtreeProcessor.ParseRawNodes` | internal/datahub/client.go:99-109 | An error unless the data is a whole number of 32-byte hashes; else byte j of hash i is byte 32 * i + j of the data. |
| `SubtreeProcessor.ProcessBlockSubtree` | internal/block/subtree_processor.go:43-152 | Fails exactly for missing or malformed data, a failing registration store or a failing tree; nothing for an empty subtree or one without registered txids; else the encoded STUMP of the registered leaves and, by URL, every txid as often as its registration lists that URL. |
| `SubtreeProcessor.PublishedProofsHold` | internal/block/subtree_processor.go:71-129 | For two or more leaves, every txid of every group is a txid-flagged level-0 leaf of the decoded bytes, from which the decoded levels lead to the root. |
| `SubtreeCounter.AtMostOneZero` | internal/store/sql/subtree_counter.go:25-74 | Between two Inits of a block at most one Decrement returns 0, in any interleaving and whatever expires. |
| `SubtreeCounter.CountsDown` | internal/store/sql/subtree_counter.go:25-74 | While the row lives it is the initial count less the Decrements. |
| `SubtreeCounter.Store.Decrement` | internal/store/sql/subtree_counter.go:39-74 | Takes one off and returns what remains; an error and no change without a row. |
| `SubtreeCounter.Store.Init` | internal/store/sql/subtree_counter.go:25-33 | Sets the row, whether or not there was one. |
| `BlockProtocol.RunKeepsInv` | internal/block/processor.go:162-200 | In every interleaving, with publications and decrements failing before or after taking effect, each row is what its items still owe, items are in one place, and the topic is in order. |
| `BlockProtocol.OneEmitter` | internal/block/subtree_worker.go:168-184 | A counter is at 0 exactly when all items have decremented; exactly one item brought it there, with none still publishing or queued; only that item emits, unless its Decrement took effect and the answer was lost. |
| `BlockProtocol.NoStumpAfterBlockProcessed` | internal/block/subtree_worker.go:168-184 | No STUMP of a block follows a BLOCK_PROCESSED of that block in the topic, and every message is in its URL's partition. |
| `BlockOnce.OneBlockProcessedPerUrl` | internal/block/subtree_worker.go:237-277 | If the registry lists every URL once, the topic holds at most one BLOCK_PROCESSED per block and URL. |
| `BlockProgress.EveryStumpPublished` | internal/block/subtree_worker.go:193-233 | In every run: an item past publishing, with no publication of its own failed, has a STUMP in the topic for every URL it was given. |
| `BlockProgress.EveryUrlTold` | internal/block/subtree_worker.go:173-184 | In every run: the item whose answered Decrement brought the counter to 0 goes on to emit, and once finished, with no publication of its own failed, has told every URL registered then. |
| `BlockCompletion.BlockCanComplete` | internal/block/subtree_worker.go:168-184 | From every state of every run in which no dispatch and no decrement of an announced block was lost, some continuation finishes all its items, brings the counter to 0 and, if it was not there before, tells every registered URL. |
| `BlockCompletion.AnnouncedStays` | internal/block/processor.go:162-172 | An announced block stays announced, with the count it was announced with first. |
| `BlockCompletion.LostNeverCompletes` | internal/block/processor.go:173-200 | In every run: once a dispatch or a decrement of a block has failed, its counter never reaches 0 and no BLOCK_PROCESSED of it is ever published. |
| `BlockCompletion.PublishedExactly` | internal/block/subtree_worker.go:214-277 | Whichever publications of a loop over URLs fail, the loop gets to its end, and exactly the messages whose publication succeeded are new in the topic. |
| `Delivery.GateKeysDistinct` | internal/callback/delivery.go:80-82 | Gate keys are equal exactly for equal block and URL, as block hashes contain no bar. |
| `Delivery.DedupKeysDistinct` | internal/callback/delivery.go:739-750 | The dedup key of a STUMP or BLOCK_PROCESSED is that of another message exactly if type, block, URL and, for STUMPs, subtree index agree. |
| `DeliveryGate.StepKeepsInv` | internal/callback/delivery.go:332-556 | Every step of consumers, workers, timers and Stop keeps exact gate counts, FIFO order of untaken messages, one owing worker per running STUMP, and the posting order. |
| `DeliveryGate.WaitsForRunningWorkers` | internal/callback/delivery.go:363-393 | Whatever a BLOCK_PROCESSED waits for is being processed by another worker that is not itself waiting. |
| `DeliveryGate.BusyMoves` | internal/callback/delivery.go:376-556 | A busy worker that is not waiting at a gate can take its next step. |
| `DeliveryGate.NeverStuck` | internal/callback/delivery.go:376-393 | For any number of workers, if one is busy then some busy worker is not waiting. |
| `DeliveryProgress.WorkNeverGrows` | internal/callback/delivery.go:110-121 | While a BLOCK_PROCESSED waits at its gate, no step of anyone adds to the steps left to the workers it waits for. |
| `DeliveryProgress.OwingStepDecreases` | internal/callback/delivery.go:384-393 | Every step of a worker that owes the gate a Done reduces them. |
| `DeliveryProgress.GateOpens` | internal/callback/delivery.go:110-121 | Steps of other workers, no more than they have left, open the gate with the waiting worker still at it. |
| `DeliveryFirst.StepOver` | internal/callback/delivery.go:384-556 | Every step keeps: a message marked as past its first attempt has ended or has been scheduled for a retry. |
| `GateCleanup.StepClean` | internal/callback/delivery.go:84-121 | Every step keeps: a gate that has been passed is gone, or a worker is about to delete it; no consumer opens it again. |
| `DeliveryAccount.StepPlaces` | internal/callback/delivery.go:332-556 | Every step keeps each accepted message in one place and moves at most one. |
| `DeliveryAccount.StepJobs` | internal/callback/delivery.go:408-521 | Every step keeps attempts, failed dedup checks, RetryCount and backoff in step. |
| `DeliveryOutcome.RunKeepsInv` | internal/callback/delivery.go:271-556 | Places, attempts, counters, shutdown and deduplication hold over every run, whatever is published. |
| `DeliveryOutcome.ExactlyOnePlace` | internal/callback/delivery.go:332-556 | An accepted message is exactly once pending, queued, held, parked or ended; nothing else is anywhere. |
| `DeliveryOutcome.CountersAgree` | internal/callback/delivery.go:384-556 | processed, deduped, failed and parked equal the numbers of messages that ended so and of live timers. |
| `DeliveryOutcome.AttemptsBounded` | internal/callback/delivery.go:432-497 | No message gets more than MaxRetries + 1 delivery attempts, though failed dedup checks may reschedule it any number of times. |
| `DeliveryOutcome.ExhaustedAfterAll` | internal/callback/delivery.go:481-521 | A message that ran out of retries without a failed dedup check had exactly MaxRetries + 1 attempts and base * M * (M + 1) / 2 of backoff. |
| `DeliveryOutcome.NoSendAfterClose` | internal/callback/delivery.go:271-285 | No retry timer sends on the closed work channel, in any interleaving with Stop, including timers created while Stop runs. |
| `DeliveryOutcome.DedupedWasDelivered` | internal/callback/delivery.go:402-425 | A message skipped as a duplicate has the dedup key of one delivered before, or a key the store knew from the start. |
| `DeliveryService.DroppedOnlyByStop` | internal/callback/delivery.go:525-556 | In every run a message is dropped only after Stop has been called. |
| `DeliveryService.OnlyStumpsFailForGood` | internal/callback/delivery.go:465-480 | In every run only a STUMP ends as permanently failed. |
| `DeliveryService.ChannelBounded` | internal/callback/delivery.go:227 | In every run the work channel keeps within its capacity. |
| `DeliveryDrain.SomethingDrains` | internal/callback/delivery.go:332-556 | While the service runs and anything is left to do, some step takes work away and gives no message up. |
| `DeliveryDrain.Drain` | internal/callback/delivery.go:332-556 | From every state of a running service, steps of consumers, workers and timers lead to one with nothing left, and what ends on the way is delivered or known to have been. |
| `DeliveryDrain.RetryReturns` | internal/callback/delivery.go:501-556 | A failed attempt with retries left, while the service runs and the channel has room, is scheduled, fires and stands at the end of the channel with RetryCount one higher. |
| `DeliveryDrain.UncheckedReturns` | internal/callback/delivery.go:404-416 | So does a message whose dedup check fails, whatever its RetryCount, without an attempt. |
| `DeliveryShutdown.StopEnds` | internal/callback/delivery.go:271-285 | From every state of the service, steps of workers, timers and Stop lead to a closed, empty channel with no timer left and all workers gone. |
| `DeliveryDedup.DeliveredNotRepeated` | internal/callback/delivery.go:402-455 | Once a dedup key is recorded and no attempt for a message with it is under way, none is posted in any continuation in which the store does not forget the key. |
| `DeliveryDedup.RecordedIsSettled` | internal/callback/delivery.go:428-445 | A successful attempt that is recorded puts the key of its message into the store. |
| `DeliveryDedup.RecordedNotRepeated` | internal/callback/delivery.go:402-455 | In every run: after a recorded delivery, with no other attempt for its key under way, no message with that key is posted in any continuation in which the store does not forget it. |
| `EndToEnd.BlockProcessedAfterStumps` | internal/callback/delivery.go:363-393 | In every interleaving of block workers and delivery, a BLOCK_PROCESSED is posted only after every STUMP ever published for its block and URL has finished its first attempt. |
| `EndToEnd.OneEndPerBlockAndUrl` | internal/block/subtree_worker.go:237-277 | In every composed run with a registry without repetitions, at most one BLOCK_PROCESSED per block and URL ever ends, so at most one is delivered. |
| `EndToEnd.BlockSideIsARun` | internal/block/subtree_worker.go:168-184 | The block side of a composed run is a run of the block protocol, so all its theorems apply. |
| `EndToEnd.NoDeadlock` | internal/callback/delivery.go:84-121 | In every run, whenever a worker is busy some busy worker can step. |
| `EndToEnd.WaitIsReleased` | internal/callback/delivery.go:84-121 | In every run a waiting BLOCK_PROCESSED is released by a bounded number of steps of other delivery workers. |
| `EndToEnd.GateExact` | internal/callback/delivery.go:84-121 | The gate counts are exact in every run of the composed system. |
| `EndToEnd.DeliverySideIsARun` | internal/callback/delivery.go:332-373 | The delivery side of a composed run is a run of the delivery machine, so all its theorems apply. |
| `EndToEnd.CounterRefined` | internal/block/subtree_worker.go:168-184 | Each step of the protocol acts on its counters as one operation on the counter table does. |
| `EndToEnd.CounterRun` | internal/block/subtree_worker.go:168-184 | Over every run the protocol's counters are the counter table after the run's operations, and a block is brought to 0 exactly if some Decrement of it returned 0. |
| `EndToEnd.OneZeroPerBlock` | internal/store/sql/subtree_counter.go:25-74 | In every run of the protocol at most one Decrement of a block returns 0. |
| `EndToEndProgress.NoStumpInFirstAttempt` | internal/callback/delivery.go:363-393 | In every composed run: while a BLOCK_PROCESSED is being posted, every STUMP ever published for its block and URL has ended or has been scheduled for a retry. |
| `EndToEndProgress.NoGateLeft` | internal/callback/delivery.go:110-121 | In every composed run: a BLOCK_PROCESSED that has passed leaves no gate behind, save while a worker is about to delete it. |
| `EndToEndProgress.FailedIsRetried` | internal/callback/delivery.go:481-556 | In every composed run: an attempt that fails with retries left, while the service runs and the channel has room, leads by steps of its worker and timer back into the channel. |
| `EndToEndProgress.UncheckedIsRetried` | internal/callback/delivery.go:404-416 | The same for a failed dedup check. |
| `EndToEndProgress.MissingBlobEnds` | internal/callback/delivery.go:465-480 | In every composed run: a STUMP whose blob is gone ends as failed for good without being posted, and its gate stops counting it when its worker returns. |
| `EndToEndProgress.EverythingCanEnd` | internal/callback/delivery.go:332-556 | From every state of every composed run of a running service, every message of the topic can be brought to its end with none given up on the way. |
| `EndToEndProgress.StopCanEnd` | internal/callback/delivery.go:271-285 | From every state of every composed run Stop can come to its end: channel closed and empty, workers and timers gone, no panic, and every accepted message ended unless a consumer still holds it. |
| `EndToEndProgress.BlockCanBeDelivered` | internal/block/subtree_worker.go:168-277 | From every state of every composed run, while the service runs, a block of which nothing was lost and which has not reached 0 can be completed and its BLOCK_PROCESSED delivered, or found delivered, at every registered URL, whatever failed before. |

## Left out

- The machines `BlockProtocol` and `Delivery` are on values: what is updated in place there (retry fields, wait groups, atomic counters) is state of the machine, and aliasing is not modelled.
- `stumpGate.Wait` looks up and waits in one step and deletes in another; the lookup and the wait are not separated.
- Kafka redelivery and crashes: each work item is handled at most once and each callback message accepted once; a second Init of a running block's counter is covered by `SubtreeCounter` only.
- Callback messages that arrive with a retry time in the future (`internal/callback/delivery.go:352-361`): the service no longer publishes such messages.
- The consumer racing with Stop: the consumer is stopped after the channel is closed, so the shutdown theorem is about timers.
- DeliveryOutcome.AttemptsBounded: every call of `deliverCallback` that does not fail permanently counts as an attempt, also one that fails to read the STUMP blob for a moment and sends no request.
- The dead-letter publish with its own four attempts (the comment at `internal/callback/delivery.go:558-561` says three), and the messagesRetried total.
- Dedup keys of messages about transactions (a txid, or a hash of several) are an arbitrary function of the message; a dedup store that is not configured is one that is empty and never records.
- SubtreeProcessor.ProcessBlockSubtree: storing fetched data for later and the TTL updates, whose failures are only logged, are not modelled; a failed subtree is one without URLs in `BlockProtocol`.
- RegistrationCache.FindRegisteredTxids: the branch without a cache, which is one plain store lookup.
- StumpSpec.ProofReachesRoot: the tree's layout is a precondition; the builder of the internal nodes, SHA-256 and xxhash are outside.  Leaf counts are bounded by 2^62, the largest power of two in a Go int.
- StumpCodec.RoundTrip: the dashboard's decoder works in JavaScript numbers, which lose precision above 2^53; the model's decoder is exact.
- StumpBuilder.SortByOffset: insertion sort stands for the library sort.
- PreallocatedBucket.ChunksToRemove: the floating-point ceiling is taken as exact.
- `bucketTrimmed`, `SetMultiKeysSingleValue` and its appended form, `Has`, and the statistics: nearly the same code again, or declared estimates.
- SetMulti's locking is modelled as whole batches per bucket; `ShardedCache.InterleavingIrrelevant` covers finer interleavings.
- Storage back ends, HTTP, p2p, configuration, dashboards and scale tests: input and output, or easy members.
