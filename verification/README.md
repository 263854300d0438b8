# nuraft_mesg: a verified model

nuraft_mesg puts NuRaft on top of gRPC. This project models the parts of it whose correctness does
not follow from reading one function, and proves what they promise:

- **Log stores.** `LogSpec` is the indexed log that a Raft log store is meant to be. The
  database-backed store (`LogCache`, `JungleDb`, `JungleStore`, `JungleRuns`, with its byte formats in
  `Serializer`, `EntryCodec`, `PackFormat`) and the in-memory store (`InMemStore`, `InMemRuns`) are
  proved to refine it over whole runs, and `StoreAgreement` proves which calls keep the two in step and
  which reads they then answer alike.
- **Durability.** `FlushProtocol` is the protocol between callers that wait for their entries to be
  synced and the thread that syncs them. `FlushPromise` proves what keeps the promise made to a caller,
  `FlushProgress` that the thread can always finish, and `FlushExact` that nothing weaker keeps it.
- **CRC-32.** `ShiftRegister`, `CrcRegister` and `Crc32` prove the slicing-by-8 loop equal to the
  bit-at-a-time CRC of section 8 of RFC 1952.
- **Shared memory.** `SharedPointer` is the lock-and-CAS shared pointer and `LatencyCollector` the
  copy-on-write map built on it, both under every interleaving of their atomic steps. `PointerCalls` and
  `LatencyCalls` say what whole calls of the two do, and `PointerLocks` which of them wait for ever.
  `Histogram` is what the collector stores samples in.
- **RPC clients.** `ClientModel` is the two-level cache of clients as a state machine, with the calls of
  different groups interleaved, `ClientRuns` what holds of all its runs, and `ClientCache` the fields and
  methods that make its steps. `Redirect` is a request that follows the leader.
- **RPC dispatch.** `Dispatch` is the way of an incoming message through the two thread pools, and
  `DispatchProgress` proves that it can always be finished.

`MapSum` holds sums over finite maps, which the counting arguments use, and `Options` optional values.

What the source does step by step on its own fields is a class with methods, each proved against a
function of the values before it. Concurrent protocols are state machines with one event per atomic
step; the theorems about them quantify over every sequence of events. Nothing here was executed.

## Reading guide

The main results, each with what it is compared to:

- `JungleRuns.Observe`: what a cached store returns after any sequence of calls, rollbacks and failed
  purges included, is what the plain log holds, for as long as there is one. `JungleRuns.CachedAfter` computes
  from the calls and the limits where the cached part of the log begins, and `JungleRuns.Compare` says
  through it exactly when two settings of the limits give different answers.
- `InMemRuns.Observe`: the same for the in-memory store, for every sequence of calls at any index;
  `InMemStore.PackEffect` and `InMemStore.WriteEffect` say exactly which calls leave it a log.
- `StoreAgreement.Agree`: calls that keep the stores in step leave both with the plain log; the other calls
  are exactly those of `StoreAgreement.StepApart`. Range reads with a hint agree if and only if payload
  sizes and container sizes reach the hint alike.
- `Crc32.Get`: the table-driven loops compute `Crc32.Reference`.
- `Crc32.BitBurst`, `Crc32.ByteBurst`: a difference within 32 bits, or four bytes, always shows.
- `SharedPointer.Sound`: reference counts are exact in every interleaving, and nothing freed is touched.
  `PointerCalls.Assigns`, `PointerCalls.Resets`, `PointerCalls.Exchanges`: what a call leaves in the slots.
  `PointerLocks.Deadlock`: exactly when calls wait for each other for ever.
- `LatencyCollector.NothingLost`, `LatencyCollector.ItemsStay`: no sample is lost or counted twice.
  `LatencyCalls.CallEnds`: a call is recorded once, or has failed exactly 17 times.
- `FlushPromise.Protocol`: in every run of harmless events a call returns only with its records on disk.
  `FlushExact.Exact`: an event is harmless if and only if no harmless continuation breaks a promise.
- `FlushProgress.Served`, `FlushProgress.Progress`: from any state the flush thread alone answers any
  request whose records are written.
- `ClientRuns.Returns`, `ClientRuns.CreateIsNewest`, `ClientRuns.SameWrapper`, `ClientRuns.LetGo`,
  `ClientRuns.NeverAgain`: where the transport and the identity of every client come from, in every
  interleaving of calls of any number of groups; `ClientCache.Interleave` ties the runs to the class.
- `Redirect.Drive`, `Redirect.Request.OnReply`: a redirected request is settled once, and exactly which
  replies the handler copes with.
- `Dispatch.Dispatched`, `DispatchProgress.AllAnswered`: every message gets exactly one response.

Nine promises turn out to be false of the code. For each, the members named first show a failing run, and
the member named last states exactly when the promise holds:

- A returned `end_of_append_batch` means that the batch is on disk. Not after a rollback, which does not
  reset the durable mark (`FlushExact.RollbackBreaksThePromise`), and not when the last record was
  overwritten in place, which needs no rollback (`FlushExact.OverwriteBreaksThePromise`);
  `FlushExact.Exact`.
- Compaction past the end of the database-backed store leaves a dummy record behind, which readers get as
  an entry in front of whatever is appended later, unless the purge succeeds
  (`JungleRuns.CompactionLeavesDummy`; `JungleStore.Store.Compact`).
- A pack applied to a purged database-backed store at another index leaves a gap, and the start index stays
  in front of it (`JungleRuns.PackAfterPurge`, `StoreAgreement.Differ`; `JungleStore.Store.ApplyPack`).
- The cache makes no difference to a reader. A size hint cuts a range of two entries that are
  cached and not one that is read from the database (`JungleRuns.CachedRangeIsCut`;
  `JungleRuns.CacheShows`).
- A pack can be applied to an in-memory store. Behind a gap it makes the next slot one of its own indices,
  so that the next append overwrites an entry (`InMemRuns.EntryLost`, `InMemRuns.PackBehindGap`), and at
  index 0 it takes the place of the dummy that missing entries read as (`InMemRuns.PackOverDummy`;
  `InMemStore.Store.ApplyPack`).
- An empty pack changes nothing. It moves the start of an emptied in-memory store back to 1
  (`InMemRuns.EmptyPackForgets`; `InMemStore.AllowedFits`).
- The two stores answer alike. A negative size hint returns nothing from one and everything from the other
  (`StoreAgreement.NegativeHint`, `StoreAgreement.OneAppend`; `StoreAgreement.RangesAgree`).
- Calls on shared pointers end. The assignment of a slot to itself waits for its own lock
  (`PointerCalls.NeverAssigns`), and two threads that assign two slots to each other wait for one another
  (`PointerLocks.CrossedAssignments`; `PointerLocks.Deadlock`).
- Every request is settled. The handler never settles one whose first client cannot be made
  (`Redirect.FirstClientFails`), and a reply that redirects without saying "not leader", or with an address
  that does not parse, ends in a call on a null client (`Redirect.Request.OnReply`).

The code and its documentation disagree in one place that matters here: `docs/io-thread-pool-design.md`
lines 15-38 describe slow messages as being handed from the raft pool to the I/O pool. The code routes
on the gRPC thread, and `Dispatch` follows the code.

## Model

| member | source | states |
|---|---|---|
| `LogSpec.CompactedKeeps` | src/tests/jungle_logstore/jungle_log_store.cc:672-710 | compaction drops exactly the indices up to `last`, keeps every other entry at its index, and moves the next slot past `last` when the log ended before it |
| `LogSpec.WriteAtMeans` | src/tests/jungle_logstore/jungle_log_store.cc:418-430 | overwriting at an index keeps what is below, puts the entry there and cuts what is above |
| `LogSpec.AppendMeans` | src/tests/jungle_logstore/jungle_log_store.cc:400-410 | appending puts the entry at the first free index and changes no other |
| `LogSpec.TruncatedMeans` | src/tests/jungle_logstore/jungle_log_store.cc:412-416 | cutting keeps exactly the entries up to an index |
| `LogSpec.PackedMeans` | src/tests/jungle_logstore/jungle_log_store.cc:646-670 | a pack lands at its indices and leaves every other entry alone; only an empty log starts elsewhere after it |
| `Serializer.FromToBytes` | src/tests/jungle_logstore/storage_engine_buffer.h:153-230 | an integer that fits its width is read back from the bytes it was written as |
| `Serializer.StepKeeps` | src/tests/jungle_logstore/storage_engine_buffer.h:129-135 | no put or get moves the position past the end or backwards, touches bytes before it, or does anything after an error |
| `Serializer.StepErrs` | src/tests/jungle_logstore/storage_engine_buffer.h:126-295 | a put or get fails if and only if there was an error before or fewer bytes are left than it needs: the width, or 4 and the length announced; else it advances by just that |
| `Serializer.PutGetInt` | src/tests/jungle_logstore/storage_engine_buffer.h:153-246 | an integer that fits its width is read back at the place it was put, with the position after it |
| `Serializer.PutGetBytes` | src/tests/jungle_logstore/storage_engine_buffer.h:206-295 | so are bytes with their length |
| `Serializer.ShortGet` | src/tests/jungle_logstore/storage_engine_buffer.h:216-295 | a get that fails gives 0 or null and leaves the position |
| `Serializer.RunKeeps` | src/tests/jungle_logstore/storage_engine_buffer.h:126-295 | the same over any sequence of puts and gets: after the first error nothing is written or consumed |
| `Serializer.RunStops` | src/tests/jungle_logstore/storage_engine_buffer.h:129-135 | after a put or get that fails, the rest of any sequence changes nothing |
| `Serializer.BufSerializer.IsValid` | src/tests/jungle_logstore/storage_engine_buffer.h:129-135 | true exactly if no error happened and the bytes fit what is left; otherwise the error flag is set for good |
| `Serializer.BufSerializer.PutRaw` | src/tests/jungle_logstore/storage_engine_buffer.h:201-204 | copies bytes at the position and advances it, changing no other byte |
| `Serializer.BufSerializer.PutInt` | src/tests/jungle_logstore/storage_engine_buffer.h:153-178 | the guarded integer put |
| `Serializer.BufSerializer.PutBytes` | src/tests/jungle_logstore/storage_engine_buffer.h:206-214 | the length and then, if there is room, the bytes |
| `Serializer.BufSerializer.GetInt` | src/tests/jungle_logstore/storage_engine_buffer.h:216-246 | the guarded integer get, 0 on error |
| `Serializer.BufSerializer.GetBytes` | src/tests/jungle_logstore/storage_engine_buffer.h:278-295 | the length and the bytes it announces, or null when they are not there |
| `EntryCodec.DecodeEncoded` | src/tests/jungle_logstore/jungle_log_store.cc:181-201 | a storable record is read back as itself, and its term alone too |
| `EntryCodec.RoundTrip` | src/tests/jungle_logstore/jungle_log_store.cc:181-201 | a record is read back as itself if and only if its term, type and payload length fit 64, 8 and 32 bits |
| `EntryCodec.EncodeEntry` | src/tests/jungle_logstore/jungle_log_store.cc:173-188 | encoding fills a buffer of the computed length exactly and without error |
| `EntryCodec.DecodeRecord` | src/tests/jungle_logstore/jungle_log_store.cc:190-201 | decoding a buffer field by field yields the record `Decode` says, or none where the copy would be undefined |
| `EntryCodec.ReadTerm` | src/tests/jungle_logstore/jungle_log_store.cc:565-593 | reading the first field of a buffer yields the term that decoding it would |
| `LogCache.LimitedUnique` | src/tests/jungle_logstore/jungle_log_store.cc:114-142 | the size hint determines the result of a range read, whichever path computes it |
| `LogCache.LimitedIsTaken` | src/tests/jungle_logstore/jungle_log_store.cc:126-139 | a read with a hint returns the first entries, and exactly the number of them that the sizes say |
| `LogCache.Copy` | src/tests/jungle_logstore/jungle_log_store.cc:126-139 | copying stops at the shortest nonempty prefix that reaches the hint and cuts the vector there; otherwise everything cached is copied and further slots stay null |
| `LogCache.Cache.Insert` | src/tests/jungle_logstore/jungle_log_store.cc:34-48 | the accounted size stays the sum over the cached entries also when an entry is overwritten |
| `LogCache.Cache.Evict` | src/tests/jungle_logstore/jungle_log_store.cc:56-69 | eviction leaves the longest suffix that fits both limits |
| `LogCache.Cache.Set` | src/tests/jungle_logstore/jungle_log_store.cc:25-76 | after a set the cache is exactly the longest suffix of its old contents with the new entry that fits the byte and the span limit, and nothing is evicted when both held |
| `LogCache.Cache.NextSlot` | src/tests/jungle_logstore/jungle_log_store.cc:79-86 | the index after the last cached one, or 0 |
| `LogCache.Cache.Compact` | src/tests/jungle_logstore/jungle_log_store.cc:88-103 | exactly the entries above the given index stay, and the accounted size follows |
| `LogCache.Cache.Drop` | src/tests/jungle_logstore/jungle_log_store.cc:144-151 | the cache and its accounted size are empty |
| `LogCache.Cache.Gets` | src/tests/jungle_logstore/jungle_log_store.cc:114-142 | a range query hits exactly when the cache is not empty and begins at or before the range, and then copies as `Copy` says |
| `PackFormat.WritePack` | src/tests/jungle_logstore/jungle_log_store.cc:617-644 | the bytes written are the count and each record behind its length, and fill the computed buffer exactly |
| `PackFormat.ReadFrame` | src/tests/jungle_logstore/jungle_log_store.cc:650-660 | a reader at a record gets that record and ends up at the next |
| `PackFormat.Int32Exactly` | src/tests/jungle_logstore/jungle_log_store.cc:635-660 | a count or length is read back from its four bytes, which are taken as signed, if and only if it is below 2^31 |
| `PackFormat.PackInjective` | src/tests/jungle_logstore/jungle_log_store.cc:595-670 | a pack determines its records |
| `JungleDb.SetPuts` | src/tests/jungle_logstore/jungle_log_store.cc:448-473 | storing a record at an index of the log or at its end puts that entry into the log the database stands for |
| `JungleDb.FirstSet` | src/tests/jungle_logstore/jungle_log_store.cc:646-670 | the first record of all settles where the log starts |
| `JungleDb.RollbackTruncates` | src/tests/jungle_logstore/jungle_log_store.cc:412-416 | a rollback of the database truncates the log it stands for |
| `JungleDb.PurgeCompacts` | src/tests/jungle_logstore/jungle_log_store.cc:672-710 | a purge of the database compacts the log it stands for |
| `JungleDb.PurgeBeyond` | src/tests/jungle_logstore/jungle_log_store.cc:682-698 | storing a dummy past the end and purging it leaves the empty log that begins after it |
| `JungleDb.SetAllPacks` | src/tests/jungle_logstore/jungle_log_store.cc:646-670 | a pack stored record by record that continues the log the database stands for puts its entries into that log |
| `JungleDb.MisplacedPack` | src/tests/jungle_logstore/jungle_log_store.cc:646-670 | a nonempty pack that does not continue the log leaves a database that stands for no log |
| `JungleStore.Store.constructor` | src/tests/jungle_logstore/jungle_log_store.cc:296-327 | a new store stands for the empty log from index 1 |
| `JungleStore.LongestIsFirst` | src/tests/jungle_logstore/jungle_log_store.cc:56-69 | what eviction leaves in the cache begins at the first index from which on the records are within both limits |
| `JungleStore.WriteKeeps` | src/tests/jungle_logstore/jungle_log_store.cc:448-473 | a write at the end of the log or over its last entry keeps database and cache in line with the log, cached from the first index the limits allow |
| `JungleStore.Store.NextSlot` | src/tests/jungle_logstore/jungle_log_store.cc:334-350 | the log's next slot, from the cache or the database; the one after the database's last record also when there is no log |
| `JungleStore.Store.StartIndex` | src/tests/jungle_logstore/jungle_log_store.cc:352-368 | the log's start, from the remembered value or the database; the database's smallest index also when there is no log |
| `JungleStore.Store.EntryAt` | src/tests/jungle_logstore/jungle_log_store.cc:539-563 | the log's entry up to its timestamp, or none; whatever the database has there when there is no log |
| `JungleStore.Store.TermAt` | src/tests/jungle_logstore/jungle_log_store.cc:565-593 | the term of the log's entry, or 0 |
| `JungleStore.Store.LastEntry` | src/tests/jungle_logstore/jungle_log_store.cc:370-398 | the log's last entry up to its timestamp, or none |
| `JungleStore.Store.PointReads` | src/tests/jungle_logstore/jungle_log_store.cc:495-503 | point queries of a range return all of it |
| `JungleStore.Store.Iterate` | src/tests/jungle_logstore/jungle_log_store.cc:506-529 | the iterator returns the shortest nonempty prefix that reaches the hint, or everything |
| `JungleStore.Store.LogEntriesExt` | src/tests/jungle_logstore/jungle_log_store.cc:475-537 | an in-range read returns exactly the entries without a positive hint and the shortest nonempty prefix reaching the hint with one, from the cache or the iterator; one or two uncached entries ignore the hint; an empty range returns null |
| `JungleStore.Store.Pack` | src/tests/jungle_logstore/jungle_log_store.cc:595-644 | packs the encodings of the requested entries into a buffer of exactly the computed size |
| `JungleStore.Store.WriteInternal` | src/tests/jungle_logstore/jungle_log_store.cc:448-473 | an entry put at the end or over the last one is in the database and in the cache, whose part of the log begins at the first index the limits allow; without a log it goes behind the last record and is read back from there |
| `JungleStore.Store.Append` | src/tests/jungle_logstore/jungle_log_store.cc:400-410 | appends to the log and returns its index; behind the last record of the database when there is no log |
| `JungleStore.Store.Rollback` | src/tests/jungle_logstore/jungle_log_store.cc:412-416 | truncates the log and leaves nothing of it cached |
| `JungleStore.Store.WriteAt` | src/tests/jungle_logstore/jungle_log_store.cc:418-430 | overwrites the log from an in-range index on; what is cached then begins at the first index the limits allow, not before the index if it had to roll back |
| `JungleStore.NoDummy` | src/tests/jungle_logstore/jungle_log_store.cc:684-690 | a database that stands for a log does not hold the dummy |
| `JungleStore.DecodeDummy` | src/tests/jungle_logstore/jungle_log_store.cc:684-690 | the dummy is read as an entry with a made-up term and type and no payload |
| `JungleStore.DummyStored` | src/tests/jungle_logstore/jungle_log_store.cc:684-690 | with the dummy in it a database stands for no log, and every record can still be read |
| `JungleStore.Store.Compact` | src/tests/jungle_logstore/jungle_log_store.cc:672-710 | compacts the log when the purge succeeds, leaves it alone when it does not and `last` is within the log, and otherwise leaves a database that holds the dummy and stands for no log; false is returned exactly on failure |
| `JungleStore.Store.ApplyPack` | src/tests/jungle_logstore/jungle_log_store.cc:646-670 | stores a pack's records from any index on and empties the cache; if there are none, if they continue the log or if they are the first thing stored, the store stands for the log with them in it, and otherwise for no log |
| `JungleRuns.RunCalls` | src/tests/jungle_logstore/jungle_log_store.cc:400-473 | any sequence of calls, rollbacks and failed purges included, leaves the log that the plain log has after the same calls, cached from the index computed from the calls and the limits, unless a pack leaves a gap or a purge past the end fails; then the store stands for no log |
| `JungleRuns.Observe` | src/tests/jungle_logstore/jungle_log_store.cc:334-593 | after any run from a new store that leaves a log, every read returns what the plain log holds; a range as much of it as the hint allows, all of it if it has one or two entries and begins before the computed cached part |
| `JungleRuns.CacheShows` | src/tests/jungle_logstore/jungle_log_store.cc:475-537 | two readers of one log get the same range if and only if it is not one of two entries whose first reaches the hint, cached for exactly one of them |
| `JungleRuns.Compare` | src/tests/jungle_logstore/jungle_log_store.cc:475-537 | the same calls under two settings of the cache's limits give the same answers to every read, except that a range of two entries whose first reaches the hint differs if and only if it begins in the part computed to be cached under exactly one setting |
| `JungleRuns.CutHappens` | src/tests/jungle_logstore/jungle_log_store.cc:475-503 | two appended entries are such a range: cached with room for both, not cached with room for none |
| `JungleRuns.CachedRangeIsCut` | src/tests/jungle_logstore/jungle_log_store.cc:475-503 | two appended entries read with a hint of 1: one entry comes back with a roomy cache, both with none |
| `JungleRuns.PackAfterPurge` | src/tests/jungle_logstore/jungle_log_store.cc:646-670 | a pack that leaves a gap after a purge: the start index is in front of the gap, where there is no entry, and the next slot after the packed records |
| `JungleRuns.AppendsGoOn` | src/tests/jungle_logstore/jungle_log_store.cc:400-410 | a store that has lost its log takes appends behind the last record of its database, where they are read back, and changes nothing else |
| `JungleRuns.CompactionLeavesDummy` | src/tests/jungle_logstore/jungle_log_store.cc:682-705 | a compaction past the end whose purge fails or is in progress, and any appends after it: the start index is the dummy's, a reader gets an entry nobody wrote there, and the appended entries behind it |
| `JungleRuns.Transfer` | src/tests/jungle_logstore/jungle_log_store.cc:595-670 | packing entries and applying them at the same index of a store never written gives it exactly those entries |
| `InMemStore.KeyCount` | test_package/in_memory_log_store.cpp:43-47 | the number of keys is the number of entries plus one, so it tells the next slot |
| `InMemStore.EraseFrom` | test_package/in_memory_log_store.cpp:71-75 | erasing iterator by iterator removes exactly the keys from an index on |
| `InMemStore.EraseUpTo` | test_package/in_memory_log_store.cpp:204-209 | exactly the keys from the start to the given index go, present or not |
| `InMemStore.Store.constructor` | test_package/in_memory_log_store.cpp:26-30 | a new store stands for the empty log from index 1 |
| `InMemStore.Store.NextSlot` | test_package/in_memory_log_store.cpp:43-47 | the log's next slot; the start plus the number of keys less one also when there is no log |
| `InMemStore.Store.LastEntry` | test_package/in_memory_log_store.cpp:49-56 | the log's last entry, or the dummy |
| `InMemStore.Store.EntryAt` | test_package/in_memory_log_store.cpp:125-134 | the log's entry, or the dummy; what is at the key or else at 0 also when there is no log |
| `InMemStore.Store.TermAt` | test_package/in_memory_log_store.cpp:136-145 | the term of the log's entry, or 0; of what is read also when there is no log |
| `InMemStore.Store.LogEntries` | test_package/in_memory_log_store.cpp:79-98 | exactly the entries of an in-range read |
| `InMemStore.Store.LogEntriesExt` | test_package/in_memory_log_store.cpp:100-123 | nothing for a negative hint, everything for 0, else the shortest nonempty prefix whose payloads reach the hint, or everything |
| `InMemStore.Store.Append` | test_package/in_memory_log_store.cpp:58-65 | appends to the log and returns its index; at the next slot, whatever is there, when there is no log |
| `InMemStore.Store.WriteAt` | test_package/in_memory_log_store.cpp:67-77 | overwrites from an index on: the log if the index is one of the log or the next, the dummy by itself at 0; with any other call the store stands for no log |
| `InMemStore.WriteEffect` | test_package/in_memory_log_store.cpp:67-77 | exactly those writes leave keys of a log that starts where the store says |
| `InMemStore.Store.Compact` | test_package/in_memory_log_store.cpp:204-216 | compacts the log, also past its end |
| `InMemStore.Store.Pack` | test_package/in_memory_log_store.cpp:147-173 | packs the serialized entries into a buffer of exactly the computed size |
| `InMemStore.Store.ApplyPack` | test_package/in_memory_log_store.cpp:175-202 | puts a pack into the map from any index on and reads the start off the map; the store stands for the log with the entries laid over it if they leave no hole, and for no log otherwise |
| `InMemStore.PackEffect` | test_package/in_memory_log_store.cpp:175-202 | a pack leaves a log if and only if there is nothing in it, the log is empty or it meets the log on either side; at index 0 its first entry must be the dummy and the rest do so |
| `InMemStore.JoinedMeans` | test_package/in_memory_log_store.cpp:179-191 | every index then has what was packed there, or else what was there before |
| `InMemStore.AllowedFits` | test_package/in_memory_log_store.cpp:193-201 | a pack where the plain log allows one leaves the log it should, if and only if it is not an empty pack on an empty log that starts elsewhere than at 1 |
| `InMemRuns.RunOps` | test_package/in_memory_log_store.cpp:43-216 | any sequence of calls leaves the log that the plain log has after the same calls, unless one of them leaves none; then the store stands for no log |
| `InMemRuns.AllowedKeeps` | test_package/in_memory_log_store.cpp:43-216 | a call the plain log allows does to the log of the store what it should, unless it is an empty pack on a log emptied elsewhere than at 1 |
| `InMemRuns.Observe` | test_package/in_memory_log_store.cpp:43-216 | after any run from a new store that leaves a log, every read returns what the plain log holds, a range with a hint as much of it as payload sizes allow, nothing for a negative hint, and the keys are exactly 0 and the indices of the log |
| `InMemRuns.GapNext` | test_package/in_memory_log_store.cpp:43-47 | after a pack behind a gap the next slot is the old one plus the number of packed entries, and holds one of them unless the gap is longer than they are |
| `InMemRuns.PackBehindGap` | test_package/in_memory_log_store.cpp:58-65 | the next append then takes the place of that entry |
| `InMemRuns.EntryLost` | test_package/in_memory_log_store.cpp:58-65 | one entry at 1 and two packed at 3: the entry appended next replaces the one at 4 |
| `InMemRuns.PackOverDummy` | test_package/in_memory_log_store.cpp:175-202 | after a pack at index 0 a missing entry reads as its first one, with its term |
| `InMemRuns.EmptyPackForgets` | test_package/in_memory_log_store.cpp:193-201 | an empty pack after compacting past the end leaves a store with start 1 and no key but 0, though its next slot was after the compacted index |
| `InMemRuns.Transfer` | test_package/in_memory_log_store.cpp:147-202 | packing entries and applying them at the same index of an empty store gives it exactly those entries |
| `StoreAgreement.Agree` | test_package/in_memory_log_store.cpp:43-216 | after any calls that keep the stores in step both show the plain log after these calls, one without timestamps; the same range with a hint comes back from both if and only if it is not empty, the hint is not negative, and payload sizes and container sizes reach it alike or nothing is cut |
| `StoreAgreement.StepTogether` | src/tests/jungle_logstore/jungle_log_store.cc:646-670 | a call keeps the stores in step if it is no pack, a pack that continues the log, or an empty one on a log that is not emptied elsewhere than at 1: both stores do what the plain log does |
| `StoreAgreement.StepApart` | test_package/in_memory_log_store.cpp:175-202 | any other call costs one of the stores its log or leaves them with different ones |
| `StoreAgreement.RunTogether` | src/tests/jungle_logstore/jungle_log_store.cc:400-473 | the same over whole runs |
| `StoreAgreement.RangesAgree` | test_package/in_memory_log_store.cpp:100-123 | the two range reads agree if and only if both take the same number of entries |
| `StoreAgreement.NegativeHint` | test_package/in_memory_log_store.cpp:100-106 | with a negative hint one store returns nothing and the other everything |
| `StoreAgreement.OneAppend` | test_package/in_memory_log_store.cpp:58-65 | which one appended entry shows |
| `StoreAgreement.Differ` | src/tests/jungle_logstore/jungle_log_store.cc:646-670 | compacting past the end and then applying a pack after a gap leaves the packed entries as the log of the in-memory store and no log in the other |
| `FlushProtocol.StepPlaced` | src/tests/jungle_logstore/jungle_log_store.cc:251-294 | every step keeps each unfinished request in exactly one of the queue and the current batch, and finished ones in neither |
| `FlushProtocol.RunPlaced` | src/tests/jungle_logstore/jungle_log_store.cc:251-294 | the same placement over whole runs |
| `FlushPromise.BatchWants` | src/tests/jungle_logstore/jungle_log_store.cc:432-446 | in every run an announced batch is about exactly the records written from its first to its last index, each as written last |
| `FlushPromise.SyncBrings` | src/tests/jungle_logstore/jungle_log_store.cc:712-722 | a sync that reaches the last record of a batch brings the batch to disk, and no sync takes anything off it |
| `FlushPromise.RollbackKeeps` | src/tests/jungle_logstore/jungle_log_store.cc:412-416 | after a rollback a batch is on disk if and only if it was and has no record above the new end |
| `FlushPromise.StepInv` | src/tests/jungle_logstore/jungle_log_store.cc:251-446 | a harmless step keeps every answered call's records on disk until it returns, every unanswered request either to be synced or on disk, and the durable mark within what is synced |
| `FlushPromise.Protocol` | src/tests/jungle_logstore/jungle_log_store.cc:432-446 | in every run of harmless events no call returned without its records on disk, and an unanswered one waits in exactly one place |
| `FlushPromise.AppendsKeepPromises` | src/tests/jungle_logstore/jungle_log_store.cc:400-446 | in every run without overwriting and rolling back no call returned without its records on disk |
| `FlushPromise.ReachedRun` | src/tests/jungle_logstore/jungle_log_store.cc:432-446 | in every run without a rollback, whatever is overwritten, the synced index has reached the last index of every answered request |
| `FlushProgress.NextCloser` | src/tests/jungle_logstore/jungle_log_store.cc:251-294 | each step of the thread alone answers a given request or brings its answer closer, in every state in which a high enough mark can be had |
| `FlushProgress.Served` | src/tests/jungle_logstore/jungle_log_store.cc:251-294 | from any state, with other calls interrupted anywhere, the thread alone answers any request: one whose records are written if its syncs succeed, one at or below its mark even if they fail |
| `FlushProgress.Progress` | src/tests/jungle_logstore/jungle_log_store.cc:251-294 | and if every promise stood before, the request's records are then on disk |
| `FlushProgress.ReturnMeans` | src/tests/jungle_logstore/jungle_log_store.cc:432-446 | a call can return if and only if it is answered and has not returned, and then its promise is broken exactly if a record of its batch, or a later one in its place, is not on disk |
| `FlushProgress.ReturnsOnce` | src/tests/jungle_logstore/jungle_log_store.cc:432-446 | in every run a call that has returned does not return again |
| `FlushProgress.NeverServed` | src/tests/jungle_logstore/jungle_log_store.cc:251-294 | in every run after the flush thread has stopped, a request that was not answered by then never is |
| `FlushExact.UndisturbedFlush` | src/tests/jungle_logstore/jungle_log_store.cc:712-722 | a flush that succeeds undisturbed makes all that is written durable |
| `FlushExact.UnsafeEnqueue` | src/tests/jungle_logstore/jungle_log_store.cc:432-446 | announcing a batch whose last index is synced while a record of it was overwritten since can always be followed by a broken promise |
| `FlushExact.HarmfulRollback` | src/tests/jungle_logstore/jungle_log_store.cc:412-416 | so can a rollback below the durable mark, below what a call of `flush` is about to store there, or below a record of an answered call that has not returned |
| `FlushExact.Exact` | src/tests/jungle_logstore/jungle_log_store.cc:251-446 | as long as every promise stands, an event is harmless if and only if no continuation by harmless events has a call return without its records on disk |
| `FlushExact.OverwriteBreaksThePromise` | src/tests/jungle_logstore/jungle_log_store.cc:418-446 | append, flush, overwrite the last record, announce it: the call returns with only the old record on disk, without any rollback |
| `FlushExact.RollbackBreaksThePromise` | src/tests/jungle_logstore/jungle_log_store.cc:412-446 | append, flush, roll back, append, announce: the call returns with nothing on disk |
| `ShiftRegister.BurstDetected` | src/tests/jungle_logstore/crc32.cc:289-325 | two inputs that differ only in a window no wider than the register drive it into different states |
| `ShiftRegister.SerialTwoWords` | src/tests/jungle_logstore/crc32.cc:308-314 | two words fed bit by bit equal one shift of the first by both widths plus one of the second |
| `Crc32.LookupIsShifts` | src/tests/jungle_logstore/crc32.cc:24-47 | entry i of table k of the recurrence is i shifted through 8 (k + 1) one-bit steps |
| `Crc32.FirstTable` | src/tests/jungle_logstore/crc32.cc:25-32 | the branch-free generator computes the first table |
| `Crc32.TableGenerated` | src/tests/jungle_logstore/crc32.cc:24-47 | the tables the recurrence asks for exist |
| `Crc32.SingleBits` | src/tests/jungle_logstore/crc32.cc:49-77 | the entries of the first table for single bits are the ones in the file |
| `Crc32.RoundIsFed` | src/tests/jungle_logstore/crc32.cc:308-314 | the sum of the eight lookups of a round is the register after feeding the eight bytes bit by bit |
| `Crc32.TailIsFed` | src/tests/jungle_logstore/crc32.cc:320-322 | the lookup of a tail byte is the register after feeding that byte bit by bit |
| `Crc32.EightBytes` | src/tests/jungle_logstore/crc32.cc:308-314 | one round of the loop feeds eight bytes |
| `Crc32.OneByte` | src/tests/jungle_logstore/crc32.cc:320-322 | one step of the tail feeds one byte |
| `Crc32.Get` | src/tests/jungle_logstore/crc32.cc:289-325 | for every byte string and seed the result is the bit-at-a-time CRC-32 |
| `Crc32.CheckValue` | src/tests/jungle_logstore/crc32.cc:289-325 | the CRC of the digits 1 to 9 is the check value 0xCBF43926 by which CRC-32 is known |
| `Crc32.Chaining` | src/tests/jungle_logstore/crc32.cc:289-325 | the CRC of y seeded with the CRC of x is the CRC of x followed by y |
| `Crc32.BitBurst` | src/tests/jungle_logstore/crc32.cc:289-325 | equal-length messages that differ only within 32 consecutive bits have different CRCs |
| `Crc32.ByteBurst` | src/tests/jungle_logstore/crc32.cc:289-325 | equal-length messages that differ only within four consecutive bytes have different CRCs |
| `SharedPointer.ShareGood` | src/tests/jungle_logstore/ashared_ptr.h:125-135 | locking a slot and loading its wrapper keeps the books |
| `SharedPointer.IncrementGood` | src/tests/jungle_logstore/ashared_ptr.h:126-135 | the wrapper whose count is raised is alive, and the books stay balanced |
| `SharedPointer.StoreNewGood` | src/tests/jungle_logstore/ashared_ptr.h:66-78 | storing the new wrapper hands the slot's reference to the thread and the thread's to the slot |
| `SharedPointer.DecrementGood` | src/tests/jungle_logstore/ashared_ptr.h:137-145 | the wrapper whose count is lowered is alive, and at 0 exactly this thread deletes it |
| `SharedPointer.DeleteGood` | src/tests/jungle_logstore/ashared_ptr.h:140-144 | a deleted wrapper exists, has count 0 and is deleted by no other thread |
| `SharedPointer.ExchangeGood` | src/tests/jungle_logstore/ashared_ptr.h:94-113 | a successful exchange releases exactly the reference the slot held, and a failed one keeps the acquired value for release |
| `SharedPointer.ExchangeMeans` | src/tests/jungle_logstore/ashared_ptr.h:96-106 | the exchange swaps exactly when the cell holds what `expected` holds and it does not fail spuriously; then the cell holds what `src` holds |
| `PointerCalls.ShareMeans` | src/tests/jungle_logstore/ashared_ptr.h:66-71 | in any interleaving the value an assignment carries is what its source holds while it is locked |
| `PointerCalls.StoreMeans` | src/tests/jungle_logstore/ashared_ptr.h:73-77 | the store leaves exactly that value in the slot, changes no other slot, and what the slot held before is what is released next |
| `PointerCalls.Assigns` | src/tests/jungle_logstore/ashared_ptr.h:66-78 | an assignment that nothing disturbs ends, with the slot holding what the other one holds and every other slot and lock as before |
| `PointerCalls.NeverAssigns` | src/tests/jungle_logstore/ashared_ptr.h:66-70 | an assignment of a slot to itself never ends, whatever the other threads do |
| `PointerCalls.Resets` | src/tests/jungle_logstore/ashared_ptr.h:48-54 | a reset that nothing disturbs ends, with nothing in the slot and every other slot and lock as before |
| `PointerCalls.Exchanges` | src/tests/jungle_logstore/ashared_ptr.h:94-113 | an exchange that nothing disturbs ends: the cell holds what `src` holds if it held what `expected` holds, else `expected` holds what the cell holds; no other slot or lock changes |
| `SharedPointer.OthersRely` | src/tests/jungle_logstore/ashared_ptr.h:48-135 | what a thread relies on, its locks and what it has read, survives every step of any other thread |
| `SharedPointer.StepSafe` | src/tests/jungle_logstore/ashared_ptr.h:48-145 | no step from a sound state touches freed memory, and every step leads to a sound state |
| `SharedPointer.RunSafe` | src/tests/jungle_logstore/ashared_ptr.h:48-145 | the same over whole runs |
| `SharedPointer.Sound` | src/tests/jungle_logstore/ashared_ptr.h:48-145 | in every interleaving nothing freed is touched, a count is the slots pointing plus references in progress, no slot points at a freed wrapper, and when no call is in progress a wrapper is alive exactly while slots point at it |
| `SharedPointer.NotReused` | src/tests/jungle_logstore/ashared_ptr.h:94-113 | while a slot points at a wrapper its address is not given to a new one, so that comparing addresses tells it from every other |
| `PointerCalls.CreateMeans` | src/tests/jungle_logstore/ashared_ptr.h:40-46 | a slot is made only where none is, empty or as the only one at a new wrapper, and only its maker may use it unless it is shared |
| `PointerCalls.DestroyMeans` | src/tests/jungle_logstore/ashared_ptr.h:46 | a slot goes only when it is empty, by the thread it is private to, and nothing else changes |
| `PointerLocks.RunHeld` | src/tests/jungle_logstore/ashared_ptr.h:48-135 | in every run each lock is held by a thread that is between its locking and unlocking |
| `PointerLocks.WaitsExactly` | src/tests/jungle_logstore/ashared_ptr.h:48-135 | a call in progress can make its next step if and only if it does not want a lock that is held |
| `PointerLocks.KnotForEver` | src/tests/jungle_logstore/ashared_ptr.h:66-70 | assignments that each want a lock another of them has never get on, whatever the other threads do |
| `PointerLocks.CrossedAssignments` | src/tests/jungle_logstore/ashared_ptr.h:66-70 | two threads that assign two slots to each other can get there in four steps |
| `PointerLocks.Deadlock` | src/tests/jungle_logstore/ashared_ptr.h:48-135 | in every run calls in progress cannot get on if and only if those that hold a lock are assignments that each want a lock another of them has, and the rest wait for their locks |
| `LatencyCollector.FoundInv` | src/tests/jungle_logstore/latency_collector.h:243-249 | the item found is alive, and adding the sample to it is recorded once |
| `LatencyCollector.BuildInv` | src/tests/jungle_logstore/latency_collector.h:263-270 | the copy with its new item, at any address not in use, is reachable by its maker only |
| `LatencyCollector.SwapInv` | src/tests/jungle_logstore/latency_collector.h:272-277 | a successful swap publishes the map, the item and the sample together |
| `LatencyCollector.UndoInv` | src/tests/jungle_logstore/latency_collector.h:279-285 | taking back the map and item of a failed swap disturbs no other thread |
| `LatencyCollector.UndoMeans` | src/tests/jungle_logstore/latency_collector.h:279-285 | exactly the item the call made is deleted, everyone else sees the same names and samples as before, and the sample is given up exactly after the seventeenth failed swap |
| `LatencyCollector.FreeInv` | src/tests/jungle_logstore/latency_collector.h:238-286 | freeing a map that is not current and that no thread holds, so that its address may be used again, disturbs no thread and changes nothing anyone sees |
| `LatencyCollector.StepGrows` | src/tests/jungle_logstore/latency_collector.h:238-286 | no step takes a name, an item or a sample away from the current map |
| `LatencyCollector.RunSafe` | src/tests/jungle_logstore/latency_collector.h:238-286 | whole runs touch no deleted item, keep the books and only let the current map grow |
| `LatencyCollector.NothingLost` | src/tests/jungle_logstore/latency_collector.h:238-286 | in every interleaving each sample is recorded as often as calls added it, and each call has added it, given up or is in progress |
| `LatencyCollector.ItemsStay` | src/tests/jungle_logstore/latency_collector.h:238-286 | a name once published keeps its item for the rest of every run |
| `LatencyCalls.FoundMeans` | src/tests/jungle_logstore/latency_collector.h:243-249 | adding to a found item records exactly the sample of the call once more, under its name, and gives up none |
| `LatencyCalls.SwapMeans` | src/tests/jungle_logstore/latency_collector.h:272-277 | a swap whose copied map is still current publishes exactly the new name with its item and records exactly the sample of the call once |
| `LatencyCalls.SwapFails` | src/tests/jungle_logstore/latency_collector.h:272-285 | any other swap counts as one more failure and no one sees a difference |
| `LatencyCalls.CallEnds` | src/tests/jungle_logstore/latency_collector.h:238-286 | whatever the other threads do meanwhile, at most 16 swaps of a call failed and its last step records its sample once, or exactly 17 failed and the sample is given up |
| `LatencyCalls.RecordsAgain` | src/tests/jungle_logstore/latency_collector.h:243-249 | an undisturbed call of a published name records its sample in two steps and changes no name |
| `LatencyCalls.RecordsFirst` | src/tests/jungle_logstore/latency_collector.h:251-277 | an undisturbed call of a new name publishes it, and no other, with just its sample, in three |
| `Histogram.BinIsRight` | src/tests/jungle_logstore/histogram.h:100-117 | a sample is in a bin if and only if it lies within the bin's bounds |
| `Histogram.BelowIsAtLeast` | src/tests/jungle_logstore/histogram.h:100-109 | the samples in the bins up to one are exactly those at or above its lower bound |
| `Histogram.BelowStep` | src/tests/jungle_logstore/histogram.h:233-247 | the bins' counts add up, over all bins to the number of samples |
| `Histogram.Histogram.constructor` | src/tests/jungle_logstore/histogram.h:131-136 | a new histogram has no samples |
| `Histogram.Histogram.Add` | src/tests/jungle_logstore/histogram.h:192-226 | a sample is recorded in its bin, the count, the sum modulo 2^64 and the maximum |
| `Histogram.Histogram.Merge` | src/tests/jungle_logstore/histogram.h:160-170 | adding a histogram, or the same one again, equals recording both sequences of samples |
| `Histogram.Histogram.Find` | src/tests/jungle_logstore/histogram.h:233-247 | for a positive threshold the bin found has at least that many samples at or above its lower bound and, unless it is bin 0, fewer at or above its upper bound; no bin is found exactly when there are fewer samples |
| `ClientModel.StepSound` | src/lib/factory.cpp:165-193 | every section keeps ids apart, every cached wrapper on a transport to its peer, and null entries to calls in progress |
| `ClientModel.TraceSound` | src/lib/factory.cpp:165-193 | the same at every point of every run |
| `ClientRuns.Returns` | src/lib/factory.cpp:165-193 | every call that returns began at one event and was answered at another by what the shared cache had just then; it succeeds exactly when that was a transport, newly made or already there, ready and not bad; its wrapper on that transport is then in the group's cache, which a failed call leaves as it was |
| `ClientRuns.CreateIsNewest` | src/lib/client.hpp:38-50 | a forced or first call returns an id above every id issued, and every id returned, before it began |
| `ClientRuns.SameWrapper` | src/proto/proto_mesg_factory.cpp:233-244 | two successful calls of one group and peer, the later not forced, without a create in between, return the same wrapper |
| `ClientRuns.NoNulls` | src/lib/factory.cpp:165-193 | at every point of every run the cache of a group without a call in progress holds only wrappers of that group and peer on a transport to that peer, no null and no error client |
| `ClientRuns.LetGo` | src/proto/proto_mesg_factory.cpp:333-355 | over any stretch of a run, a transport the shared cache had and has no more was let go while a call for that peer was answered, in a state in which it was not ready or bad |
| `ClientRuns.ServeMeans` | src/proto/proto_mesg_factory.cpp:333-355 | the shared factory hands out its transport and changes nothing exactly when it is ready and was never reported wrong; else it installs a new one, or refuses and drops the entry if the address is known |
| `ClientRuns.ReportMeans` | src/proto/proto_mesg_factory.cpp:113-121 | only a report changes a transport: its readiness, and by one how often it was the wrong service |
| `ClientRuns.NeverAgain` | src/proto/proto_mesg_factory.cpp:113-121 | in every run a transport once reported as the wrong service is never handed out again |
| `ClientRuns.WholeCallMeans` | src/lib/factory.cpp:165-193 | an undisturbed call succeeds exactly when a good transport is there or can be made, and leaves a wrapper of the shared transport, which is not bad: the cached one, or for a forced or first call one with an id never issued |
| `ClientRuns.WholeCallFails` | src/lib/factory.cpp:176-193 | a failed call leaves every cache and wrapper as it was and returns an error client |
| `ClientCache.Factories.constructor` | src/lib/factory.cpp:128-135 | no clients |
| `ClientCache.Factories.Report` | src/proto/proto_mesg_factory.cpp:113-121 | a transport's state may change at any time, its peer never |
| `ClientCache.Factories.Serve` | src/proto/proto_mesg_factory.cpp:333-355 | the shared factory's section is its step of the state machine: it hands out its transport when that is ready and not bad, else a new one; a failed making drops the entry, an unknown address keeps it |
| `ClientCache.Factories.Begin` | src/lib/factory.cpp:165-176 | the beginning of a call is its step: it takes the cached entry, or a null one that only it sees |
| `ClientCache.Factories.Ask` | src/proto/proto_mesg_factory.cpp:223-244 | the call's turn under the shared lock is its step |
| `ClientCache.Factories.FinishCreate` | src/proto/proto_mesg_factory.cpp:223-231 | a new wrapper with a new id replaces the cached one |
| `ClientCache.Factories.FinishReinit` | src/proto/proto_mesg_factory.cpp:233-244 | the cached wrapper keeps its id and gets the transport |
| `ClientCache.Factories.FinishCall` | src/lib/factory.cpp:176-193 | the end of a call is its step and returns what the state machine returns |
| `ClientCache.Factories.CreateOrReinit` | src/lib/factory.cpp:165-193 | a whole call that no other group interrupts, as `ClientRuns.WholeCallMeans` describes it |
| `ClientCache.Factories.Section` | src/lib/factory.cpp:165-193 | any section makes its step and no other |
| `ClientCache.Factories.Pick` | src/proto/proto_mesg_factory.cpp:288-306 | a request that wants an answer uses the transport of the cached wrapper for its group and peer exactly when there is one that is not bad |
| `ClientCache.Interleave` | src/lib/factory.cpp:165-193 | any interleaving of sections of any number of groups is a run of the state machine from the empty caches, with the same states and the same results |
| `Redirect.MessageCarriesPayload` | src/lib/factory.cpp:56-85 | a message is of the kind of its payload and carries exactly its id, server or bytes, and the address when a server is added |
| `Redirect.FateHop` | src/lib/factory.cpp:92-122 | along any chain of replies each hop answers a reply without error that was not accepted, goes where that reply says, and to another server than before |
| `Redirect.FateEnd` | src/lib/factory.cpp:90-101 | the chain ends at the first reply without content, with an error, accepted, without a destination or with the one it came from, and by that reply's code, or "server not found" without content |
| `Redirect.Request.constructor` | src/lib/factory.cpp:195-209 | the first message is in flight to the given destination |
| `Redirect.Request.TakeFuture` | src/lib/factory.cpp:38-42 | the caller's promise replaces the initial one |
| `Redirect.Request.OnReply` | src/lib/factory.cpp:87-124 | a reply settles the request by its code, or "server not found" without content, exactly if it has an error, is accepted or names no other server; otherwise its destination is the new one. The request stays settled-once or with one message in flight, with the original payload, if and only if the reply settles a request whose future was taken or says "not leader" with an address that parses |
| `Redirect.Request.Deliver` | src/lib/factory.cpp:87-124 | a chain of replies leads where the replies say and settles the request by the code they say |
| `Redirect.Drive` | src/lib/factory.cpp:195-240 | a whole request: sends are replies plus messages in flight, each hop goes where the reply before it said and never to where it came from, every message carries the payload, and the result is the one of the first reply that settles it |
| `Redirect.FirstClientFails` | src/lib/factory.cpp:195-209 | with an error client the one reply is used up before the future is taken: the request is left waiting with nothing in flight and is no longer in order |
| `Dispatch.ArriveInv` | src/proto/proto_service.cpp:188-215 | an arriving message is answered as invalid or routed, never both |
| `Dispatch.ArriveMeans` | src/proto/proto_service.cpp:188-223 | a message is routed if and only if its group parses and it is meant for this service, by way of a join exactly if it is one; otherwise it is answered as invalid |
| `Dispatch.JoinInv` | src/proto/proto_service.cpp:220-223 | a join that succeeds makes its group known and touches no other; in either case the message stays in one place and is looked up next |
| `Dispatch.GroupsGrow` | src/proto/proto_service.cpp:220-223 | a group becomes known only by being added, or by a join message for it meant for this service |
| `Dispatch.LookupPlaced` | src/proto/proto_service.cpp:225-274 | a lookup leaves every message in exactly one place |
| `Dispatch.LookupDecides` | src/proto/proto_service.cpp:225-274 | a lookup answers the message with "not found" if and only if its group is not known; otherwise it puts it, unanswered, into the I/O pool if it carries entries or a snapshot and into the raft pool if not |
| `Dispatch.LookupChecked` | src/proto/proto_service.cpp:134-137 | a posted message was meant for this service, and is slow exactly in the I/O pool |
| `Dispatch.ExecuteInv` | src/proto/proto_service.cpp:139-165 | executing a task sends one response, OK, cancelled when the server rejects it, or "not found" when it throws a runtime error |
| `Dispatch.EnterOk` | src/proto/proto_service.cpp:44-50 | counting a task in keeps the counter equal to the counted tasks |
| `Dispatch.LeaveOk` | src/proto/proto_service.cpp:44-50 | counting it out does too |
| `Dispatch.StepInv` | src/proto/proto_service.cpp:188-274 | every step keeps every message in exactly one place |
| `Dispatch.StepJudged` | src/proto/proto_service.cpp:194-215 | exactly the messages that do not parse or are meant for another service are answered as invalid |
| `Dispatch.Dispatched` | src/proto/proto_service.cpp:134-274 | in every interleaving each message has at most one response and exactly one once all is done; the active counters are the counted tasks; nothing meant for another service reaches a server; the I/O pool holds only messages with entries or a snapshot, and the raft pool none of them |
| `DispatchProgress.GroupsMean` | src/lib/service.cpp:125-178 | a group can be added or removed at any time, which changes what is known of no other group and touches no message |
| `DispatchProgress.PickNext` | src/proto/proto_service.cpp:236-274 | a worker without a task takes the one that was posted first |
| `DispatchProgress.Drains` | src/proto/proto_service.cpp:134-274 | from every state that keeps the books, steps without arrivals, with one worker in each pool, finish all there is to do |
| `DispatchProgress.AllAnswered` | src/proto/proto_service.cpp:134-274 | after any run, such steps leave every message received with exactly one response |

## Left out

- The Jungle database, NuRaft's server, gRPC, folly and the thread pools themselves: they are not part of
  this repository. The database is a map with a largest and a smallest index, and in `FlushProtocol` also
  knows which write of each index is on disk; a rollback takes its synced index back with it. The rest
  appears as events or parameters.
- Group lifecycle (`src/lib/manager_impl.cpp`, `src/lib/service.cpp`): what removes a server depends on
  NuRaft; groups come and go as events of `Dispatch`.
- Field-by-field copying between NuRaft messages and protobuf or flatbuffers: only the fields the redirect
  handler reads occur.
- The literal table values of `src/tests/jungle_logstore/crc32.cc`, except those of the first table for
  single bits: the tables are taken to satisfy the recurrence given in that file. The loop is the
  little-endian one.
- 64-bit wrap-around of log indices, reference counts and histogram counts: all are unbounded here. The
  histogram's sum does wrap.
- The byte order of NuRaft's integers in packs: any fixed order gives the same results, big-endian is used.
- Serialization of log entries by NuRaft in the in-memory store: a pair of functions that are inverse on the
  entries at hand.
- `Histogram::estimate`, the floating-point threshold of `find`, and stepping histogram iterators backwards.
- Memory orders: the reference counts, the collector's counts and the histogram's bins are updated with
  `memory_order_relaxed`; here every step is seen by all threads at once.
- Packs and compaction past the end as events of `FlushProtocol`: a pack writes or overwrites one record after
  another, as its events do; the jump of the last index by a compaction past the end is not modelled there.
- Calls that follow the one that loses a store its log, except for appends (`JungleRuns.AppendsGoOn`,
  `InMemStore.Store.Append`).
- Races on a histogram's maximum: adding a sample to an item is one step of `LatencyCollector`.
- `LatencyCollector::addStatName`, which changes the published map in place, and the thread tracker.
- Destruction of a shared slot while other threads use it, and unlocked dereferencing of a shared slot:
  the shared pointer does not protect either.
- Fairness: that a call on a shared pointer which can make its next step does make it.
- Termination of redirect chains: the handler remembers only the last destination, so none follows. A request
  whose first address does not parse is cancelled without being sent; it is not a `Redirect.Request`.
- What folly does with a promise that is replaced or dropped.
- An exception other than a runtime error out of a Raft server, which would leave a message unanswered.
- Statistics, metrics, logging, timers, compression and the remaining helpers of the log store's test code.
- JungleStore.Store.EntryAt: agrees on term, type and payload only, because entries read from the database
  carry no timestamp.
- JungleStore.Store.WriteAt: for an index of the log or the one after it, which is what the Raft core asks for.
- JungleStore.Store.Rollback: to the entry before the start at the furthest, likewise.
- JungleStore.Store.LogEntriesExt: a nonempty range lies within the log, likewise.
- ClientCache.Factories.Report: the number of times a peer was the wrong service only grows; when exactly a
  connection is ready is up to gRPC.
