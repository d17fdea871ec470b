# candlestore: a verified model

candlestore keeps recent market candles in RAM and older ones in cold files, moves candles between
processes through a single-producer single-consumer ring, and matches orders in a price-time-priority
book. This project models those parts in Dafny and proves what they promise over every input, every
interleaving and every run.

`dafny verify dfyconfig.toml` checks the whole project.

## What is modelled

- **The concurrent candle store** (`StoreProtocol`, `StoreInvariant`, `StoreHistory`, `StoreRange`,
  `StoreTheorems`, `StoreProvenance`, `StoreDeadlock`, `StoreOrigins`, `SnapshotRaces`). Any number of
  threads append, evict, spill, query and take snapshots. Every lock acquisition, flag access, ring
  operation, file operation and counter update is a step of its own, and the theorems hold in every
  reachable state of every run. Spills succeed or fail at will. Locks and atomics are sequentially
  consistent. `StoreTheorems` speaks of the protocol's states, `StoreOrigins` of what callers gave, asked
  for and got, over the moves of a run.
- **The same store used serially** (`Lru`, `SerialStore`): a class whose tick-and-minimum-scan eviction
  is proved to be exact least-recently-used.
- **The SPSC ring** (`Cursors`, `Spsc`): a step machine with one step per load, slot access and store,
  stale copies of the other side's cursor, `u64` wrap-around and the ready/capacity handshake; and the
  ring as a class used by one thread.
- **Time-indexed storage** (`RingBuffer`, `ColdNames`, `ColdStore`, `HotColdMerge`): the wrapping array
  with its binary searches, the cold-file names, spilling, pruning, sorting and removal of duplicates,
  and the hot/cold merge. `SharedDirectory` uses the serial store as a client would.
- **The matching engine** (`Orders`, `FlatBook`, `BookRuns`, `BookRequests`, `OrderBook`): the reference
  book is two lists in price-time priority; the class that keeps maps of queues refines it. `BookRequests`
  says what a submission does in terms of the request, the book before it and the events alone: which
  orders it meets and for how much, what is left of them, what rests and what is cancelled, and why.
  Quantities and prices are exact reals, and the relative tolerance of 1e-9 is explicit, so that every bound says what the
  dust rule costs.
- **The portfolio** (`Portfolio`) and both together (`Trading`).
- **The moving average and the rate limiter** of the market hub (`MarketHub`).

## Where the code falls short of a claim

- *Range queries* on a ring are exact only for contents sorted by timestamp. `RangeExactIffSorted` shows
  that a ring answers every window exactly if and only if its contents are sorted, and
  `UnsortedRingAnswersWrongly` gives a ring of two candles that does not.
- *Symbol escaping* is not injective, and answers per symbol fail exactly where it is not. `EscapeCollides`
  says which symbols share a directory. If no other symbol in use shares it, every candle of an answer was
  pushed for the symbol asked about (`RangeInventsNothing`); and for every two symbols that do share one,
  `WrongSymbolAnswered` gives a use of the store in which a query for the one, never appended to, answers
  with the other's candle.
- *A positive price* can trade for nothing: `KeyIsZeroIff` says that an accepted price rounds to the level
  of price zero if and only if it is less than half a tick, and `TradesForNothing` has two such orders meet.
- *The rate limiter* is documented as allowing `max` signals in the last second. Its buckets allow twice
  that: `RunsAreLimited` proves the bound of `2 * max`, `TwiceTheLimitHappens` reaches it for every
  positive `max`, and `DocumentedLimitIffZero` says the documented claim holds only for `max == 0`.
- *Portfolio accounting* is not exact on dust. `FillIsExactIff` says that a fill leaves the identity where
  it was if and only if it adds to the position, closes it to the last unit, misses that by more than one
  part in 1e9 of its quantity, or meets dust that is worth nothing; `IdentityIsExactIff` says the same of
  whole runs; `DriftBound` and `IdentityIsKept` bound the loss; `DustIsLost` replays one.
- *A snapshot racing signals* is documented to under-report by one at worst. `SnapshotMisses` gives the
  exact number: it misses the signals pending at its first load and those made before its second, and so
  at most one if and only if there was at most one such signal or at most one append to miss.
  `SnapshotMissesAny` has, for every `n`, a run that misses `n` appends.
- *A failed spill* can leave its file behind, with or without a footer. `TryAppend` says so, and
  `LeftBehindOnlyAdds` that it hides and misstates nothing.
- *A symbol limit of zero* still admits one symbol: `ZeroLimitAdmitsOne` is a use in which it does, and
  `LimitHoldsIff` says that the limit holds if and only if it is positive or nothing was ever accepted.

## Model

| member | source | states |
|---|---|---|
| StoreTheorems.NoAcceptedCandleIsLost | src/store.rs:294-310 | with a data directory, in every interleaving each acknowledged candle is in its symbol's live ring, in one of its cold files, or was overwritten by at least `ring_capacity` later pushes into the same ring; `AckHasOrigin` ties it to the candle its caller gave |
| StoreOrigins.AppendedIsKept | src/store.rs:251-310 | the same of the candle and symbol a caller gave: once an append has returned `Ok`, they are kept in every later state |
| StoreOrigins.AckIsCallers | src/store.rs:251-310 | the move by which an append returns `Ok` acknowledges the symbol and the valid candle of the last append its thread began, and nothing else |
| StoreOrigins.AckHasOrigin | src/store.rs:294-310 | every acknowledgement of every state was made by such a move |
| StoreOrigins.CallHasOrigin | src/store.rs:251-284 | a running append has the symbol and candle it was called with, and its counts of moves and retries are those of its thread since |
| StoreOrigins.BeginsIffValid | src/store.rs:256-259 | calling an append starts one if and only if the candle is valid, and otherwise changes nothing |
| StoreOrigins.CallEnds | src/store.rs:251-284 | an append ends with `Ok` or an error, with the error if and only if a spill of its own failed, and then acknowledges nothing |
| StoreOrigins.PushIsCallers | src/store.rs:294-310 | every candle in any ring's history was given to an append to that ring's symbol |
| StoreOrigins.EvictsOnlyWhenFull | src/store.rs:354-430 | a symbol leaves the map only alone, by an eviction, from a full map, for an append to a symbol that is not in it |
| StoreOrigins.StampIsTick | src/store.rs:261-276 | an entry's access stamp is the tick that some append to its symbol took, and ticks are numbered in the order taken |
| StoreTheorems.NoPushAfterEviction | src/store.rs:422-430 | a ring that has left the map never changes again and never comes back |
| StoreTheorems.NoPushAfterSnapshot | src/store.rs:371-430 | from the flag on, through snapshot, spill and removal and ever after, the evicted ring keeps its flag and its whole history, and the snapshot stays its contents, unless its spill fails and the flag is cleared |
| StoreTheorems.NoPushWhileFlagged | src/store.rs:294-310 | over any stretch of a run in which the flag of an entry is not cleared, a flagged ring stays flagged and gains no candle |
| StoreTheorems.PushesLandLive | src/store.rs:294-310 | every push of every run lands in an entry that is mapped and not flagged |
| StoreTheorems.FlagsTellMapped | src/store.rs:354-377 | whenever nobody holds the outer write lock, an entry is mapped if and only if its flag is clear; the map never exceeds the larger of one and the limit, and keeps the limit exactly when it is positive or the map is empty; every entry is mapped or counted as evicted |
| StoreTheorems.AppendStepsAreBounded | src/store.rs:261-284 | retries are paid for by eviction attempts made since the call, with at most 13 steps per try |
| StoreOrigins.AppendMovesAreBounded | src/store.rs:261-284 | the same counted over the moves of the run: fewer than 13 of its own for each eviction attempt since it began, and 13 more |
| StoreTheorems.VersionCountsPublications | src/store.rs:294-310 | `version` is acknowledged appends plus published signals in every state |
| StoreOrigins.CountersCountMoves | src/store.rs:562-565 | acknowledgements, published signals, signals, eviction attempts and ticks are the numbers of the moves that make them |
| StoreTheorems.SnapshotNeverOvercounts | src/store.rs:514-531 | `appends_total` never exceeds the appends acknowledged when the snapshot loaded `version` |
| StoreOrigins.SnapshotMisses | src/store.rs:514-531 | `appends_total` is the number of appends that returned before its first load less the signals pending then and those made before its second, but not below zero; exact if and only if there were no such signals or no appends |
| SnapshotRaces.SnapshotMissesAny | src/store.rs:558-565 | for every `n` a reachable state in which a snapshot has reported none of `n` appends |
| StoreTheorems.EveryPushHasOneOwner | src/store.rs:251-310 | no two acknowledgements share a push, and every push is acknowledged or belongs to an append that has not returned |
| StoreTheorems.RangeIsComplete | src/store.rs:448-468 | a query racing anything, if the ring was in order when it read it, returns every timestamp of the window acknowledged before the call and not overwritten when it returns; the answer is the one sorted list that has exactly the hot read at its timestamps, candle for candle and as often, and exactly the cold candles at the others |
| StoreTheorems.RangeKeepsHot | src/store.rs:448-468 | whatever the order of the ring, one part alone is the answer when the other is empty, and every candle of the hot read is in it as often as it was read |
| StoreTheorems.RangeWithoutFiles | src/store.rs:448-468 | without a data directory the answer is the hot read, with every timestamp due whose ring is still mapped |
| StoreOrigins.QueryHasOrigin | src/store.rs:448-468 | a running query has the symbol and window it was called with |
| StoreOrigins.ReadsWhatWasAppended | src/store.rs:448-468 | if an append returned before a query of its symbol and window was called, the timestamp of the candle it was given is in the answer, unless it was overwritten |
| StoreTheorems.RunKeepsInv | src/store.rs:326-444 | locks, map, flags, files, histories, counters, progress and running queries stay consistent in every state of every run |
| StoreTheorems.RunEvolves | src/store.rs:360-430 | over any stretch of a run rings only grow, and only while mapped, and files stay |
| StoreInvariant.StepKeepsCore | src/store.rs:326-444 | every step of every thread keeps the protocol invariant |
| StoreInvariant.PushKeepsCore | src/store.rs:294-310 | a push keeps the protocol invariant of all threads |
| StoreInvariant.FlagKeepsCore | src/store.rs:371-377 | flagging under the ring lock keeps every other thread's knowledge true |
| StoreInvariant.ClearFlagKeepsCore | src/store.rs:391-399 | clearing the flag after a failed spill puts the entry back in service |
| StoreInvariant.SpillOkKeepsCore | src/store.rs:380-409 | a successful spill has the ring contents in one cold file before the entry leaves the map |
| StoreInvariant.RemoveKeepsCore | src/store.rs:410-430 | removal leaves only flagged, archived entries unmapped and the map within bound |
| StoreInvariant.InsertKeepsCore | src/store.rs:431-444 | insertion maps one fresh entry under a symbol that was not mapped |
| StoreHistory.StepEvolves | src/store.rs:294-310 | one step never shortens a ring, revives an evicted entry or loses a file |
| StoreHistory.StepKeepsFates | src/store.rs:294-310 | each push keeps exactly one owner through every step |
| StoreHistory.StepKeepsCounters | src/store.rs:562-565 | every step bumps `version` exactly when it acknowledges an append or publishes a signal |
| StoreHistory.StepKeepsProgress | src/store.rs:261-284 | every step of an append uses up rank or is charged to an eviction attempt |
| StoreRange.StepKeepsRange | src/store.rs:448-468 | what a running query has read stays enough for its answer, whatever others do |
| StoreProvenance.ColdComesFromPushes | src/store.rs:380-409 | everything in a cold directory was there at the start or was pushed under it |
| StoreProvenance.RangeInventsNothing | src/store.rs:448-468 | every candle of an answer was pushed for the symbol asked about, if no other symbol shares its directory |
| StoreDeadlock.NoDeadlock | src/store.rs:251-310 | while any append is running, some append can make a step |
| StoreDeadlock.RingHolderCanStep | src/store.rs:294-310 | a thread that holds a ring lock is never blocked |
| Lru.RecencyCounts | src/store.rs:354-359 | in front of a symbol in recency order stand exactly the symbols used since its last use |
| Lru.TakeIsMostRecent | src/store.rs:354-359 | a symbol is among the `n` most recent if and only if it was used and fewer than `n` others since |
| Lru.UseHit | src/store.rs:261-284 | using one of the first `n` only moves it to the front |
| Lru.UseMiss | src/store.rs:354-370 | using another pushes it in front and the last one out |
| SerialStore.LeastIsLast | src/store.rs:354-359 | the entry with the least access tick is the least recently used symbol |
| SerialStore.HitKeepsLru | src/store.rs:261-284 | a hit keeps the map the most recently used symbols, in order of access tick |
| SerialStore.MissWithRoomKeepsLru | src/store.rs:431-444 | so does inserting with room |
| SerialStore.MissWithEvictionKeepsLru | src/store.rs:354-444 | so does inserting in the place of the least tick |
| SerialStore.RangeTs | src/store.rs:460-467 | hot and cold parts together are the one answer there is, with exactly the timestamps of the ring's window and of the stored window |
| SerialStore.FlagLeavesNoTrace | src/store.rs:371-399 | a flag set and cleared, or set and removed, leaves the map as if never set |
| SerialStore.CandleStore.constructor | src/store.rs:193-210 | a new store is empty and valid |
| SerialStore.CandleStore.LeastRecent | src/store.rs:354-359 | the scan finds a least access tick |
| SerialStore.CandleStore.TryAppend | src/store.rs:251-284 | exactly when each result comes and whom it names, every ring, key, file and counter afterwards; an error changes no key, ring, flag or published count, and no file but for the one a failed spill may leave under a free name |
| SerialStore.CandleStore.PushAndPublish | src/store.rs:294-310 | an append to a mapped symbol pushes once, bumps once and makes it the most recent |
| SerialStore.CandleStore.TryInsertNew | src/store.rs:326-444 | the same for a symbol that is not mapped |
| SerialStore.CandleStore.MapNew | src/store.rs:431-444 | the new entry holds the candle, and the map stays in recency order |
| SerialStore.CandleStore.MakeRoom | src/store.rs:354-430 | there is room, or the least recently used entry left and is archived, or the map is as it was and at most the file of a failed spill was added |
| SerialStore.CandleStore.EvictEntry | src/store.rs:371-430 | an eviction archives the ring and removes the key, or leaves the map as it was and at most the file of a failed spill behind |
| SerialStore.CandleStore.LeaveFile | src/parquet.rs:214-218 | a spill that fails after creating its file leaves one file under the first free name, whole or unreadable |
| SerialStore.LimitHoldsIff | src/store.rs:354-359 | the map is within the symbol limit if and only if the limit is positive or nothing was ever accepted |
| SerialStore.ZeroLimitAdmitsOne | src/store.rs:354-359 | a store with a limit of zero that holds a symbol |
| SharedDirectory.WrongSymbolAnswered | src/parquet.rs:142-144 | for every two symbols that escape alike, a store never appended to under the one whose every answer for it is the candle pushed under the other |
| SerialStore.CandleStore.Range | src/store.rs:448-468 | the answer is the merge of the ring's block with the cold answer, either part alone when the other is empty, with every hot candle as often as in the ring; on a sorted ring it is determined candle for candle and has exactly the timestamps stored hot or cold in the window |
| RingBuffers.RingBuffer.constructor | src/ring_buffer.rs:34-42 | an empty ring of the capacity asked for |
| RingBuffers.RingBuffer.Push | src/ring_buffer.rs:46-66 | the ring holds the last `capacity` pushes, and the outcome compares with the previous timestamp |
| RingBuffers.RingBuffer.PhysicalIdx | src/ring_buffer.rs:70-75 | where the `i`-th oldest candle lies |
| RingBuffers.RingBuffer.TsAt | src/ring_buffer.rs:79-81 | the timestamp of the `i`-th oldest candle |
| RingBuffers.RingBuffer.LowerBoundIdx | src/ring_buffer.rs:85-97 | the loop computes the lower search over the contents |
| RingBuffers.RingBuffer.UpperBoundIdx | src/ring_buffer.rs:101-113 | the loop computes the upper search over the contents |
| RingBuffers.RingBuffer.CopyLogicalRange | src/ring_buffer.rs:116-140 | at most two chunk copies give a slice of the contents |
| RingBuffers.RingBuffer.ToVec | src/ring_buffer.rs:143-145 | the last `capacity` pushes, oldest first |
| RingBuffers.RingBuffer.Range | src/ring_buffer.rs:149-154 | a block of the contents, equal to the linear filter when they are sorted |
| RingBuffers.RingBuffer.LastCandles | src/ring_buffer.rs:158-162 | the last `n` of the contents |
| RingBuffers.BoundsNeverCross | src/ring_buffer.rs:85-113 | on any contents, sorted or not, the lower search for `from` never ends past the upper search for `to` |
| RingBuffers.RangeBlockIsFilter | src/ring_buffer.rs:149-154 | on sorted contents the block between the searches is the linear filter |
| RingBuffers.RangeExactIffSorted | src/ring_buffer.rs:149-154 | a ring answers every window exactly if and only if its contents are sorted |
| RingBuffers.UnsortedRingAnswersWrongly | src/ring_buffer.rs:85-113 | two candles out of order and a window that gets both where the filter keeps one |
| RingBuffers.WindowIsLastPushes | src/ring_buffer.rs:46-66 | folding pushes into a window gives the last `capacity` of them |
| RingBuffers.InOrderPushesSortWindow | src/ring_buffer.rs:46-56 | if every push after the first of the window reported `Ok`, the window is sorted |
| RingBuffers.WindowSortedIffReported | src/ring_buffer.rs:46-56 | the contents are in order if and only if no push after the first one still held was reported out of order |
| RingBuffers.RangeExactAfterInOrderRun | src/ring_buffer.rs:46-154 | after such a run a range query is the linear filter of the last pushes |
| RingBuffers.PushKeepsLayout | src/ring_buffer.rs:46-66 | one write at `head` moves the window on by one, before and after wrapping |
| ColdNames.ParseOfFormat | src/parquet.rs:147-169 | reading back a printed `i64` gives it back, negative ones included |
| ColdNames.PlainNameRoundTrip | src/parquet.rs:147-169 | parsing a cold file name returns its start and end for all `i64` values |
| ColdNames.SuffixedNameRoundTrip | src/parquet.rs:158-198 | and so does parsing one with a collision suffix |
| ColdNames.SuffixesDiffer | src/parquet.rs:180-198 | different suffixes give different names |
| ColdNames.SuffixedIsNotPlain | src/parquet.rs:180-198 | a suffixed name is never a plain one |
| ColdNames.EscapeCollides | src/parquet.rs:142-144 | two symbols share a directory if and only if they agree character by character up to replaced ones |
| ColdNames.EscapeIsNotInjective | src/parquet.rs:142-144 | two different symbols that do |
| ColdNames.EscapeIsSafe | src/parquet.rs:142-144 | directory names have only letters, digits, dashes and underscores, and a symbol is its own directory name if and only if it has no others |
| ColdStore.TsSpan | src/parquet.rs:180-185 | least and greatest timestamp of a batch in any order |
| ColdStore.FreeName | src/parquet.rs:186-198 | the first name of the probe sequence that is not taken |
| ColdStore.Spill | src/parquet.rs:173-219 | one new file with the whole batch under a free name |
| ColdStore.SpillOnlyAdds | src/parquet.rs:173-219 | a spill replaces no file, loses no candle and names its file truthfully |
| ColdStore.SpillRunKeepsAll | src/parquet.rs:173-219 | over any sequence of spills every candle of every batch stays stored |
| ColdStore.SpillFailing | src/parquet.rs:214-217 | a file without a footer under the first free name |
| ColdStore.LeftBehindOnlyAdds | src/parquet.rs:214-218 | whatever a failed spill leaves replaces no file, misstates nothing and stores only candles of its batch |
| ColdStore.LitterHarmsNothing | src/parquet.rs:290-298 | a file without a footer hides no file, stores no candle and misstates nothing |
| ColdStore.PruningIsSafe | src/parquet.rs:278-290 | a pruned file holds no candle of the window |
| ColdStore.PruningIsExact | src/parquet.rs:278-290 | a file that a spill named is skipped if and only if its span misses the window |
| ColdStore.DedupByTs | src/parquet.rs:303-309 | one candle per timestamp, strictly ascending, none lost |
| ColdStore.CollectWindow | src/parquet.rs:270-298 | exactly the candles of the window in the files that are opened, in whatever order files are listed |
| ColdStore.QueryCold | src/parquet.rs:270-311 | strictly ascending, only candles of the window, every timestamp of it stored in a file that is opened; in a directory with truthful names, every stored one |
| ColdStore.HonestHidesNothing | src/parquet.rs:282-287 | where names state their ranges truthfully, skipping files by name hides no candle of the window |
| HotColdMerge.MergeByTs | src/store.rs:571-586 | the two-index loop computes the recursive merge |
| HotColdMerge.MergeIsSorted | src/store.rs:571-586 | merging sorted parts gives a sorted list |
| HotColdMerge.MergeMembers | src/store.rs:571-586 | a candle is in the merge if and only if it is hot, or cold with no hot candle at its timestamp |
| HotColdMerge.MergeInventsNothing | src/store.rs:571-586 | whatever the order of its parts, a merge holds only their candles |
| HotColdMerge.CombineIsFaithful | src/store.rs:460-467 | with the shortcuts for an empty part: sorted, exactly the hot list at hot timestamps and exactly the cold candles at the others, so in particular exactly those candles and timestamps |
| HotColdMerge.AnswerIsUnique | src/store.rs:460-467 | only one list is that |
| HotColdMerge.MergeKeepsHot | src/store.rs:571-586 | for any lists, sorted or not, a merge keeps each hot candle as often as it occurs and adds none |
| Cursors.MaskIsSlot | src/shm.rs:112-131 | masking with `capacity - 1` is the remainder by a power of two |
| Cursors.SlotOfCursor | src/shm.rs:146-192 | a cursor that wrapped at 2^64 still selects the slot of its unbounded count |
| Cursors.SlotsDiffer | src/shm.rs:146-162 | counts less than a lap apart have different slots |
| Cursors.WrapSubOf | src/shm.rs:146-162 | the wrapping difference of two cursors is the true one when it fits |
| Spsc.RunKeepsInv | src/shm.rs:146-192 | the ring invariant holds in every state of every interleaving |
| Spsc.PoppedIsPrefixOfPushed | src/shm.rs:146-192 | popped is a prefix of pushed, at most `capacity` lie between, and the cursors are the counts modulo 2^64 |
| Spsc.NoSlotRace | src/shm.rs:457-479 | the producer never writes the slot the consumer is reading, and both stay inside the array |
| Spsc.RefusalsAreExact | src/shm.rs:638-660 | the comparison a push or pop makes, however stale its other cursor, tells whether the ring was full or empty at the load it rests on |
| Spsc.BranchesAreExact | src/shm.rs:146-192 | a push is refused if and only if the ring was full at that load, a pop if and only if it was empty, an attaching reader if and only if capacities differ; otherwise the call goes on with its item and cursor |
| Spsc.PushedIsGiven | src/shm.rs:146-162 | what a push enqueues is the item its caller gave |
| Spsc.HandshakeIsSafe | src/shm.rs:567-604 | a reader attaches only to an initialised segment of its own capacity and is refused only when capacities differ |
| Spsc.RefinesFifo | src/shm.rs:146-192 | storing `head` enqueues, storing `tail` dequeues the oldest item, every other step is invisible |
| Spsc.SpscRing.constructor | src/shm.rs:112-131 | an empty ring |
| Spsc.SpscRing.TryPush | src/shm.rs:146-162 | appends to the queue, or refuses exactly when it is full |
| Spsc.SpscRing.TryPop | src/shm.rs:177-192 | removes the oldest item, or refuses exactly when the queue is empty |
| Orders.TryPriceKey | src/matching/book.rs:45-56 | exactly which error comes for which price, and that a finite price in range gets its key |
| Orders.Validate | src/matching/book.rs:72-81 | exactly which orders are rejected and with which error; an accepted one is unfilled and has the id, symbol, side, quantity, kind and price asked for, constructor by constructor |
| Orders.KeyIsNearest | src/matching/book.rs:45-65 | a key stands for its price to half a tick |
| Orders.KeyRoundTrip | src/matching/book.rs:45-65 | every positive key is the key of its own price |
| Orders.KeyIsZeroIff | src/matching/book.rs:45-65 | an accepted price has the level of price zero if and only if it is less than half a tick |
| Orders.KeysKeepOrder | src/matching/book.rs:45-56 | a higher price never has a lower key |
| Orders.CrossingPrice | src/matching/book.rs:179-197 | a level that crosses is worse than the limit by at most half a tick |
| FlatBook.Sweep | src/matching/book.rs:199-218 | the taker stays valid and changes only in its remainder, and what rests stays live and on its side |
| FlatBook.SweepConsumesPrefix | src/matching/book.rs:179-218 | trades meet a prefix of the opposite side in order, and only its last maker can keep a remainder |
| FlatBook.SweepStopsInTime | src/matching/book.rs:179-218 | trades happen only at crossing levels and while the taker is not filled, and the sweep stops for no other reason |
| FlatBook.SweepReaches | src/matching/book.rs:179-218 | a sweep meets the maker at a place if and only if all levels up to there cross and the makers in front leave the taker more than dust |
| FlatBook.SweepTradeAt | src/matching/book.rs:199-218 | the trade at each place is with the maker there, at its level, for the smaller of what it has and what those in front left |
| FlatBook.SweepLeaves | src/matching/book.rs:199-218 | what stays is the list behind the last maker met, and that maker with the rest if more than dust |
| FlatBook.TradePricesWorsen | src/matching/book.rs:179-218 | fill prices are monotone along the sweep |
| FlatBook.FillsWithinLimit | src/matching/book.rs:179-218 | no trade of a sweep is worse than the taker's limit by more than half a tick |
| FlatBook.SweepFillsIffEligible | src/matching/book.rs:153-218 | the sweep fills the taker if and only if the crossing quantity is enough, so the sum of `can_fill` agrees with the loop |
| FlatBook.SweepLedger | src/matching/book.rs:199-218 | under every id makers lose what they trade, and those that leave take at most dust with them |
| FlatBook.EventSums | src/matching/book.rs:213-214 | fills come in pairs: per id they total what taker and makers traded, and signed they total zero |
| FlatBook.InsertSplits | src/matching/book.rs:220-226 | a resting order goes behind every order at the same or a better level and in front of every worse one |
| BookRuns.SubmitKeepsBook | src/matching/book.rs:108-145 | a submission keeps both sides sorted, live, on their side and uncrossed |
| BookRuns.NothingLeftToCross | src/matching/book.rs:179-197 | a limit order that is not filled has swept everything it crosses |
| BookRuns.SubmitHonoursLimit | src/matching/book.rs:121-218 | every fill a submission reports is within the limit of the order submitted |
| BookRuns.MakersHonourLimit | src/matching/book.rs:199-226 | and every maker trades within its own limit |
| BookRuns.FokIsAllOrNothing | src/matching/book.rs:125-131 | a fill-or-kill order trades between `qty * (1 - 1e-9)` and `qty`, or leaves the book alone with one cancel; the crossing quantity decides |
| BookRequests.FokRequest | src/matching/book.rs:125-131 | a valid fill-or-kill request under a new id has fills between `qty * (1 - 1e-9)` and `qty` if that much rests at prices it accepts, and otherwise no fill, one cancel and the book as it was |
| BookRequests.FillsMeet | src/matching/book.rs:121-218 | a request has a fill with the order at a place if and only if it accepts all prices up to there, the orders in front leave it more than dust and, if fill or kill, enough rests at prices it accepts |
| BookRequests.FillsReported | src/matching/book.rs:199-218 | the fills come in pairs, best order first: id, symbol, side, level price, quantity and timestamp of each |
| BookRequests.OrdersLeft | src/matching/book.rs:199-218 | orders met are gone, the last one perhaps with a leftover, and all behind it are as they were |
| BookRequests.LimitsRest | src/matching/book.rs:132-145 | a limit request left with more than dust rests with exactly that and its own fields, behind every order at its level or better and in front of all others; no other request touches its own side |
| BookRequests.RequestHonoursLimit | src/matching/book.rs:121-218 | every fill of a priced request is within half a tick of the price asked for |
| BookRuns.CancelsAreTold | src/matching/book.rs:132-142 | a submission is cancelled if and only if it gives up a quantity, and then more than dust |
| BookRequests.CancelsSayWhy | src/matching/book.rs:108-145 | a request under a new id is cancelled, once and last, if and only if it is invalid, or may not rest and more than dust of it is not traded; the reason is the one of its kind; an invalid one changes nothing |
| BookRuns.SubmitConserves | src/matching/book.rs:121-145 | one submission's quantity is traded, resting, cancelled or dust, and others only trade or leave as dust |
| BookRuns.Play | src/matching/book.rs:108-145 | after any run the book is sorted, live and uncrossed |
| BookRuns.QuantityIsConserved | src/matching/book.rs:121-218 | over any run, per id, asked is traded plus resting plus cancelled up to 1e-9 of asked, and bought equals sold |
| BookRuns.TradesForNothing | src/matching/book.rs:199-218 | two limit orders below half a tick meet, and any quantity changes hands at price zero |
| BookRuns.RunsAreSound | src/matching/book.rs:199-218 | over any run every fill has a positive quantity and a price from zero up to the maximum |
| OrderBooks.BestKey | src/matching/book.rs:147-148 | the key no other key of the side comes before |
| OrderBooks.LevelStep | src/matching/book.rs:206-217 | one turn of the loop is one step of the sweep and removes the maker or finishes the taker |
| OrderBooks.FillLevel | src/matching/book.rs:199-218 | working off one level is that much of the sweep, with its events |
| OrderBooks.RangeSumIsEligible | src/matching/book.rs:153-164 | the key range `can_fill` sums over holds exactly the levels the matching loop would cross |
| OrderBooks.QueuedIsInserted | src/matching/book.rs:220-226 | queueing at a level is inserting by price, then arrival |
| OrderBooks.OrderBook.constructor | src/matching/book.rs:91-93 | an empty book |
| OrderBooks.OrderBook.TrySubmit | src/matching/book.rs:99-102 | the exact error and no change, or what the reference book does |
| OrderBooks.OrderBook.Submit | src/matching/book.rs:108-118 | the levels, flattened, and the events are those of the reference book over the whole run |
| OrderBooks.OrderBook.SubmitValidated | src/matching/book.rs:121-145 | book and events of all four order kinds are the reference outcome |
| OrderBooks.OrderBook.CanFillNow | src/matching/book.rs:153-170 | decides by the crossing quantity of the reference book |
| OrderBooks.OrderBook.MatchOrder | src/matching/book.rs:172-177 | sweeps the side opposite to the order |
| OrderBooks.OrderBook.MatchBuy | src/matching/book.rs:179-187 | the loop over the lowest asks is the sweep of the flattened asks, and leaves no level empty |
| OrderBooks.OrderBook.MatchSell | src/matching/book.rs:189-197 | the loop over the highest bids is the sweep of the flattened bids, and leaves no level empty |
| OrderBooks.OrderBook.Rest | src/matching/book.rs:220-226 | the order rests in price-time priority |
| OrderBooks.OrderBook.BestBid | src/matching/book.rs:147 | the price of the first bid in priority order, and none if and only if there is no bid |
| OrderBooks.OrderBook.BestAsk | src/matching/book.rs:148 | the same of the asks |
| OrderBooks.OrderBook.Spread | src/matching/book.rs:147-149 | defined if and only if both sides hold an order, the price of the first ask less that of the first bid, and whatever was submitted before at least a tick |
| Portfolios.BuyInto | src/matching/portfolio.rs:63-79 | the buy branch is the signed rule that `AddingMeans` and `ReducingMeans` give a meaning to |
| Portfolios.SellFrom | src/matching/portfolio.rs:82-98 | the sell branch is the same rule mirrored |
| Portfolios.AddingMeans | src/matching/portfolio.rs:63-68 | adding takes no profit, moves the position by the quantity and averages the cost by quantity |
| Portfolios.ReducingMeans | src/matching/portfolio.rs:69-109 | reducing takes exit against entry on the part closed; the rest stays at its cost, what is opened beyond is at the fill's price, and within dust of flat is flat |
| Portfolios.Settle | src/matching/portfolio.rs:57-109 | one fill on one holding: the signed rule, snapped to flat, and the cash it costs |
| Portfolios.FillTouchesOneSymbol | src/matching/portfolio.rs:43-110 | a fill moves cash by its notional and profit by its gain and touches no other symbol |
| Portfolios.OneSidedRun | src/matching/portfolio.rs:43-110 | while a symbol trades on one side, its position is all that was traded, its cost times that is all that was paid, and none of its fills takes profit |
| Portfolios.RoundTrip | src/matching/portfolio.rs:43-110 | closing such a position realizes exactly exit less entry notional and leaves it flat |
| Portfolios.Portfolio.constructor | src/matching/portfolio.rs:33-41 | opening cash, no positions |
| Portfolios.Portfolio.Apply | src/matching/portfolio.rs:43-110 | the state is always the replay of the trade log, fill by fill as `FillTouchesOneSymbol` describes |
| Portfolios.Portfolio.TotalProfit | src/matching/portfolio.rs:129-134 | realized profit plus the open profit of every symbol priced, whatever the order in which they are visited |
| Portfolios.FillBalances | src/matching/portfolio.rs:62-109 | a fill moves value between cash, cost and profit and loses exactly its dust at its price or its cost |
| Portfolios.DriftBound | src/matching/portfolio.rs:62-109 | one fill loses at most 1e-9 of its quantity at the larger of its price and the cost |
| Portfolios.ExactIff | src/matching/portfolio.rs:62-109 | a fill loses nothing if and only if it adds, closes to the last unit, misses that by more than dust, or meets dust worth nothing |
| Portfolios.PositivePricesExactIff | src/matching/portfolio.rs:62-109 | with positive prices the quantities alone decide |
| Portfolios.FillIsExactIff | src/matching/portfolio.rs:43-110 | the same of the accounting identity over all symbols |
| Portfolios.FillKeepsIdentity | src/matching/portfolio.rs:43-110 | over all symbols the accounting identity changes by exactly that loss |
| Portfolios.IdentityIsKept | src/matching/portfolio.rs:43-110 | over any run of fills, cash plus cost less profit stays at the opening cash up to 1e-9 of the volume at the top price |
| Portfolios.IdentityIsExactIff | src/matching/portfolio.rs:43-110 | throughout a run the identity is the opening cash if and only if every fill was exact on the account it met |
| Portfolios.DustIsLost | src/matching/portfolio.rs:73-78 | after selling 1 and buying back 1.0000000001 the identity is 9e-9 below the opening cash |
| Portfolios.CostStaysInRange | src/matching/portfolio.rs:14-19 | an open position costs between the lowest and the highest price it traded at, a flat one nothing |
| Portfolios.EquityIsProfit | src/matching/portfolio.rs:123-134 | with a price for every open position, equity is total profit on top of the identity |
| Portfolios.ClosingRealizes | src/matching/portfolio.rs:120-127 | closing a position at its mark realizes its open profit and brings in what it was marked at |
| Portfolios.ClosingKeepsTotals | src/matching/portfolio.rs:120-134 | so neither total profit nor equity changes by closing at the mark |
| Portfolios.EquityOverRuns | src/matching/portfolio.rs:123-134 | over any run equity is opening cash plus total profit, up to dust |
| Trading.TradedAtMostAsked | src/matching/book.rs:121-218 | nobody trades more than they asked for |
| Trading.TraderKeepsIdentity | src/matching/portfolio.rs:43-110 | a portfolio fed with the book's fills of one id keeps the identity up to 1e-9 of the quantity asked for at the highest price traded |
| MarketHub.RollingSma.constructor | src/bin/market_hub.rs:174-176 | an empty window |
| MarketHub.RollingSma.Push | src/bin/market_hub.rs:178-188 | the ring holds and the running sum totals the last `period` closes |
| MarketHub.RollingSma.Value | src/bin/market_hub.rs:190-196 | defined exactly from the `period`-th close on, and then the mean of the last `period` closes |
| MarketHub.WindowSlides | src/bin/market_hub.rs:178-188 | the total of the window moves by the new close less the one that left |
| MarketHub.RateLimiter.constructor | src/bin/market_hub.rs:406 | a bucket opened now |
| MarketHub.RateLimiter.TryAccept | src/bin/market_hub.rs:407-416 | accepts exactly while the open bucket has room, and keeps the limits below |
| MarketHub.TriedOk | src/bin/market_hub.rs:407-416 | one try keeps at most `2 * max` in any second and `max` in any bucket |
| MarketHub.RunsAreLimited | src/bin/market_hub.rs:400-417 | over every run on a clock that never goes back: at most `2 * max` in any half-open second, at most `max` in any bucket |
| MarketHub.TwiceTheLimitHappens | src/bin/market_hub.rs:407-416 | for every positive `max` a run that accepts `2 * max` within a second |
| MarketHub.DocumentedLimitIffZero | src/bin/market_hub.rs:336-338 | the documented limit of `max` in any second holds of every run if and only if `max` is zero |

## Left out

- Memory mapping, segment creation and unlinking, and the operating-system calls around the shared-memory ring.
- Weak memory: loads and stores interleave, but each is atomic and seen at once by the other side.
- Blocking loops: `push`, `pop`, `push_until`, the ingester thread and `wait_for_change` repeat the modelled attempts until one succeeds.
- `depth`, byte counters, full-ring statistics and the out-of-order counter: reported numbers that nothing else depends on.
- Wrap-around of the 64-bit `version`, tick and counters: they are unbounded here.
- Encoding of the cold files and their schema check: a file is its list of candles, or unreadable.
- ColdNames.EscapeCollides: keeps ASCII letters and digits only, where the code keeps all Unicode ones.
- IEEE rounding: prices, quantities and sums are exact reals; not-a-number and infinities are kept only where the code tests for them. The largest price is taken as exactly `u64::MAX / 1e8`, where the code's constant and its `key_price` both round `u64::MAX` up; as in the code, the largest key gives the largest price back.
- The paper engine, the signal codec, the strategy and executor threads, position persistence, hardware probing, the foreign-function interface, the feed and the Go client: they add only easy members.
- StoreTheorems.NoAcceptedCandleIsLost: says nothing without a data directory, where eviction discards a ring by design.
- StoreTheorems.RangeIsComplete: stated with a data directory; `RangeWithoutFiles` covers the other case.
- StoreProtocol: any mapped symbol may be chosen as the victim, because the scan races with the stores to `last_access`; exact least-recently-used order is proved of the serial store.
- SerialStore.CandleStore.TryAppend: asks that a cold directory hold fewer files than there are collision suffixes, and keeps rings as values; sharing of entries between threads is in the step machine.
- SerialStore.CandleStore.TryInsertNew: asks the same of the cold directories.
- SerialStore.CandleStore.MakeRoom: asks the same of the cold directories.
- SerialStore.CandleStore.EvictEntry: asks the same of the cold directories.
- SerialStore.CandleStore.LeaveFile: asks the same of the cold directories.
- ColdStore.QueryCold: sorts by insertion, one of the orders that the unstable sort may give to candles of equal timestamp.
- ColdStore.Spill: asks that the directory hold fewer files than there are collision suffixes, as the `u32` counter overflows otherwise.
- ColdStore.FreeName: asks the same.
- ColdStore.SpillFailing: asks the same.
- BookRequests.FokRequest: asks for an id that no resting order has, as fills under a reused id cannot be told apart.
- BookRequests.CancelsSayWhy: asks the same.
- BookRequests.LimitsRest: asks the same.
- RingBuffers.RingBuffer.Push: asks for a positive capacity, as the code panics otherwise.
- Orders.Validate: an order enters as one of the four constructors builds it, so its remainder is its quantity and only a market order has no price.
- Portfolios.Portfolio.Apply: asks for a positive quantity, without which the blended cost can divide by zero; every fill of the book has one.
- MarketHub.RateLimiter.TryAccept: takes the clock reading as a parameter and asks that readings never go back.
