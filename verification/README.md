# A verified model of the pod node

This project models the parts of the pod repository where correctness is hardest to see, and proves what they are
relied on for. The repository holds a Go SPV client and wallet next to the original C++ daemon under `legacy/`.

- **The check queue** (`CheckQueue`). A master and any number of workers share a stack of checks under one mutex.
  Each critical section and each batch execution is one step of a state machine; results hold for every run.
- **The address manager** (`AddrTables`, `AddrResults`, `AddrEntries`, `AddrMan`, `AddrFile`, `AddrCheck`). Five
  cross-linked tables and two counters. `AddrTables` describes every operation as a function of the old tables and of
  the random choices made; `AddrEntries` says what that means for single entries; `AddrMan` is the object whose methods
  have exactly those effects; `AddrFile` is the serializer; `AddrCheck` is the manager's own self-check, which passes in
  every reachable state.
- **Wallet rescans** (`Rescan`). A rescan guided by compact filters reports what a search of every block reports.
- **UTXO scans** (`SpendReporter`, `UtxoBatch`, `UtxoRuns`, `BatchSpend`, `UtxoScanner`). Requests join a running scan
  at their birth height and are each told one thing. `UtxoRuns` is the interleaving of callers, the batch manager and
  Stop; the object in `UtxoScanner` records its history and every change it makes is a step of that machine.
- **Filter headers** (`FilterHeaders`). Replies arrive in any order and are written in order through a stash.
- **Query batches** (`QueryBatch`). Goroutines claim queries by compare-and-swap; every atomic operation is a step.
- **Trees, orders and codecs** (`Merkle`, `Replacement`, `Amounts`, `Digits`, `Base58`, `Compact`).
- **Small stateful structures** (`Bloom`, `LockedPages`).

Hashes are uninterpreted functions, injective only where a result says so. Randomness, clocks, timers, the network and
what other goroutines do are arguments or nondeterministic steps. Container classes of the C++ and Go libraries are
sequences, sets and maps; a priority queue is a set from which a least element is taken; a `std::set` or `std::map` is
walked in ascending order.

Results that may surprise, each with the exact condition and an input or a run that shows it:

- Two requests for one outpoint with different birth heights can make the UTXO scanner tell the earlier one that its
  output does not exist (`UtxoBatch.LaterBirthLosesOutput`); `UtxoBatch.BatchIsNaive` says exactly when it does not.
- A request that was dequeued while the block of its birth height could not be fetched is never answered
  (`UtxoRuns.FailedFetchLosesRequest`, `UtxoRuns.LostForGood`); `UtxoRuns.NothingLostUnlessDropped` says that this is
  the only way. Its caller goes on only by cancelling, or once the scanner's quit channel is closed.
- A query whose goroutine was told to quit while working on it stays claimed (`QueryBatch.QuitWhileWorkingAbandons`)
  and is never answered (`QueryBatch.AbandonedForGood`); a batch can still complete exactly when there is no such query
  (`QueryBatch.CanCompleteUnlessAbandoned`).
- `SelectTried` of the address manager is documented as picking the least recently tried of four entries. It does so
  exactly when the draw that found the entry left it in place (`AddrMan.RightEntryIff`), and otherwise returns the place
  the entry came from (`AddrMan.WrongEntryIsPicked`).
- The check queue's controller reads the counters without the mutex, and its first assertion fails while a worker is
  inside its critical section (`CheckQueue.ControllerReadsTooEarly`, `CheckQueue.ReadsTooEarlyAtStart`); they hold when
  none is (`CheckQueue.ControllerAssertionsHold`).
- The address manager's self-check does not see everything (`AddrCheck.SurplusAddressPasses`); `AddrCheck.ConsistentIff`
  says what it leaves out.
- A filter header reply is not counted: with injective hashing an accepted one keeps the store right exactly when it has
  1000 hashes or comes too late to matter (`FilterHeaders.CheckpointSync.HandleReply`). Others are accepted only if
  hashing has cycles, as in `FilterHeaders.ShortReplyVerifies`.

## Model

| member | source | states |
|---|---|---|
| `CheckQueue.WaitIsExact` | legacy/src/checkqueue.h:61-118 | in every run, Wait returns true exactly when every check added since the previous Wait passes, although batches short-circuit and start from a stale verdict |
| `CheckQueue.CountersAreExact` | legacy/src/checkqueue.h:69-101 | whenever the mutex is free, nTodo is the queue length plus all batches in flight, and nTotal minus nIdle is the number of threads executing |
| `CheckQueue.ControllerAssertionsHold` | legacy/src/checkqueue.h:164-171 | the controller's three assertions hold whenever the mutex is free, the master is outside and it has added nothing since its last Wait |
| `CheckQueue.ControllerReadsTooEarly` | legacy/src/checkqueue.h:164-171 | read while a worker is inside its critical section, without the mutex as the controller reads them, nTotal is one more than nIdle, so that the first assertion fails; the other two hold |
| `CheckQueue.ReadsTooEarlyAtStart` | legacy/src/checkqueue.h:77-80 | a run in which that can happen: a worker has just been started |
| `CheckQueue.MasterIsNeverStranded` | legacy/src/checkqueue.h:71-95 | a master that waits unsignalled waits for a worker that is still running a batch |
| `CheckQueue.OutcomeIs` | legacy/src/checkqueue.h:82-101 | in every run, a thread takes a batch exactly when there is something queued; a worker never leaves; the master leaves exactly when no check is queued or in anybody's batch |
| `CheckQueue.WorkersStay` | legacy/src/checkqueue.h:82-95 | a worker that has entered the loop is in it in every later state |
| `CheckQueue.NeverQuits` | legacy/src/checkqueue.h:53-54 | the flag that would let workers go is false in every state of every run |
| `CheckQueue.AddWakesWorkers` | legacy/src/checkqueue.h:136-147 | adding one check wakes a waiting worker if there is one, adding more leaves none waiting, and adding none changes nothing |
| `CheckQueue.RunKeepsInvariant` | legacy/src/checkqueue.h:61-147 | the counters and the verdict accounting hold in every state of every run |
| `CheckQueue.CriticalKeepsCounters` | legacy/src/checkqueue.h:69-101 | a critical section keeps the counters exact |
| `CheckQueue.CriticalKeepsVerdicts` | legacy/src/checkqueue.h:69-111 | a critical section keeps: a false check of this round is queued, in flight or already counted against the verdict |
| `CheckQueue.BatchLength` | legacy/src/checkqueue.h:96-101 | a batch has between 1 and nBatchSize checks (or one) and never more than the queue |
| `CheckQueue.BatchLeavesWork` | legacy/src/checkqueue.h:96-101 | if a batch has more than one check, every thread in the loop, the idle ones counted twice, and one more could take as many |
| `CheckQueue.BatchIsLargest` | legacy/src/checkqueue.h:96-101 | and it is the largest batch within nBatchSize of which that is true |
| `CheckQueue.TopMembers` | legacy/src/checkqueue.h:102-108 | popping splits the queue into the batch and the rest, losing and inventing nothing |
| `CheckQueue.Queue.constructor` | legacy/src/checkqueue.h:122-123 | the initial state of every run |
| `CheckQueue.Queue.Add` | legacy/src/checkqueue.h:136-147 | the checks are appended and counted, nothing else changes, and who is notified depends on how many there were |
| `CheckQueue.Queue.CriticalSection` | legacy/src/checkqueue.h:69-111 | the in-place critical section has the effect the state machine's step has, of which OutcomeIs and CountersAreExact say what it means, and notifies the master exactly when the last check was done |
| `CheckQueue.Queue.TakeBatch` | legacy/src/checkqueue.h:101-110 | the batch is the top of the stack, the rest stays |
| `CheckQueue.ExecuteBatch` | legacy/src/checkqueue.h:112-116 | the result is true exactly when it was true and every check passes |
| `AddrTables.HistoryIsConsistent` | legacy/src/addrman.cpp:94-369 | from the empty manager, every sequence of Add, Good, Attempt, Connected and GetAddr keeps all five tables and both counters consistent |
| `AddrTables.StepKeeps` | legacy/src/addrman.cpp:262-369 | every operation with choices the code can make keeps the invariant |
| `AddrTables.AddedKeeps` | legacy/src/addrman.cpp:313-369 | Add keeps the invariant, although the reference count is raised before the bucket is shrunk |
| `AddrTables.DroppedKeeps` | legacy/src/addrman.cpp:150-202 | removing an id from a new bucket keeps the weakened invariant that holds inside Add, forgetting the entry with its last reference |
| `AddrTables.SwappedKeeps` | legacy/src/addrman.cpp:106-124 | swapping two places of vRandom keeps it the inverse of nRandomPos |
| `AddrTables.CreatedKeeps` | legacy/src/addrman.cpp:94-104 | a new entry extends all indexes consistently, with one reference still to be placed |
| `AddrTables.PromotedKeeps` | legacy/src/addrman.cpp:204-260 | moving an entry to the tried table keeps the invariant, with and without an eviction |
| `AddrTables.EvictionEffect` | legacy/src/addrman.cpp:231-259 | an eviction exchanges exactly two entries, and the leaver goes to its own new bucket if that has room, else to the one just left, which has |
| `AddrTables.GradedKeeps` | legacy/src/addrman.cpp:262-311 | Good keeps the invariant |
| `AddrTables.AttemptedKeeps` | legacy/src/addrman.cpp:371-388 | Attempt keeps the invariant |
| `AddrTables.ConnectedKeeps` | legacy/src/addrman.cpp:510-529 | Connected keeps the invariant |
| `AddrTables.ShuffledKeeps` | legacy/src/addrman.cpp:494-508 | handing out addresses keeps the invariant |
| `AddrTables.SelectionSize` | legacy/src/addrman.cpp:494-498 | the largest number that is at most 2500 and at most 23 percent of the known addresses |
| `AddrResults.HistoryIsTimely` | legacy/src/addrman.cpp:435-463 | with positive times for Good and non-negative ones for Attempt, every reachable state also has sane times |
| `AddrResults.GoodMovesToTried` | legacy/src/addrman.cpp:262-311 | after Good the address is tried with the given times, nothing is forgotten, and at most one other entry moved back to one new bucket |
| `AddrResults.GoodKeepsTimes` | legacy/src/addrman.cpp:262-311 | the time half of the self-check survives Good if and only if the time is positive or the address unknown |
| `AddrResults.AttemptKeepsTimes` | legacy/src/addrman.cpp:371-388 | it survives Attempt if and only if the time is not negative or the address unknown |
| `AddrResults.AddRemembers` | legacy/src/addrman.cpp:313-369 | Add answers whether a routable address was unknown, then knows it, never touches the tried table, and forgets at most one entry, an untried one that only the full bucket held |
| `AddrResults.InsertedEntries` | legacy/src/addrman.cpp:359-367 | inserting into a new bucket remembers everything but a victim that no other bucket held |
| `AddrResults.SelectionIsDistinct` | legacy/src/addrman.cpp:494-508 | addresses handed out are pairwise different |
| `AddrResults.RandomCount` | legacy/src/addrman.cpp:440 | vRandom has as many places as there are entries, which is nTried plus nNew |
| `AddrResults.MemoryIsBounded` | legacy/src/addrman.h:122-132 | however many addresses are offered, at most 20480 are remembered |
| `AddrResults.RangeSharesFourTriedBuckets` | legacy/src/addrman.cpp:10-22 | all addresses of one address range share at most 4 tried buckets |
| `AddrResults.SourceReachesThirtyTwoNewBuckets` | legacy/src/addrman.cpp:24-36 | all sources of one address range reach at most 32 new buckets |
| `AddrEntries.TerribleMeans` | legacy/src/addrman.cpp:38-56 | an entry is terrible if and only if it was not tried within the last minute, and was never seen, is more than ten minutes ahead, was not seen for 60 days, never succeeded in 3 attempts, or had no success for a week and 20 attempts |
| `AddrEntries.AddRefreshes` | legacy/src/addrman.cpp:322-334 | hearing of a known address: its time never goes back, is the old one or the news less the penalty, ends no more than an hour (a day, for news older than a day) behind the news less the penalty and stays if it was within that; services are united; nothing else of it, and of other entries only counts and positions, change |
| `AddrEntries.AddGainsBucket` | legacy/src/addrman.cpp:335-367 | and it gets into the bucket of the new source exactly if it was there or the news is newer than the time now kept, it is untried, has fewer than four references and the draw wins; a full bucket then loses the victim, and nothing else moves |
| `AddrEntries.AddCreates` | legacy/src/addrman.cpp:352-367 | an unknown address becomes an untried entry with no attempts and one reference, in the bucket of its source, last seen at its time less the penalty |
| `AddrEntries.AttemptCounts` | legacy/src/addrman.cpp:371-388 | the attempts of exactly the entry with that service go up by one and its last try is the time given; nothing else changes |
| `AddrEntries.ConnectedTimes` | legacy/src/addrman.cpp:510-529 | the time of exactly the entry with that service ends at most twenty minutes behind the time given, never goes back, and stays if it was within that; nothing else changes |
| `AddrMan.Manager.constructor` | legacy/src/addrman.h:382-391 | the empty manager is consistent |
| `AddrMan.Manager.Find` | legacy/src/addrman.cpp:81-92 | finds an entry exactly when the address is indexed, and the entry has that address |
| `AddrMan.Manager.SwapRandom` | legacy/src/addrman.cpp:106-124 | the two places and the two positions are exchanged |
| `AddrMan.Manager.SelectTried` | legacy/src/addrman.cpp:126-148 | for the places drawn, the bucket as reordered by the swaps and the place named by the inspection, of which InspectIs and RightEntryIff say what it is |
| `AddrMan.InspectIs` | legacy/src/addrman.cpp:130-145 | the entry found stands at the place of its round, and none of the first four (or fewer) succeeded less recently |
| `AddrMan.RightEntryIff` | legacy/src/addrman.cpp:126-148 | the place returned holds the entry that succeeded least recently of those inspected if and only if the draw that found it left it where it was |
| `AddrMan.WrongEntryIsPicked` | legacy/src/addrman.cpp:126-148 | of two entries the older is drawn from the second place, and the place returned holds the newer |
| `AddrMan.Manager.ShrinkNew` | legacy/src/addrman.cpp:150-202 | removes one id: the first terrible one in id order, or else the oldest of four drawn ones; spelled out in the entry's fields, code 0 means that the victim may go and code 1 that no entry of the bucket may |
| `AddrMan.Manager.FirstTerrible` | legacy/src/addrman.cpp:155-173 | the first terrible id in order, if there is one |
| `AddrMan.Manager.DrawOldest` | legacy/src/addrman.cpp:175-189 | of four drawn ids, one that was seen least recently |
| `AddrMan.Manager.DropFrom` | legacy/src/addrman.cpp:160-171 | the id leaves the bucket, and with its last reference the manager |
| `AddrMan.Manager.Create` | legacy/src/addrman.cpp:94-104 | the tables of a new entry |
| `AddrMan.Manager.Add` | legacy/src/addrman.cpp:313-369 | the effect AddrTables states, for the coin flips and the victim drawn; if a full bucket changes, the victim is the one ShrinkNew would choose from its entries as they were before |
| `AddrMan.Manager.RefreshKnown` | legacy/src/addrman.cpp:322-350 | the entry is refreshed as AddRefreshes says, and it goes on exactly if the news is new, the entry untried and below four references, and the draw wins |
| `AddrMan.Manager.CoinFlips` | legacy/src/addrman.cpp:345-349 | one draw in two to the number of references wins |
| `AddrMan.Manager.Insert` | legacy/src/addrman.cpp:359-367 | the id gets its reference and its place, after the first terrible entry, or else the oldest of four drawn ones, was dropped if the bucket was full |
| `AddrMan.Manager.MakeTried` | legacy/src/addrman.cpp:204-260 | the effect of a promotion; if the bucket is full, its order and the place overwritten are what the inspection gives for the places drawn |
| `AddrMan.Manager.Replace` | legacy/src/addrman.cpp:231-259 | the entry at the place the inspection names is replaced, and it goes back to a new bucket with room |
| `AddrMan.Manager.UnlinkAll` | legacy/src/addrman.cpp:208-216 | the id leaves every new bucket and its references are used up |
| `AddrMan.Manager.Evict` | legacy/src/addrman.cpp:231-259 | the occupant goes to its own new bucket if there is room, else to the promoted entry's former one |
| `AddrMan.Manager.FindBucket` | legacy/src/addrman.cpp:289-305 | a walk from a random bucket finds one that holds the id |
| `AddrMan.Manager.Good` | legacy/src/addrman.cpp:262-311 | the effect AddrTables states; if a full tried bucket changes, its order and the place overwritten are what the inspection gives for the places drawn |
| `AddrMan.Manager.Attempt` | legacy/src/addrman.cpp:371-388 | the effect AddrTables states |
| `AddrMan.Manager.Connected` | legacy/src/addrman.cpp:510-529 | the effect AddrTables states: the time moves only if it is more than twenty minutes old |
| `AddrMan.Manager.GetAddr` | legacy/src/addrman.cpp:494-508 | pairwise different addresses of known entries, as many as SelectionSize says |
| `AddrFile.SavedThenLoaded` | legacy/src/addrman.h:279-378 | writing any consistent manager and reading it back loses no tried entry and gives a consistent manager equal up to a renumbering: the same entries but for a last try of zero and their random positions, the same new buckets and tried buckets |
| `AddrFile.GoodImageLoads` | legacy/src/addrman.h:318-378 | every image with distinct addresses, fitting buckets and one to four references loads without loss, consistently, with exactly its contents |
| `AddrFile.AnyImageLoads` | legacy/src/addrman.h:318-378 | of any image whose indexes name new records, damaged or not: an entry gets as many references as the file lists, up to four; a bucket holds only what its list holds; a tried bucket gets the records that belong there, up to 64; the tried count is lowered by the records left out |
| `AddrFile.SavedIsGood` | legacy/src/addrman.h:279-317 | what is written is such an image |
| `AddrFile.LoadTriedIs` | legacy/src/addrman.h:321-360 | reading records numbers them in order and puts each tried one into its own bucket |
| `AddrFile.LoadBucketsIs` | legacy/src/addrman.h:361-377 | reading index lists gives each new bucket its members and each entry its reference count |
| `AddrFile.WriteEntries` | legacy/src/addrman.h:283-306 | the wanted entries in id order, numbered from zero, although the loop stops early |
| `AddrFile.Write` | legacy/src/addrman.h:279-317 | the loops write that image |
| `AddrFile.ReadNew` | legacy/src/addrman.h:319-340 | the new records, numbered in order and indexed |
| `AddrFile.ReadTried` | legacy/src/addrman.h:341-359 | the tried records that fit, and how many did not |
| `AddrFile.ReadBuckets` | legacy/src/addrman.h:361-377 | the new buckets and the reference counts |
| `AddrFile.Read` | legacy/src/addrman.h:318-378 | the loops build those tables and count what was lost |
| `AddrFile.SaveAndLoad` | legacy/src/addrman.h:248-380 | a manager read from another's file is valid, lost nothing, and is the same up to numbering |
| `AddrCheck.Check` | legacy/src/addrman.cpp:435-491 | the loops return zero exactly when the tests of sizes, entries and buckets pass; PassingMeans says what that amounts to |
| `AddrCheck.ConsistentPasses` | legacy/src/addrman.cpp:435-491 | consistent tables with sane times pass it: erasing the tried buckets empties the tried set, counting the new buckets down empties the counts |
| `AddrCheck.PassingMeans` | legacy/src/addrman.cpp:435-491 | a zero answer means exact counters, each tried id in exactly one slot, reference counts equal to the number of new buckets that hold the id, no tried id in a new bucket, right positions and sane times |
| `AddrCheck.ConsistentIff` | legacy/src/addrman.cpp:435-491 | the invariant with sane times holds if and only if the answer is zero and what the self-check does not look at is right: id range, bucket numbers and sizes, own bucket, missing or surplus addresses |
| `AddrCheck.SurplusAddressPasses` | legacy/src/addrman.cpp:457 | tables with a surplus entry in the address index, for which the answer is zero |
| `AddrCheck.PassingRandom` | legacy/src/addrman.cpp:440-460 | that every place of vRandom is some entry's position follows by counting, though only the converse is looked at |
| `AddrCheck.HistoryPasses` | legacy/src/addrman.cpp:435-491 | the self-check passes in every reachable state |
| `AddrCheck.TriedErased` | legacy/src/addrman.cpp:468-476 | after some buckets exactly the ids of the later buckets are left |
| `AddrCheck.NewCounted` | legacy/src/addrman.cpp:478-487 | after some buckets each count is the reference count less the buckets that held the id |
| `Rescan.RescanIsExact` | cmd/spv/rescan.go:542-623 | over any blocks and updates without rewind, the filter-guided rescan reports, block by block, exactly what searching every block for watched addresses and outpoints reports, and the watch list always covers both |
| `Rescan.ConcernIsInFilter` | cmd/spv/rescan.go:681-707 | a transaction that concerns the wallet puts a watched script into its block's filter (section "Contents" of BIP 158) |
| `Rescan.UnmatchedTxs` | cmd/spv/rescan.go:542-573 | a block whose filter does not match has nothing to report and nothing new to watch |
| `Rescan.BlockAgrees` | cmd/spv/rescan.go:577-623 | matched or not, a block leads to the same reports and the same watched outpoints as a full search |
| `Rescan.UpdateAgrees` | cmd/spv/rescan.go:716-773 | an update keeps the watch list covering everything watched |
| `Rescan.UpdatedListIs` | cmd/spv/rescan.go:716-733 | a script is on the watch list afterwards exactly if it was there, pays to an added address, belongs to an added outpoint or is an added transaction id |
| `Rescan.StoppedUpdate` | cmd/spv/rescan.go:720-727 | if an address has no script, exactly the scripts of the addresses before it were added |
| `Rescan.Options.UpdateFilter` | cmd/spv/rescan.go:716-733 | the three lists grow as stated; an address without a script stops it midway |
| `Rescan.Options.SpendsWatchedInput` | cmd/spv/rescan.go:776-785 | true exactly when some input refers to a watched outpoint |
| `Rescan.Options.PaysWatchedAddr` | cmd/spv/rescan.go:789-822 | true exactly when some output pays a watched address, and all such outputs are watched from then on |
| `Rescan.Options.MatchesAddr` | cmd/spv/rescan.go:794-804 | true exactly when the script pays a watched address |
| `Rescan.Options.ExtractBlockMatches` | cmd/spv/rescan.go:577-623 | one report per relevant transaction, in block order |
| `Rescan.Options.NotifyBlock` | cmd/spv/rescan.go:542-573 | a block walked to is searched only if something is watched, scanning is on and the filter matches |
| `Rescan.Options.NotifyBlockWithFilter` | cmd/spv/rescan.go:627-661 | a block announced with its filter is searched if the filter matches |
| `Rescan.Run` | cmd/spv/rescan.go:157-169 | a whole rescan fails only on an address without a script, and otherwise reports what the full search reports |
| `SpendReporter.FirstSpendIsFirst` | cmd/spv/batch_spend_reporter.go:189-215 | the spend delivered is the first input in block order that refers to the outpoint; there is none exactly when no input does |
| `SpendReporter.SpendTxsSplit` | cmd/spv/batch_spend_reporter.go:189-215 | a block delivers to every waiting outpoint its first spend, and to nobody else anything |
| `SpendReporter.NotifyRequestsIs` | cmd/spv/batch_spend_reporter.go:174-185 | all requests of an outpoint get the same answer once, and the three maps lose it together |
| `SpendReporter.AddRequestsJoin` | cmd/spv/batch_spend_reporter.go:86-101 | new requests wait beside the old ones and their outpoints are on the watch list |
| `SpendReporter.SetInitialIs` | cmd/spv/batch_spend_reporter.go:107-168 | the output kept for an outpoint is replaced by what the newest request's birth block has |
| `SpendReporter.FoundIs` | cmd/spv/batch_spend_reporter.go:117-150 | an output is found in a block exactly if the first transaction with its id has an output at that index, and it is that output |
| `UtxoBatch.BatchIsExact` | cmd/spv/utxoscanner.go:242-330 | a batch that ends normally tells every request it took exactly one thing, tells nobody else anything and leaves nobody waiting: the first spend from the birth height on, else the output in the block of the latest birth height for the outpoint |
| `UtxoBatch.BatchIsNaive` | cmd/spv/batch_spend_reporter.go:155-168 | that is what a scan for the request alone gives if and only if the outpoint is spent, or no later birth height joined for it, or neither birth block creates the output |
| `UtxoBatch.NaiveAnswerIs` | cmd/spv/batch_spend_reporter.go:42-84 | what a scan for one request alone gives: the first spend in the lowest block from its birth that has one; if there is none, the output if the block at its birth height creates it, and otherwise nothing |
| `UtxoBatch.SharedBirthIsNaive` | cmd/spv/batch_spend_reporter.go:155-168 | requests for one outpoint that share a birth height get what scans for each alone give |
| `UtxoBatch.LaterBirthLosesOutput` | cmd/spv/batch_spend_reporter.go:155-168 | a whole batch over blocks with sound filters, in which of two requests with different birth heights the first is told that its output does not exist, while a scan for it alone finds the output |
| `UtxoBatch.UnmatchedSpendsNothing` | cmd/spv/utxoscanner.go:270-289 | a block that is skipped spends nothing that is waited for |
| `UtxoBatch.ProcessedAdvances` | cmd/spv/batch_spend_reporter.go:62-84 | processing a block sorts the waiting and the new requests into those told their first spend and those that wait on, and keeps the maps' keys equal |
| `UtxoRuns.RequestsAreConserved` | cmd/spv/utxoscanner.go:126-238 | in every reachable state each accepted request is in exactly one place, no result was refused as a duplicate, and the reporter's three maps have equal keys |
| `UtxoRuns.NothingLostUnlessDropped` | cmd/spv/utxoscanner.go:294-310 | requests are lost if and only if a batch was cut short between dequeueing and handing over |
| `UtxoRuns.FailedFetchLosesRequest` | cmd/spv/utxoscanner.go:294-310 | a run in which that happens |
| `UtxoRuns.LostForGood` | cmd/spv/utxoscanner.go:294-310 | a lost request gets no result in any continuation of the run |
| `UtxoRuns.StopAnswersEveryone` | cmd/spv/utxoscanner.go:159-180 | when Stop is done, every accepted request that was not lost has its result, except at most one |
| `UtxoRuns.LateEnqueueIsStranded` | cmd/spv/utxoscanner.go:126-146 | a run with that exception: a request pushed after the queue was emptied |
| `UtxoRuns.StepKeeps` | cmd/spv/utxoscanner.go:126-330 | every step of callers, manager and Stop keeps the invariant |
| `BatchSpend.Results.Deliver` | cmd/spv/utxoscanner.go:87-96 | a result channel takes one value |
| `BatchSpend.BatchSpendReporter.NotifyRequests` | cmd/spv/batch_spend_reporter.go:174-185 | the in-place loop delivers to every request |
| `BatchSpend.BatchSpendReporter.AddNewRequests` | cmd/spv/batch_spend_reporter.go:86-101 | the in-place loop adds every request |
| `BatchSpend.BatchSpendReporter.FindInitialTransactions` | cmd/spv/batch_spend_reporter.go:107-168 | the reverse index by transaction id finds what a direct search of the block finds |
| `BatchSpend.LookUp` | cmd/spv/batch_spend_reporter.go:117-150 | what is not found before the index is used up is not in the block |
| `BatchSpend.BatchSpendReporter.RebuildWatchlist` | cmd/spv/batch_spend_reporter.go:76-83 | the scripts of exactly the outpoints still watched |
| `BatchSpend.BatchSpendReporter.NotifySpends` | cmd/spv/batch_spend_reporter.go:189-215 | the spends returned are exactly the outpoints no longer waited for |
| `BatchSpend.BatchSpendReporter.ProcessBlock` | cmd/spv/batch_spend_reporter.go:62-84 | the watch list afterwards lists exactly the scripts of the outpoints still watched, unless nothing changed |
| `BatchSpend.BatchSpendReporter.NotifyUnspentAndUnfound` | cmd/spv/batch_spend_reporter.go:42-56 | everyone still waiting is told the kept output or that there is none |
| `BatchSpend.BatchSpendReporter.FailRemaining` | cmd/spv/batch_spend_reporter.go:28-37 | everyone still waiting is told the error |
| `UtxoScanner.Scanner.Enqueue` | cmd/spv/utxoscanner.go:126-146 | a request is accepted unless the scanner is stopping |
| `UtxoScanner.Scanner.DequeueAtHeight` | cmd/spv/utxoscanner.go:224-238 | older requests wait for the next batch, those of this height are returned, and everything left is born above it |
| `UtxoScanner.Scanner.ScanHeight` | cmd/spv/utxoscanner.go:261-315 | one height, with every error and every look at the quit channel; what is lost on failure is what was dequeued |
| `UtxoScanner.Scanner.ScanFromHeight` | cmd/spv/utxoscanner.go:242-330 | a whole batch, with the tip moving meanwhile: if it ends normally every request it took is told what BatchIsExact says |
| `UtxoScanner.Scanner.CancelPending` | cmd/spv/utxoscanner.go:173-179 | what is left in the queue is told that the scanner is shutting down, and then everyone not lost has an answer |
| `UtxoScanner.Scanner.Abandon` | cmd/spv/utxoscanner.go:261-310 | the reporter's requests fail, and what was dequeued but not handed over is lost |
| `UtxoScanner.Scanner.HandOver` | cmd/spv/utxoscanner.go:305-313 | the reporter sees the block exactly if somebody joins or the filter matches |
| `UtxoScanner.Scanner.Conclude` | cmd/spv/utxoscanner.go:328-330 | whoever still waits is told the outcome |
| `UtxoScanner.Scanner.RequeueNext` | cmd/spv/utxoscanner.go:187-194 | what was put off is back in the queue |
| `FilterHeaders.VerifyCheckpoint` | cmd/spv/blockmanager.go:923-935 | true exactly when the reply leads from the one checkpoint to the other |
| `FilterHeaders.VerifiedIsGenuine` | cmd/spv/blockmanager.go:923-935 | with injective hashing a verified reply of full length holds the true filter hashes; with acyclic hashing it has full length |
| `FilterHeaders.ShortReplyVerifies` | cmd/spv/blockmanager.go:923-935 | if some header is its own successor, a reply of one hash passes for a whole interval |
| `FilterHeaders.CheckpointSync.WriteCFHeaders` | cmd/spv/blockmanager.go:824-901 | writes exactly when the reply continues the tip and is not empty, and then appends the folded headers |
| `FilterHeaders.CheckpointSync.TrueReplyIsAccepted` | cmd/spv/blockmanager.go:706-741 | the true reply to the query for an interval that was asked for is accepted for that interval |
| `FilterHeaders.CheckpointSync.Check` | cmd/spv/blockmanager.go:706-741 | the true reply to the query for an interval asked for is accepted for it; an accepted reply has the query's filter type and stop hash, which is the interval's, and leads from checkpoint to checkpoint; with injective hashing it is the true one exactly when it has 1000 hashes, and with acyclic hashing it has |
| `FilterHeaders.CheckpointSync.Place` | cmd/spv/blockmanager.go:747-814 | a true reply, or one that comes too late, keeps the store right; one of another length that is used does not |
| `FilterHeaders.CheckpointSync.HandleReply` | cmd/spv/blockmanager.go:703-814 | a true reply to its own query is accepted; with injective hashing the store stays the true chain up to the current height, the stash stays right and the out-of-order error does not occur, if and only if the reply was not accepted, has 1000 hashes, or comes too late to matter |
| `FilterHeaders.CheckpointSync.DrainStash` | cmd/spv/blockmanager.go:789-812 | the stash is written as far as it is contiguous, and not beyond the last checkpoint |
| `FilterHeaders.CheckpointSync.HandleReplies` | cmd/spv/blockmanager.go:637-818 | for any order and repetition of full replies: if for every interval asked for the true reply to its query is among them, the stash is empty and the store is the one writing in order gives, ending at the last checkpoint (or where it was, if that is later) with every checkpoint at its height |
| `FilterHeaders.CheckpointSync.constructor` | cmd/spv/blockmanager.go:637-697 | every interval from the one the store is in is asked for |
| `QueryBatch.Exclusion` | cmd/spv/query.go:227-252 | no two goroutines work on the same query |
| `QueryBatch.AnsweredForGood` | cmd/spv/query.go:286-309 | an answered query stays answered |
| `QueryBatch.DoneMeansAnswered` | cmd/spv/query.go:359-370 | below firstUnfinished everything is answered; a goroutine that finishes, and the main goroutine's check that loads the states one by one, are right that all is answered |
| `QueryBatch.AbandonedForGood` | cmd/spv/query.go:286-296 | a query whose goroutine quit while working is never claimed or answered again, so nobody ever finishes |
| `QueryBatch.QuitWhileWorkingAbandons` | cmd/spv/query.go:286-290 | a run that ends with such a query while the main goroutine is still waiting |
| `QueryBatch.CanCompleteUnlessAbandoned` | cmd/spv/query.go:203-372 | a run in which the main goroutine has not ended can be continued until it completes if and only if no query is abandoned |
| `QueryBatch.RunKeepsInvariant` | cmd/spv/query.go:203-312 | in every interleaving a query waits for a response exactly when one goroutine holds it |
| `Merkle.FlatIsTree` | legacy/src/core.cpp:233-249 | the flat array holds, at each row's offset, the hashes of the recursive tree in which a missing right child is its left sibling |
| `Merkle.FlatLength` | legacy/src/core.cpp:233-249 | and nothing else |
| `Merkle.RootIsTop` | legacy/src/core.cpp:249 | its last element is the top of that tree |
| `Merkle.SmallRoots` | legacy/src/core.cpp:241-247 | the roots of one, two and three hashes: the left one goes first, and the odd one is paired with itself |
| `Merkle.BranchLeadsToRoot` | legacy/src/core.cpp:252-281 | folding any leaf with its branch gives the root, over as many steps as the tree is deep |
| `Merkle.OnlyBranchLeadsToRoot` | legacy/src/core.cpp:268-281 | with injective hashing, a branch of the tree's depth that folds to the root at an index starts from that leaf and is that leaf's branch |
| `Merkle.RootIsInjective` | legacy/src/core.cpp:233-249 | lists of the same length with the same root are equal |
| `Merkle.RootsCollide` | legacy/src/core.cpp:233-250 | lists of any lengths, of hashes that are not themselves hashes of two hashes, have the same root if and only if their trees are equally deep and unfold, with the repetitions, to the same leaves |
| `Merkle.RepeatedTail` | legacy/src/core.cpp:241-246 | an odd list of more than one and the same list with its last element repeated have the same root |
| `Merkle.DeeperTree` | legacy/src/core.cpp:233-250 | if trees of different depths have the same root, the first leaf of the shallower one is a hash of two hashes |
| `Merkle.Block.BuildMerkleTree` | legacy/src/core.cpp:233-250 | the loops fill that array; the root of no transactions is zero |
| `Merkle.Block.GetMerkleBranch` | legacy/src/core.cpp:252-266 | the branch read from the array, which is built first if need be, for any index |
| `Merkle.CheckMerkleBranch` | legacy/src/core.cpp:268-281 | the fold, or zero for index -1 |
| `Merkle.ProveMembership` | legacy/src/core.cpp:233-281 | what GetMerkleBranch gives is accepted by CheckMerkleBranch, and at that index nothing but that leaf with that branch |
| `Replacement.IsNewerThan` | legacy/src/core.cpp:81-108 | the single pass decides whether, where sequence numbers differ, the old minimum is strictly below the new minimum |
| `Replacement.Transitive` | legacy/src/core.cpp:81-108 | replacement is transitive |
| `Replacement.Asymmetric` | legacy/src/core.cpp:81-108 | no two transactions replace each other |
| `Replacement.Irreflexive` | legacy/src/core.cpp:81-108 | no transaction replaces itself |
| `Replacement.NewerSpendsTheSame` | legacy/src/core.cpp:83-87 | a newer transaction spends the same outpoints, position by position |
| `Replacement.RaisingIsNewer` | legacy/src/core.cpp:91-107 | changing one sequence number makes a transaction newer if and only if it raises it |
| `Amounts.DecompressInvertsCompress` | legacy/src/core.cpp:140-183 | every amount comes back from its compressed form |
| `Amounts.CompressInvertsDecompress` | legacy/src/core.cpp:140-183 | every number is the compressed form of one amount |
| `Amounts.CompressBound` | legacy/src/core.cpp:140-158 | the compressed form is at most nine times the amount |
| `Amounts.CompressIs` | legacy/src/core.cpp:130-158 | the compressed form in terms of the trailing zeros, the last other digit and the digits before it |
| `Amounts.CompressAmount` | legacy/src/core.cpp:140-158 | the 64-bit routine is the compression modulo 2^64, hence exact up to a ninth of 2^64 |
| `Amounts.DecompressAmount` | legacy/src/core.cpp:160-183 | the 64-bit routine is the decompression modulo 2^64 |
| `Amounts.RoundTrip` | legacy/src/core.cpp:140-183 | the two 64-bit routines give back every amount up to a ninth of 2^64 |
| `Base58.DecodeInvertsEncode` | legacy/src/base58.h:30-129 | decoding undoes encoding for every byte string, leading zeros included |
| `Base58.EncodeInvertsDecode` | legacy/src/base58.h:30-129 | encoding what was decoded gives the string back, up to its first NUL and without surrounding whitespace |
| `Base58.DecodeIs` | legacy/src/base58.h:78-122 | decoding succeeds exactly when what is left after stripping is in the alphabet |
| `Base58.EncodeMeans` | legacy/src/base58.h:30-68 | the text is the same number in base 58 as the bytes in base 256, with a 1 in front for every zero byte in front and no more |
| `Base58.EncodeBase58` | legacy/src/base58.h:30-68 | the division loop, the zeros and the reversal give the digits of the number |
| `Base58.DecodeBase58` | legacy/src/base58.h:78-122 | the reading loop, the trimmed sign byte and the restored zeros give the bytes of the number; nothing on failure |
| `Base58.DecodeCheckInvertsEncodeCheck` | legacy/src/base58.h:135-163 | the checksummed forms round-trip for any four-byte checksum |
| `Base58.EncodeCheckInvertsDecodeCheck` | legacy/src/base58.h:135-163 | and in the other direction, up to whitespace |
| `Base58.EncodeBase58Check` | legacy/src/base58.h:135-142 | the routine appends the checksum |
| `Base58.DecodeBase58Check` | legacy/src/base58.h:146-163 | the routine accepts exactly a right checksum, and returns nothing otherwise |
| `Base58.SetVchOfGetVch` | legacy/src/bignum.h:240-265 | every number, negative ones too, comes back from its bytes |
| `Base58.SmallBytes` | legacy/src/bignum.h:254-265 | the bytes of some numbers: low byte first, with an extra byte where the sign bit needs one |
| `Compact.RoundTripError` | legacy/src/bignum.h:289-330 | a positive number whose exponent fits does not grow, and loses less than one part in 2^15 |
| `Compact.Idempotent` | legacy/src/bignum.h:289-330 | the compact form of what comes back is the same compact form |
| `Compact.Monotone` | legacy/src/bignum.h:308-330 | larger numbers have compact forms that are not smaller |
| `Compact.CompactFields` | legacy/src/bignum.h:308-330 | a non-negative number never sets the sign bit |
| `Compact.DocumentedExamples` | legacy/src/bignum.h:277-279 | the three examples the format is documented with |
| `Compact.CanonicalIff` | legacy/src/bignum.h:289-330 | a 32-bit value comes back from the number it stands for if and only if it is zero, or has a mantissa of at least 2^15 none of whose bits a small exponent cuts off |
| `Compact.SignIsKept` | legacy/src/bignum.h:289-330 | a negative number differs only in the sign bit, and comes back negated |
| `Compact.BigNum.SetCompact` | legacy/src/bignum.h:289-306 | the object becomes the number the fields describe |
| `Compact.BigNum.GetCompact` | legacy/src/bignum.h:308-330 | the 32 bits are the mantissa, the sign and the exponent modulo 256 |
| `Bloom.NothingIsLost` | legacy/src/bloom.cpp:38-150 | through any inserts and transactions, nothing once contained is lost |
| `Bloom.AddedIsFound` | legacy/src/bloom.cpp:38-83 | what was inserted is found ever after |
| `Bloom.MatchedOutputIsRemembered` | legacy/src/bloom.cpp:119-131 | an output that matches in its turn is in the filter afterwards: any one under BLOOM_UPDATE_ALL, a public key or multisig one under BLOOM_UPDATE_P2PUBKEY_ONLY |
| `Bloom.OtherOutputsChangeNothing` | legacy/src/bloom.cpp:119-131 | an output that does not match, or is of another type, or under flags that ask for no update, leaves the filter as it is |
| `Bloom.RelevantIff` | legacy/src/bloom.cpp:97-150 | whatever concerns the filter as it is, by hash, output data, outpoint spent or input data, is relevant; whatever is relevant concerns the filter as it is left; with BLOOM_UPDATE_NONE the filter stays |
| `Bloom.SpendsAreRelevant` | legacy/src/bloom.cpp:97-150 | once an output matched by a data element, every later transaction that spends it is relevant: under BLOOM_UPDATE_ALL for every output, under BLOOM_UPDATE_P2PUBKEY_ONLY for public key and multisig outputs |
| `Bloom.AlwaysRelevant` | legacy/src/bloom.cpp:97-150 | a fuller filter finds no transaction less relevant |
| `Bloom.ShortcutAgrees` | legacy/src/bloom.cpp:40-74 | the shortcut for a full one-byte filter agrees with the loops |
| `Bloom.SetAllIs` | legacy/src/bloom.cpp:38-49 | inserting sets exactly the bits the key hashes to |
| `Bloom.InsertedBits` | legacy/src/bloom.cpp:38-49 | bit j of a filter, counted from the low end of each byte, is set after an insertion exactly if it was or some hash of the key is j modulo the number of bits |
| `Bloom.BloomFilter.InsertKey` | legacy/src/bloom.cpp:38-49 | the in-place loop has that effect |
| `Bloom.BloomFilter.ContainsKey` | legacy/src/bloom.cpp:70-83 | true exactly when all those bits are set |
| `Bloom.BloomFilter.IsRelevantAndUpdate` | legacy/src/bloom.cpp:97-150 | the filter afterwards and the answer are those of the lemmas above: whether the transaction's hash, an output's data, an input's outpoint or an input's data is in the filter, which remembers matched outputs as it goes |
| `LockedPages.LockedPageManager.LockRange` | legacy/src/allocators.h:57-79 | every page counts the live ranges over it, one more now |
| `LockedPages.LockedPageManager.UnlockRange` | legacy/src/allocators.h:82-105 | one less now, and the assertion that the page has a counter never fails |
| `LockedPages.LockedPageManager.LockedWhenCovered` | legacy/src/allocators.h:57-105 | a page is locked exactly when some live range overlaps it |
| `LockedPages.LockedPageManager.GetLockedPageCount` | legacy/src/allocators.h:108-112 | the number of locked pages |
| `LockedPages.CoverWithout` | legacy/src/allocators.h:82-105 | taking one range away lowers the count of exactly the pages it overlaps |
| `LockedPages.OverlapsMeans` | legacy/src/allocators.h:57-79 | a range counts for a page exactly when some byte of it is on that page |

## Left out

- Everything outside the files named above: command line tools, the GUI, RPC, wallets, consensus rules and networking.
- `fQuit` of the check queue, which the code never sets, so workers never leave.
- AddrMan.Manager.CoinFlips: says what the draw decides, not how it is distributed.
- `Select_` and `GetChance` of the address manager, which use floating point to weigh a random choice.
- Reading an address file written with another number of new buckets, where the code checks no bucket size.
- AddrCheck.Check: looking up a missing address adds a zero entry to the index in the code; the model only reads zero.
- Rescan.RescanIsExact: does not cover rewinding, reorganisations, blocks that disconnect, or a failure to fetch a block or a filter; it assumes that filters have no false negatives and that watched outpoints come with their own scripts.
- A coinbase input, which refers to no output, is modelled as no input.
- UtxoBatch.BatchIsExact: assumes that the chain only grows and that filters have no false negatives.
- A caller that has read its result channel could receive a second value; the model counts every second delivery as refused, and there is none.
- UtxoScanner.Scanner.ScanFromHeight: runs with the other goroutines' actions as arguments; their free interleaving is in UtxoRuns.
- What a filter header sync does after an accepted reply of a wrong length, beyond that its store is no longer right or it has panicked.
- Block notifications, progress logging and the lookup of block headers in `writeCFHeadersMsg`, apart from the height of the stop block.
- QueryBatch.DoneMeansAnswered: that an answered query had an accepted reply is not claimed, because closing a peer's match channel also wakes it.
- Timers are steps that may happen at any time; nothing is said about how long anything takes.
- Bloom: the constructor, which computes sizes in floating point, and filters of size zero, on which the code divides by zero.
- LockedPages.LockedPageManager.LockRange: ranges up to the very last page of the address space, on which the page counter would wrap around, and the mutex.
- Base58: `isspace` for characters beyond ASCII, which depends on the locale.
