# knx-telegram-store: a verified model

The library keeps KNX bus telegrams in memory, SQLite or PostgreSQL. This project models the parts of
it that argue for their own correctness, and proves those arguments in Dafny. `dafny verify
dfyconfig.toml` verifies everything.

## What is modelled

**The write buffer** (`buffered.py`). `BufferProtocol` is a state machine: one step is what a task does
between two `await`s, so a run is any interleaving of `store()`, flushes, `store_many`, `optimize`,
`evict_older_than`, `clear`, `begin_backup`, `end_backup` and `close`, with every backend call answered by
success, a data error, another error or a cancellation. `evict_expired` is the eviction with the cutoff it
works out inside the lock, or, without a retention period, one that only counts. Telegrams carry a ticket in order of acceptance and
the state keeps a ledger of dropped tickets with the reason. `BufferInvariant` proves what every step keeps,
`BufferDrops` that every drop has its reason, `BufferResults` what that means over whole runs, `BufferBackup`
when exactly a backup holds off writes, `BufferClose` when exactly `close()` leaves nothing behind and that it
can always return, and `BufferRows` what the backend holds after any run. `DropOldest` is the buffer as a plain
value. `BufferedStore` is the same buffer as a class whose methods are written out with their loops and early
returns, each tied to the very run of the protocol it makes. `ErrorCause` is the search through a possibly cyclic
exception graph.

**The timestamp migrations** (`sqlite.py`). `Calendar` is Python's proleptic calendar and the
microsecond encoding, `SqliteText` the old text format and its conversion in SQL, with SQLite's Julian day
arithmetic. `OffsetIntervals` is the hourly walk and the bisection over an unknown zone that moves on whole
seconds and at most once between two full hours. `UtcMigration` compiles the intervals to one CASE and follows
any history of starts, writes, evictions and migrations; each row carries the digits it was written with,
whether it predates the upgrade, and how often it was moved. `IntegerMigration` commits in batches and is
cut off between any two commits.

**The SQL store against a plain list** (`base_sql.py`, `lookup.py`, `memory.py`). `MemoryStore`, without its
size cap, is the specification. `Lookup` is the interning table and its cache, `SqlStore` one transaction,
`SqlRuns` any run of committed and rolled-back transactions, cache warming, evictions, clears and strings
interned by other processes. The memory store evicts nothing by age; there an eviction filters the plain list. `SqlQuery` has the WHERE clause in three-valued logic, paging before the
joins, and the refinement of the memory query. `Reconcile` repairs the last-value table, over the
column-text order of `Ranking`. `Lists` holds filtering, ordering and paging of sequences.

**Two smaller pieces.** `LegacyUnwrap` is the one-time unwrapping raced by any number of processes
(`postgres.py`). `EtsXml` is the printer and parser of ETS communication logs (`formats/ets_xml.py`).

Times are integers of microseconds since the epoch. Payload, value, raw data and the secure flag travel
through the stores unchanged and are one opaque number. The clock, the answers of a backend and the choices
of a database engine (the order of equal timestamps, skipped ids) are parameters, so the theorems hold
for all of them.

## Where the code and its promises differ

- `begin_backup()` promises to hold off writes until `end_backup()`. `end_backup()` tests the gate before it
  awaits the backend and opens it afterwards (`buffered.py:365-370`), so of two overlapping calls the first to
  return lets the next backup complete and the second then opens the gate on that one. On SQLite the second
  call fails at once while the first is still committing (`sqlite.py:291-302`). Writes are held off if and only
  if no earlier `end_backup()` is still being answered (`BufferBackup.BackupHoldsIffNobodyIsEnding`);
  `BufferBackup.OverlappingEndsOpenTheNextBackup` is the run in which they are not.
- `close()` promises to flush what is left. It does so, over every interleaving, if and only if no
  `begin_backup()` holds the mutation lock when it is called: otherwise the gate can close first and the last
  flush is skipped (`BufferClose.CloseLeavesNothingIffNoBackupBegins`).
- The SQL query and the memory query agree for every query except one with a context window, no filter at all
  and a negative delta: there the SQL store skips the window and the memory store applies it, and any store
  of one telegram shows the difference (`SqlQuery.NegativeDeltaDiffers`).
- The last-value repair breaks ties by the texts of the columns. The fallback is the same row whatever the order
  of the table if and only if those texts tell different values apart (`Reconcile.WinnerIgnoresRowOrderIff`).
- A timestamp migration spares the telegrams written since the upgrade as long as the rowids have not
  restarted under the recorded marker; `UtcMigration.NewRowsAreSparedIff` says exactly when no zone can
  touch them, and `UtcMigration.RestartedRowidsAreShifted` is the corner the code documents as open.

## Model

| member | source | states |
|---|---|---|
| BufferInvariant.StepKeepsSafe | src/knx_telegram_store/buffered.py:99-128 | every step of every task keeps: at most one task inside the mutation lock, an open gate around whoever writes, the buffer within its limit |
| BufferInvariant.StepKeepsInvariant | src/knx_telegram_store/buffered.py:144-294 | every step also keeps the ledger: each ticket handed out is in backend, flight or buffer in acceptance order, or among exactly the items that step or an earlier one dropped where the code drops; none is in two places |
| BufferInvariant.RunKeepsInvariant | src/knx_telegram_store/buffered.py:78-97 | a new store with a limit of at least 1 satisfies the invariant, and so does every state any interleaving reaches |
| BufferDrops.StepIsExplained | src/knx_telegram_store/buffered.py:193-294 | no step forgets or rewrites a recorded drop, and each new one is justified: an overflow leaves the buffer at its limit with only younger telegrams, an unstorable row is the one at the backend whose own write was answered with a data error, an evicted telegram is older than the cutoff, a cleared or never initialised one goes by the operation inside the lock |
| BufferDrops.EveryDropIsJustified | src/knx_telegram_store/buffered.py:193-294 | in every run each recorded drop goes back to the one step that booked it with that justification |
| BufferResults.NoTelegramIsLostOrDoubled | src/knx_telegram_store/buffered.py:193-294 | over every interleaving each accepted telegram is in exactly one of persisted, flight, buffer and recorded drops, and every recorded drop is justified; flushed telegrams are persisted in acceptance order; the buffer keeps its limit |
| BufferBackup.ClosedGateHolds | src/knx_telegram_store/buffered.py:116-128 | behind a closed gate no write is at the backend, its rows do not change, and only the answer to an `end_backup` reopens it |
| BufferBackup.BackupHoldsOffWrites | src/knx_telegram_store/buffered.py:339-370 | from a completed `begin_backup` with no earlier `end_backup` in progress until a new `end_backup` or `close`, no flush, `store_many`, eviction, clear or optimize reaches the backend, whatever was queued for the lock before |
| BufferBackup.BackupHoldsIffNobodyIsEnding | src/knx_telegram_store/buffered.py:348-370 | of a store that is not closing: writes stay off until a new `end_backup` or `close` if and only if no earlier `end_backup` is still being answered |
| BufferBackup.EarlierEndLetsWritesIn | src/knx_telegram_store/buffered.py:362-370 | otherwise that answer, however it ends, lets a waiting `store_many` reach the backend |
| BufferBackup.OverlappingEndsOpenTheNextBackup | src/knx_telegram_store/buffered.py:362-370 | such a state is reached: two overlapping `end_backup` calls for one backup, and the next backup completed in between |
| BufferResults.HolderNeverWaitsForBackup | src/knx_telegram_store/buffered.py:224-241 | a task holding the mutation lock never waits for `end_backup`: its nested `store_many` finds the gate open |
| BufferResults.CancelledWaiterLeavesNoTrace | src/knx_telegram_store/buffered.py:99-128 | a task cancelled while it waits for gate or lock is over, and every telegram stays where it was |
| BufferResults.QuietCloseLeavesNothing | src/knx_telegram_store/buffered.py:144-173 | once a close that found no `begin_backup` inside has returned, buffer and flight are empty then and ever after |
| BufferResults.BufferWhileInFlight | src/knx_telegram_store/buffered.py:193-222 | while a batch is detached the buffer is that of a drop-oldest queue taking the arrivals, whatever the other tasks do |
| BufferResults.FailedFlushLeavesNoTrace | src/knx_telegram_store/buffered.py:240-256 | a flush whose first write fails with a non-data error or is cancelled leaves, over every interleaving, the buffer of a queue that never started it |
| BufferResults.DetachTakesTheBuffer | src/knx_telegram_store/buffered.py:236-248 | starting a flush detaches the whole buffer, never more than the limit, and empties it |
| BufferResults.EvictionIsExact | src/knx_telegram_store/buffered.py:372-401 | an eviction that completes keeps exactly the rows and buffered telegrams that are not older than the cutoff; a dry run keeps all |
| BufferRows.BackendHoldsTheRows | src/knx_telegram_store/buffered.py:224-281 | over every run the host's rows are the telegrams of each `store_many` the backend did, in order, and the flushed rows each batch and each retried row it took; evictions filter both by their cutoff, clears empty both, and nothing else changes either |
| BufferClose.CloseLeavesNothingIffNoBackupBegins | src/knx_telegram_store/buffered.py:144-173 | of an initialised store with telegrams in its buffer, closing already or not: `close()` has a way to return, and is sure to leave the buffer empty if and only if no `begin_backup` holds the mutation lock at the call; it has returned when it is no task any more without having been cancelled and without a failure of the backend, unless a batch failed for its data |
| BufferClose.QuietCloseLeavesNothing | src/knx_telegram_store/buffered.py:144-173 | without a `begin_backup` inside, called during a backup or not, initialised or not: every normal return of `close()`, over every interleaving, leaves an empty buffer, and one is possible |
| BufferClose.RunStaysUnderWay | src/knx_telegram_store/buffered.py:144-173 | whatever the other tasks do, a `close()` that found no `begin_backup` inside goes on through gate, lock and last flush until it has closed the backend |
| BufferClose.CloseCanReturn | src/knx_telegram_store/buffered.py:144-173 | no deadlock: wherever a `close()` has got to in any state, among whatever other tasks, there are events that let it return |
| BufferClose.OvertakenCloseKeepsBuffer | src/knx_telegram_store/buffered.py:348-361 | wherever a `begin_backup` is inside the lock, a run exists in which `close()` returns with everything still buffered |
| BufferClose.CloseDuringBeginBackupLeavesTelegram | src/knx_telegram_store/buffered.py:348-361 | a reachable state of that kind: one `begin_backup`, one `store()` |
| DropOldest.AppendAllKeepsNewest | src/knx_telegram_store/buffered.py:193-222 | any number of `store()` calls leave the newest `max_buffer_size` of everything given |
| DropOldest.FailedFlushIsInvisible | src/knx_telegram_store/buffered.py:240-294 | requeueing a failed batch in front of any arrivals, overflow included, gives the buffer that never lost the batch |
| DropOldest.SinceKeepsTheYoung | src/knx_telegram_store/buffered.py:393-401 | the buffer part of an eviction keeps exactly the telegrams not older than the cutoff |
| DropOldest.PartsByAge | src/knx_telegram_store/buffered.py:393-401 | an eviction parts an ordered line into what it keeps, still in order, and what it drops, nothing in both |
| DropOldest.PoppedAndAppended | src/knx_telegram_store/buffered.py:199-207 | what `store()` drops and what it leaves are the old buffer with the new telegram |
| DropOldest.CutOffAndRequeued | src/knx_telegram_store/buffered.py:285-294 | what `_requeue` drops and what it leaves are the batch in front of the buffer |
| BufferedStore.WriteBuffer.constructor | src/knx_telegram_store/buffered.py:78-97 | a new buffer is the initial state of the protocol |
| BufferedStore.WriteBuffer.Store | src/knx_telegram_store/buffered.py:193-222 | appends, drops the oldest at the limit, warns once, does nothing when closing |
| BufferedStore.WriteBuffer.StoreMany | src/knx_telegram_store/buffered.py:224-228 | inside the gate the host's batch is appended to its rows, or nothing is when the backend fails; the buffer is left to what arrives meanwhile |
| BufferedStore.WriteBuffer.Requeue | src/knx_telegram_store/buffered.py:283-294 | the batch goes in front and the newest `max_buffer_size` stay |
| BufferedStore.WriteBuffer.AwaitBackend | src/knx_telegram_store/buffered.py:193-222 | telegrams stored during an awaited backend call are `Store` steps of the protocol |
| BufferedStore.WriteBuffer.Flush | src/knx_telegram_store/buffered.py:230-281 | for any answers of the backend and any arrivals meanwhile, `_flush` is that task's run of the protocol: lock, gate, arrivals, answer, call by call; the last answer decides what it returns or raises |
| BufferedStore.WriteBuffer.WriteBatch | src/knx_telegram_store/buffered.py:247-256 | the first write: stored, requeued, or on to the retry, as the protocol says |
| BufferedStore.WriteBuffer.RetryRows | src/knx_telegram_store/buffered.py:258-281 | the row-by-row retry drops only rows failing for their data and requeues the rest in order |
| BufferedStore.WriteBuffer.RetryRow | src/knx_telegram_store/buffered.py:261-280 | one row is written, dropped, or put back with everything behind it |
| BufferedStore.WriteBuffer.EvictOlderThan | src/knx_telegram_store/buffered.py:393-401 | rows of both kinds first, then the buffer as it is by then, and the number of all; a dry run only counts; a failing backend leaves everything |
| BufferedStore.WriteBuffer.Clear | src/knx_telegram_store/buffered.py:410-416 | the buffer is emptied at once and the rows if the backend succeeds; what arrives meanwhile stays |
| BufferedStore.WriteBuffer.BeginBackup | src/knx_telegram_store/buffered.py:348-360 | refused during a backup; else a flush, the backend's part, and the gate closes only if both went through |
| BufferedStore.WriteBuffer.EndBackup | src/knx_telegram_store/buffered.py:362-370 | refused without a backup; else the gate reopens however the backend's part ends |
| BufferedStore.WriteBuffer.Optimize | src/knx_telegram_store/buffered.py:339-344 | a flush, then the backend's part |
| BufferedStore.WriteBuffer.CloseHoldingLock | src/knx_telegram_store/buffered.py:164-173 | the last flush or, never initialised, the drop; a normal end with the gate open leaves an empty buffer |
| BufferedStore.DetachEffect | src/knx_telegram_store/buffered.py:236-248 | detaching the buffer and entering the backend through the open gate |
| ErrorCause.DataErrorCause | src/knx_telegram_store/buffered.py:22-48 | the search ends on every finite graph of causes, contexts and origs, cycles included, and returns a data error if and only if one is reachable |
| ErrorCause.NothingMissed | src/knx_telegram_store/buffered.py:22-48 | with nothing left to look at, everything reachable was looked at |
| ErrorCause.ClosedSetHoldsPath | src/knx_telegram_store/buffered.py:34-48 | a set closed under links contains every path from its members |
| Calendar.FromInstant | src/knx_telegram_store/backends/base_sql.py:55-57 | `micros_to_datetime` yields a valid datetime exactly for the instants Python can hold |
| Calendar.YearOfOrdinalIsRight | src/knx_telegram_store/backends/base_sql.py:55-57 | the 400/100/4/1-year cycles find the year and day of every ordinal |
| Calendar.ToInstantOfFromInstant | src/knx_telegram_store/backends/base_sql.py:44-57 | the decoded fields spell the same instant |
| Calendar.FromInstantOfToInstant | src/knx_telegram_store/backends/base_sql.py:44-57 | decoding what was encoded returns every UTC datetime of the years 1 to 9999 |
| Calendar.InstantOrder | src/knx_telegram_store/backends/base_sql.py:44-52 | integer order is the order of the fields, and equal integers mean equal datetimes |
| SqliteText.PaddedFraction | src/knx_telegram_store/backends/sqlite.py:32-44 | padding and cutting six characters yields the fraction in microseconds for 0 to 6 digits |
| SqliteText.JulianDayIsOrdinal | src/knx_telegram_store/backends/sqlite.py:39-44 | the Julian day count behind `strftime('%s')` is Python's ordinal on every date |
| SqliteText.ConversionKeepsInstant | src/knx_telegram_store/backends/sqlite.py:32-44 | the SQL conversion of any well-formed text is the instant the text decodes to, before and after the epoch |
| SqliteText.TextRoundTrip | src/knx_telegram_store/backends/base_sql.py:129-160 | the fixed-width text of a datetime reads back as it, years 1000 to 9999 |
| SqliteText.TextOrderIsInstantOrder | src/knx_telegram_store/backends/base_sql.py:147-160 | text order is instant order, so a bound compared as text selects the same rows of a wholly unconverted file |
| OffsetIntervals.TransitionBetween | src/knx_telegram_store/backends/sqlite.py:77-91 | the bisection ends by a shrinking gap and, rounded halves and final truncation included, returns exactly the first second at which the offset differs |
| OffsetIntervals.ChangeIsWholeSecond | src/knx_telegram_store/backends/sqlite.py:77-91 | the change of a zone that moves on whole seconds is a whole second |
| OffsetIntervals.HalfToEven | src/knx_telegram_store/backends/sqlite.py:86-86 | half a gap of at least two microseconds lies strictly inside it |
| OffsetIntervals.StretchEnds | src/knx_telegram_store/backends/sqlite.py:118-121 | an hour with a change ends one constant stretch there and begins the next |
| OffsetIntervals.OffsetIntervals | src/knx_telegram_store/backends/sqlite.py:94-128 | the walk ends; its pieces are contiguous, strictly increasing and of constant offset, every inner boundary is a real change, and they cover oldest to newest |
| UtcMigration.CompileCase | src/knx_telegram_store/backends/sqlite.py:761-782 | one branch per closed interval in order, the last interval as the tail |
| UtcMigration.CaseIsOffset | src/knx_telegram_store/backends/sqlite.py:739-788 | the first matching branch, else the tail, is the offset at the row's own wall-clock time |
| UtcMigration.Bounds | src/knx_telegram_store/backends/sqlite.py:747-752 | the bounds enclose every row in scope and are each attained |
| UtcMigration.ConvertTableToUtc | src/knx_telegram_store/backends/sqlite.py:739-788 | one UPDATE maps every row in scope to its timestamp less the offset there and leaves the others |
| UtcMigration.DeferredMigrationShiftsOnce | src/knx_telegram_store/backends/sqlite.py:682-737 | from before the upgrade, with the marker reached throughout, a migration put off to any later moment: exactly the legacy telegrams with digits below the moment of the upgrade in the zone's own time are shifted, each for the first time and by the offset at its digits; last values go by that moment itself; every other row stays |
| UtcMigration.BoundaryIsUpgradeMoment | src/knx_telegram_store/backends/sqlite.py:615-628 | over every run the recorded boundary is the clock of the first start that found rows, no flag and no zone, and there is none before such a start |
| UtcMigration.MigrationBeforeThatMoment | src/knx_telegram_store/backends/sqlite.py:710-714 | as long as there was no such start, a migration shifts every row of both tables, each for the first time |
| UtcMigration.EmptyDatabaseIsFlagged | src/knx_telegram_store/backends/sqlite.py:605-613 | a start that finds both tables empty flags the file at once and records no boundary |
| UtcMigration.TimestampStore.ClassifyTimestampConvention | src/knx_telegram_store/backends/sqlite.py:591-634 | flag, boundary and marker: empty is flagged, rows without flag, boundary and zone get the clock as boundary and a marker no rowid exceeds, anything else stays |
| UtcMigration.TimestampStore.LegacyRowScopes | src/knx_telegram_store/backends/sqlite.py:682-737 | everything without a boundary; by marker and local boundary while the marker counts; else below the boundary |
| UtcMigration.TimestampStore.MigrateTimestampsToUtc | src/knx_telegram_store/backends/sqlite.py:641-680 | one transaction converts both scopes and sets the flag; flagged, it does nothing |
| UtcMigration.TimestampStore.Initialize | src/knx_telegram_store/backends/sqlite.py:304-354 | classify first, convert afterwards when a zone is given |
| UtcMigration.StepKeepsInvariant | src/knx_telegram_store/backends/sqlite.py:591-737 | every start, write, eviction, clear and migration keeps the exactly-once invariant while the marker is reached |
| UtcMigration.NoRowIsShiftedTwice | src/knx_telegram_store/backends/sqlite.py:591-737 | over any history with the marker reached no telegram written since the upgrade is shifted and no row is shifted twice; a shifted row holds its original digits less their offset |
| UtcMigration.FirstStartConvertsEverything | src/knx_telegram_store/backends/sqlite.py:615-624 | a first start with a zone converts every row of both tables |
| UtcMigration.FlaggedIsSettled | src/knx_telegram_store/backends/sqlite.py:602-603 | once flagged no event moves a timestamp of either table: a write adds its row and replaces the last values it names |
| UtcMigration.NewRowsAreSparedIff | src/knx_telegram_store/backends/sqlite.py:682-737 | no zone makes a pending migration touch a telegram written since the upgrade if and only if those lie above the marker while it counts, else not before the boundary |
| UtcMigration.RestartedRowidsAreShifted | src/knx_telegram_store/backends/sqlite.py:702-708 | the open corner: a run in which restarted rowids get a new telegram shifted |
| IntegerMigration.ConvertedCellKeepsInstant | src/knx_telegram_store/backends/sqlite.py:39-44 | a converted cell decodes to the same instant |
| IntegerMigration.ConvertRows | src/knx_telegram_store/backends/sqlite.py:544-547 | one batch converts exactly the text cells of its rowid range and keeps every instant |
| IntegerMigration.ConvertTableToIntegers | src/knx_telegram_store/backends/sqlite.py:537-542 | with enough commits left no text row remains; cut off anywhere, every row still decodes to its instant |
| IntegerMigration.TimestampFile.ConvertTimestampsToIntegers | src/knx_telegram_store/backends/sqlite.py:498-535 | one start, cut off between any two commits: instants unchanged, text only disappears, the flag only when none is left, finished when the commits suffice, and it says "rewritten" exactly when an unflagged file held text |
| IntegerMigration.TimestampFile.Restarts | src/knx_telegram_store/backends/sqlite.py:509-514 | any number of cut-off starts: no instant changes, and the first start that is let finish does |
| RowIds.MaxOf | src/knx_telegram_store/backends/sqlite.py:537-542 | `max(rowid) or 0` bounds every rowid and is one of them unless the table is empty |
| MemoryStore.BisectLeft | src/knx_telegram_store/backends/memory.py:107-107 | the first position not below the bound |
| MemoryStore.InWindow | src/knx_telegram_store/backends/memory.py:104-109 | one bisection decides whether any pivot lies within the deltas, for all deltas |
| MemoryStore.Store.ApplyFilters | src/knx_telegram_store/backends/memory.py:68-92 | the chain of comprehensions keeps exactly the telegrams matching every given filter, in order |
| MemoryStore.Store.ContextWindow | src/knx_telegram_store/backends/memory.py:94-110 | the window keeps exactly the telegrams near some pivot, in order |
| MemoryStore.SelectionMeans | src/knx_telegram_store/backends/memory.py:68-110 | what a query selects: the matching telegrams or, with a window, every telegram at most `delta_before_ms` before or `delta_after_ms` after a matching one |
| MemoryStore.AnswerMeans | src/knx_telegram_store/backends/memory.py:112-128 | the answer is positions `offset` up to `offset + limit` of the selection in order of time, ties as written; the number of telegrams, the total and the limit flag follow |
| MemoryStore.Store.Query | src/knx_telegram_store/backends/memory.py:62-128 | filters, window, order, page, total and limit flag together: as many telegrams as `limit` and the rest behind `offset` allow, each at its position in an ordering of the selection that leaves ties as written |
| MemoryStore.Store.StoreMany | src/knx_telegram_store/backends/memory.py:56-59 | appends the batch |
| MemoryStore.Store.Clear | src/knx_telegram_store/backends/memory.py:168-171 | empties the list |
| MemoryStore.Store.GetLastUniqueTelegrams | src/knx_telegram_store/backends/memory.py:158-166 | the dictionary loop is the one-pass last-value map |
| MemoryStore.LastOfIsFirstOfNewest | src/knx_telegram_store/backends/memory.py:158-166 | that map has a destination exactly when a telegram does, and holds the first-written of its newest |
| Lists.StableSortIsOrdering | src/knx_telegram_store/backends/memory.py:112-113 | the stable sort orders and keeps every element |
| Lists.StableSortIsStable | src/knx_telegram_store/backends/memory.py:112-113 | telegrams of one timestamp keep the order they were written in, ascending or descending |
| Lists.OrderingsAgreeOnKeys | src/knx_telegram_store/backends/base_sql.py:645-649 | any two ways ORDER BY may arrange the same rows agree on the timestamps, position by position |
| Lists.OrderingIsUniqueWithoutTies | src/knx_telegram_store/backends/base_sql.py:645-649 | without ties there is one arrangement only |
| Lookup.NextId | src/knx_telegram_store/lookup.py:82-97 | a new id is not in use, whatever a sequence skipped |
| Lookup.InternedAllKeeps | src/knx_telegram_store/lookup.py:82-97 | interning keeps ids injective and old rows in place, and every requested pair has a row afterwards |
| Lookup.InternedAllAddsOnly | src/knx_telegram_store/lookup.py:82-97 | nothing else is added |
| Lookup.CacheIsTransparent | src/knx_telegram_store/lookup.py:72-80 | skipping cached pairs leaves the table as if there were no cache |
| Lookup.IdsAreDetermined | src/knx_telegram_store/lookup.py:99-110 | ids that resolve to their own strings are the table's only ids for them |
| Lookup.InsertAndFetch | src/knx_telegram_store/lookup.py:82-110 | the inserts and one SELECT resolve exactly the missing pairs |
| Lookup.LookupCache.Warm | src/knx_telegram_store/lookup.py:56-63 | afterwards every row of the table is cached, and a correct cache stays correct |
| Lookup.LookupCache.GetOrCreateIds | src/knx_telegram_store/lookup.py:65-110 | every requested pair resolves, to a row of its own, in the table the transaction leaves |
| Lookup.LookupCache.Publish | src/knx_telegram_store/lookup.py:112-114 | the resolved ids join the cache |
| SqlStore.RowRoundTrip | src/knx_telegram_store/backends/base_sql.py:380-412 | a telegram written under resolved ids has all its id columns in their categories and reads back as itself |
| SqlStore.DecodeIsStable | src/knx_telegram_store/backends/base_sql.py:390-412 | later interning changes no stored telegram |
| SqlStore.UpsertOfBatchIsFold | src/knx_telegram_store/backends/base_sql.py:416-449 | one upsert of a batch's own winners is the row-by-row rule over the whole batch |
| SqlStore.Store.EncodeBatch | src/knx_telegram_store/backends/base_sql.py:392-412 | one row per telegram, in order, under the resolved ids |
| SqlStore.Store.LatestPerDestination | src/knx_telegram_store/backends/base_sql.py:416-428 | the dictionary loop picks the first of the newest per destination |
| SqlStore.Store.RunTransaction | src/knx_telegram_store/backends/base_sql.py:390-449 | what a transaction does to the three tables, and ids that resolve in them |
| SqlStore.Store.StoreMany | src/knx_telegram_store/backends/base_sql.py:373-451 | all of it or nothing; the cache learns the ids only after the commit |
| SqlStore.Store.EvictOlderThan | src/knx_telegram_store/backends/base_sql.py:486-498 | deletes exactly the rows older than the cutoff and counts them; a dry run counts the same and deletes none |
| SqlStore.Store.Clear | src/knx_telegram_store/backends/base_sql.py:750-756 | empties both tables and keeps the interned strings |
| SqlRuns.StepKeepsInvariant | src/knx_telegram_store/backends/base_sql.py:373-451 | every event keeps: unique strings, a correct cache, id columns in their categories, rows that read back as the plain list, summaries that are its last values |
| SqlRuns.Run | src/knx_telegram_store/backends/base_sql.py:373-451 | so does every run |
| SqlRuns.FoldAgrees | src/knx_telegram_store/backends/base_sql.py:416-449 | the upsert over destination ids is the last-value map over destination strings |
| SqlRuns.CacheNeverLies | src/knx_telegram_store/lookup.py:47-114 | in every run the cache is a subset of the committed table and no id stands for two strings, reused ids of rolled-back transactions included |
| SqlRuns.OnlyCommittedStrings | src/knx_telegram_store/lookup.py:82-114 | in every run the lookup table holds only strings that a committed transaction asked for: a rollback leaves none |
| SqlRuns.EveryTelegramIsItself | src/knx_telegram_store/backends/base_sql.py:373-412 | in every run the interned rows read back as the plain list, telegram by telegram |
| SqlRuns.SummariesAreLastOf | src/knx_telegram_store/backends/base_sql.py:758-826 | the summary table holds exactly the last values of everything stored since the last clear |
| SqlRuns.LastValuesAreFirstOfNewest | src/knx_telegram_store/backends/base_sql.py:416-449 | in every run, evictions included: a summary per destination ever written since the clear, the first-written of its newest |
| SqlRuns.SplitDoesNotMatter | src/knx_telegram_store/backends/base_sql.py:416-449 | runs that stored the same history have the same last values, however it was cut into batches and evicted |
| SqlRuns.LastValuesAgreeWithMemory | src/knx_telegram_store/backends/base_sql.py:758-826 | with nothing evicted since the clear they are the memory store's answer |
| SqlQuery.CollectedIsConjunction | src/knx_telegram_store/backends/base_sql.py:524-569 | the collected filter list is true exactly when every wanted condition is, and empty when none is wanted |
| SqlQuery.FiltersAreConjunction | src/knx_telegram_store/backends/base_sql.py:524-569 | the same for the seven filters of a query |
| SqlQuery.DptConditionsMeanDptMatch | src/knx_telegram_store/backends/base_sql.py:547-556 | the OR of DPT conditions, NULL columns and all, is the memory store's DPT match |
| SqlQuery.PassesIsMatches | src/knx_telegram_store/backends/base_sql.py:524-569 | a row passes the id subqueries exactly when its telegram matches the filters |
| SqlQuery.WindowRowsAgree | src/knx_telegram_store/backends/base_sql.py:571-606 | the EXISTS over pivots selects exactly the rows near some matching telegram |
| SqlQuery.EverythingIsNear | src/knx_telegram_store/backends/base_sql.py:571-606 | without filters and with non-negative deltas the window keeps everything, which is why the SQL query may skip it |
| SqlQuery.SelectionAgrees | src/knx_telegram_store/backends/base_sql.py:524-606 | the unjoined rows a query counts and pages are the memory store's selection, in storage order |
| SqlQuery.NegativeDeltaDiffers | src/knx_telegram_store/backends/base_sql.py:571-606 | outside that condition every store of one telegram answers differently |
| SqlQuery.JoinsDropNothing | src/knx_telegram_store/backends/base_sql.py:608-622 | inner joins over well-interned rows drop none, so the unjoined count is the joined count |
| SqlQuery.JoinedFirstIsJoinOfMatching | src/knx_telegram_store/backends/base_sql.py:608-649 | joining first and filtering then gives the joined form of filtering first |
| SqlQuery.PageBeforeJoin | src/knx_telegram_store/backends/base_sql.py:624-685 | a page taken before the left joins is, joined, that page of the inner-joined rows under the same tie order |
| SqlQuery.JoinBeforePage | src/knx_telegram_store/backends/base_sql.py:624-685 | and every page of the inner-joined rows comes from such a page |
| SqlQuery.LastValuesSurviveTheirJoins | src/knx_telegram_store/backends/base_sql.py:758-826 | in every run the inner joins of the last-value query drop no summary and return its telegram |
| SqlQuery.ResortedPage | src/knx_telegram_store/backends/base_sql.py:683-685 | ordering the joined page once more gives a page of some ordering of the same rows |
| SqlQuery.SqlAnswerMeans | src/knx_telegram_store/backends/base_sql.py:620-718 | any answer, whatever the engine does with ties: number, positions, total and limit flag against an ordering of the selected rows |
| SqlQuery.QueryRefinesMemory | src/knx_telegram_store/backends/base_sql.py:518-718 | any answer the SQL query may give has the memory query's total and limit flag, holds the right number of telegrams from the right positions of an ordering of the memory store's selection, has the same timestamps in place, and is equal when no timestamps tie |
| SqlQuery.EveryRunAnswersLikeMemory | src/knx_telegram_store/backends/base_sql.py:518-718 | the same in every run, against the plain list of what was stored |
| Ranking.LexIsStrictTotal | src/knx_telegram_store/backends/base_sql.py:873-877 | column-by-column comparison under a strict total order is one |
| Ranking.ColumnLessIsStrictTotal | src/knx_telegram_store/backends/base_sql.py:873-877 | text ascending, with NULL before every text, is a strict total order |
| Ranking.FirstDifferenceDecides | src/knx_telegram_store/backends/base_sql.py:873-877 | the first column in which two rows differ decides, whatever the later ones say |
| Ranking.IntTextIsInjective | src/knx_telegram_store/backends/base_sql.py:873-877 | numbers cast to text stay distinct |
| Reconcile.First | src/knx_telegram_store/backends/base_sql.py:878-890 | the row ranked 1 is one of the candidates |
| Reconcile.FirstIsLeast | src/knx_telegram_store/backends/base_sql.py:873-890 | no candidate is ranked before it |
| Reconcile.NotBeforeRanksAhead | src/knx_telegram_store/backends/base_sql.py:873-890 | what is not ranked behind has, in the first column that differs, the smaller text or NULL |
| Reconcile.SameColumnsSameRow | src/knx_telegram_store/backends/base_sql.py:878-890 | candidates that rank alike differ at most in values their casts do not tell apart |
| Reconcile.WinnerIsLatest | src/knx_telegram_store/backends/base_sql.py:854-872 | the fallback for a destination is one of its newest telegrams |
| Reconcile.LastGaTable.Reconcile | src/knx_telegram_store/backends/base_sql.py:828-918 | one transaction: early return, delete stale, insert missing, set the flag, all or nothing |
| Reconcile.ReconcilingBringsUpToDate | src/knx_telegram_store/backends/base_sql.py:828-918 | from any unflagged or empty table every destination of `telegrams` gets a summary, none older than any of its telegrams |
| Reconcile.WhoWins | src/knx_telegram_store/backends/base_sql.py:841-890 | a summary no telegram is newer than is kept, tied or not; a stale or missing one becomes the newest telegram that ranks ahead of all others: the first of source, telegram type, direction, names, payload and so on in which two differ decides, the smaller text first and NULL before everything; no others appear |
| Reconcile.WinnersRankAlike | src/knx_telegram_store/backends/base_sql.py:878-890 | in whatever order the rows lie, the fallback shows the same text in every column |
| Reconcile.WinnerIgnoresRowOrderIff | src/knx_telegram_store/backends/base_sql.py:878-890 | it is the very same row in every order if and only if the casts tell different values apart |
| Reconcile.UpToDateStays | src/knx_telegram_store/backends/base_sql.py:828-853 | reconciling an up-to-date table changes no summary, flagged or not |
| Reconcile.ReconcilingTwiceIsOnce | src/knx_telegram_store/backends/base_sql.py:828-918 | reconciling again changes nothing, even after the flag was lost |
| Reconcile.RunsAreUpToDate | src/knx_telegram_store/backends/base_sql.py:416-449 | every database this version writes is up to date at all times |
| Reconcile.StartLeavesOwnLastValues | src/knx_telegram_store/backends/base_sql.py:828-839 | so a later start never changes last values this version wrote |
| LegacyUnwrap.SubsetOfSameSize | src/knx_telegram_store/backends/postgres.py:648-663 | an UPDATE that reached as many rows as were counted reached all of them |
| LegacyUnwrap.UpdateKeepsInvariant | src/knx_telegram_store/backends/postgres.py:646-663 | past the row-count comparison the update covers exactly the wrapped rows, else the pass is rolled back |
| LegacyUnwrap.StepKeepsInvariant | src/knx_telegram_store/backends/postgres.py:545-585 | every step of every process and writer keeps the locks exclusive, the counts current and each row at its level |
| LegacyUnwrap.AtMostOnePass | src/knx_telegram_store/backends/postgres.py:637-671 | over every interleaving, aborted anywhere, at most one pass commits, and the flag is visible exactly when one has |
| LegacyUnwrap.OneLevelExactly | src/knx_telegram_store/backends/postgres.py:637-671 | before the flag every row is as written; with it every row written before is its unwrapped form, one level less per wrapped column around the same core, and every later row is as written |
| LegacyUnwrap.LaterRowsAreNeverTouched | src/knx_telegram_store/backends/postgres.py:637-640 | once the flag is visible no number of later starts changes a row |
| LegacyUnwrap.TableIsHeldAlone | src/knx_telegram_store/backends/postgres.py:573-585 | between table lock and commit no writer and no other process is inside |
| LegacyUnwrap.Backfill.BackfillLegacyData | src/knx_telegram_store/backends/postgres.py:545-585 | one call, statement by statement, is that process's run of the protocol, with anything others do between the look at the flag and the table lock: it raises without a lock or with rows missed, returns when flagged before or after locking, else unwraps every row and sets the flag |
| LegacyUnwrap.Backfill.UpdateWrapped | src/knx_telegram_store/backends/postgres.py:642-663 | count, update and row-count comparison: all wrapped rows or an error |
| EtsXml.SplitOffset | src/knx_telegram_store/formats/ets_xml.py:48-53 | splits at the first "+", else at the first "-" |
| EtsXml.NormalizeFraction | src/knx_telegram_store/formats/ets_xml.py:45-55 | the fraction, if any, is forced to six digits |
| EtsXml.ParseTimestamp | src/knx_telegram_store/formats/ets_xml.py:35-61 | strips, expands the "Z", normalises and reads the offset, or fails |
| EtsXml.ParseOfFraction | src/knx_telegram_store/formats/ets_xml.py:35-61 | `YYYY-MM-DDTHH:MM:SS.` with any digits and a "Z" reads as those fields with the fraction in microseconds |
| EtsXml.FractionIsTruncated | src/knx_telegram_store/formats/ets_xml.py:54-54 | up to six digits are exact, more are cut down to the microsecond below |
| EtsXml.ParseOfOffset | src/knx_telegram_store/formats/ets_xml.py:35-61 | with an explicit offset of either sign the instant is the printed time, fraction and all, less that offset, or nothing outside the calendar |
| EtsXml.ParseOfNaive | src/knx_telegram_store/formats/ets_xml.py:35-61 | without offset and fraction the digits are UTC |
| EtsXml.TimestampInSpaces | src/knx_telegram_store/formats/ets_xml.py:42-44 | white space around a timestamp does not matter, and a lower-case "z" is as good as a "Z" |
| EtsXml.PrintedForm | src/knx_telegram_store/formats/ets_xml.py:100-101 | what is printed is `YYYY-MM-DDTHH:MM:SS.ffffffZ` with the fields of the instant |
| EtsXml.TimestampRoundTrip | src/knx_telegram_store/formats/ets_xml.py:100-101 | a printed timestamp parses back to its instant, years 1000 to 9999 |
| EtsXml.HexRoundTrip | src/knx_telegram_store/formats/ets_xml.py:91-118 | upper-case hex reads back as the same bytes (RFC 4648, section 8) |
| EtsXml.HexSpells | src/knx_telegram_store/formats/ets_xml.py:118-118 | two upper-case digits a byte, the high one first |
| EtsXml.HexReadsApart | src/knx_telegram_store/formats/ets_xml.py:96-96 | white space between bytes is skipped |
| EtsXml.HexReadsAnyCase | src/knx_telegram_store/formats/ets_xml.py:96-96 | lower-case hex digits read like upper-case ones |
| EtsXml.GiraCommentReads | src/knx_telegram_store/formats/ets_xml.py:62-83 | the comment Gira loggers write declares exactly the offset it spells |
| EtsXml.AnySpacingMatches | src/knx_telegram_store/formats/ets_xml.py:62-64 | any white space may stand between the two words and the offset, and anything around them |
| EtsXml.LeftmostMatchCounts | src/knx_telegram_store/formats/ets_xml.py:79-82 | the leftmost match of a comment counts |
| EtsXml.LastDeclaration | src/knx_telegram_store/formats/ets_xml.py:77-84 | the correction is the last declared offset, and none before the first |
| EtsXml.DeclarationHolds | src/knx_telegram_store/formats/ets_xml.py:77-84 | a declaration stays in force until the next |
| EtsXml.RecordIsShifted | src/knx_telegram_store/formats/ets_xml.py:77-97 | a record's time is its printed time less exactly the offset in force |
| EtsXml.MissingAttributes | src/knx_telegram_store/formats/ets_xml.py:92-97 | a missing service reads as an indication, a missing frame format as common EMI |
| EtsXml.ElementRoundTrip | src/knx_telegram_store/formats/ets_xml.py:87-119 | the attributes printed for a record read back as that record, and the connection name is printed exactly when there is one |
| EtsXml.IterCommunicationLog | src/knx_telegram_store/formats/ets_xml.py:67-97 | yields the record of every telegram element under the offset in force, up to the first unreadable one |
| EtsXml.WriteCommunicationLog | src/knx_telegram_store/formats/ets_xml.py:122-139 | one element per record, in order, and their number |
| EtsXml.LogRoundTrip | src/knx_telegram_store/formats/ets_xml.py:67-139 | a written log reads back, in full, as its records |

## Left out

- SQLAlchemy, drivers, PRAGMAs, VACUUM, ANALYZE, free-space comparisons: foreign behaviour; a transaction is
  all or nothing and a rowid one more than the current maximum.
- Connection handling, `check_config`, TimescaleDB set-up, LISTEN/NOTIFY, statistics, capabilities, `mcp/`,
  `tools/`, schema DDL and indexes: plumbing that would add easy members only.
- JSON and XML encodings: JSON columns are opaque except for their `{"value": ...}` layers, log elements are
  attribute strings.
- The periodic flush loop, timers, logging and the unbuffered reads of `buffered.py`: a flush may start at any
  moment of a run, which covers the timer.
- `initialize()` and `migrate_timestamps_to_utc()` during a backup, which do not go through the write gate.
- Cancellation inside a backend call is an outcome that leaves the backend as it was; an eviction that the
  code shields from cancellation is a `Done` answer, so that its caller sees CancelledError is not modelled.
- The class methods of `BufferedStore` start where the operation has got the mutation lock and see other tasks
  only through what `store()` adds meanwhile; waiting for gate and lock, and every other interleaving, is the
  protocol's.
- The size cap of `MemoryStore`, and negative limits and offsets.
- The order among equal timestamps, which the SQL engine chooses.
- The millisecond window on unconverted text files and readers of half-converted files: approximate by design.
- Datetime overflow at the ends of the calendar during the hourly walk, and years below 1000 in printed
  timestamps, which `strftime` does not pad everywhere.
- EtsXml.ParseTimestamp: fails on the other ISO 8601 forms that `fromisoformat` accepts (dates alone, week dates,
  basic format, times without seconds, offsets with seconds) and on non-ASCII digits and spaces, because neither
  ETS nor the library writes them.
- Whether the text of a cast determines the value: payload, value, value_numeric, raw_data and data_secure are one
  opaque number with parameters for their texts, and SQLite rounds the text of a double.
- `BufferedMemoryStore.evict_older_than`, which takes gate and lock and evicts nothing.
- The recovery of NULL values and of the legacy float column in `_backfill_legacy_data`, which take weaker
  locks and repeat harmlessly; the migration of an earlier version is one atomic step that may commit while
  no process holds the table lock.
- MemoryStore.Narrow: its contract names the narrowed condition only; `MemoryStore.Store.ApplyFilters` fixes it.
