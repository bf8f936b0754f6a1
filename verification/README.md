# The crossbank storage engine, modelled and proved

crossbank keeps named *lockers* of keys and values over a dumb ordered byte store that can only commit a list of ops
atomically and scan a range a page at a time. This project models the engine between the two and proves what it
promises: that a lazy locker behaves as a transactional map whatever fails and whenever it is reopened, that every
chunk of a large value has exactly one owner, that the byte budget in RAM and in storage agree, that no value id is
handed out while a stored chunk carries it, and that paging, listing, streaming, coherence and notification do what
their callers rely on.

## How it is laid out

| file | what it holds |
|---|---|
| `Bytes.dfy`, `Keys.dfy`, `Backend.dfy`, `Walk.dfy` | bytewise order, stored keys and ranges, the memory backend as a class, the paging walk |
| `Codec.dfy`, `Reading.dfy` | the value envelope and its filters, chunk pointers, reassembling a value |
| `Storage.dfy` | the store as the engine sees it (records, chunk rows, budget rows, counters), ops, who owns which chunk |
| `Bridge.dfy`, `Bytewise.dfy` | the byte tables and byte ops carry exactly that structure, op by op, read by read and over whole runs |
| `Inner.dfy`, `Transaction.dfy` | the op list of one write, and of a collapsed batch |
| `Lru.dfy`, `Accounting.dfy`, `Budget.dfy`, `LruAccounts.dfy` | planning an eviction, its ops, and the accounts as a class |
| `Ticks.dfy`, `ValueIds.dfy` | the two allocators, as classes and as interleaved protocols |
| `Locker.dfy`, `Invariants.dfy` | one lazy locker's steps as functions, and what one commit keeps |
| `Streaming.dfy`, `Writer.dfy` | streaming writers: what each step keeps, and the writer as a class |
| `Steps.dfy`, `Runs.dfy` | the whole engine as a state machine, and its runs against plain maps |
| `Recency.dfy` | what counts as a use: ticks, read bumps and their rows over whole runs, and who is evicted first |
| `Engine.dfy` | the bank and the lazy locker as classes, each call proved to be one step of `Locker.dfy` |
| `Listing.dfy`, `Watch.dfy`, `Bank.dfy` | listings, notification, opening a name |
| `News.dfy`, `LazyCoherence.dfy`, `EagerCoherence.dfy`, `EagerLocker.dfy` | news between tabs, what a lazy and an eager locker make of it, and runs of an eager locker |
| `Limits.dfy` | what breaks, with the exact line, when a caller does not keep to the rules |

Code that updates objects in place is modelled by classes whose methods are proved equal to specification functions;
the lemmas are about those functions. `dafny verify dfyconfig.toml` checks everything.

## Reading the main theorems

* `Runs.RunsRefineMaps`: start from an empty bank; let any number of lockers and writers take any steps in any order,
  let any step fail, reopen lockers (under another configuration if wished) and restart the bank at any point. In every
  state reached, chunk ownership is exact, each index is the key set of what its handle sees, inline markers are true,
  accounts are exact, and each locker's contents are those of a plain map taking the same steps, minus the keys
  evicted. A failed step leaves the map, and the order of the staged batch, alone. `Runs.EvictionsSpareTheBatch` says
  what may be evicted.
* The rules a caller must keep to are one predicate, `Steps.Respected`. Each clause is there because the code breaks
  without it, and each has its exact line: `Steps.EvictIndexExact`, `Runs.PublishIndexExact`, `Streaming.PublishStep`,
  `Streaming.PublishOwnedExactly`, `Steps.ReopenRebuilds`, `Limits.TotalExactly`, and for the size of values
  `Reading.PutPointerParses` with `Limits.ClearOwnedExactly`.
* `Recency.AlwaysAhead` and `Recency.AlwaysWrittenDown` are about the same runs: no tick is ever held that the clock has
  not passed, so a read or a write makes its keys the youngest (`Recency.ReadIsUse`, `Recency.WriteIsUse`) and the last
  to go (`Recency.ReadKeyGoesLast`); and no tick is lost but read bumps not yet written.
* A step commits only if every record it has to read back is one the pointer parser takes (`Steps.Possible`); under the
  rules every record is, so nothing ever stands in the way (`Runs.NothingStandsInTheWay`).
* A failed attempt is one that wrote nothing; it may have moved the RAM cursors forward. Exhausted 64-bit counters, a
  backend that refuses a read or a commit, and an old pointer that does not parse (for a `get`, a record that does not
  load) are the ways to fail, and the calls of `Engine.dfy` fail in no other.
* A streaming writer that finishes reads the old record in one step (`Look`) and commits in another (`Publish`), with
  anything in between; `Bytewise.BytesAnswer` and `Bytewise.RunRepresents` carry the runs down to the stored bytes.

## Where the code keeps less than its documentation says

* A value over 256 MiB is accepted for writing. Stored in chunks, its pointer is refused from then on: it can be
  neither read, replaced nor deleted, and a clear orphans its chunks (`Limits.OverLimitPutSticks`). The exact lines:
  the pointer parses iff the payload is within the limit (`Reading.PutPointerParses`, `Codec.PointerRoundTrip`); a put,
  delete or eviction over a record succeeds iff its pointer parses, environment permitting
  (`Engine.LazyLocker.PutBy`, `Engine.LazyLocker.DeleteBy`, `Engine.LazyLocker.EvictTo`); a clear keeps chunk ownership
  iff no pointer it passes over has chunks (`Limits.ClearOwnedExactly`).
* `Writer::finish` takes no lock between reading the old record and committing. A chunked put of the key in between
  loses its chunks (`Limits.PutBetweenLookAndPublish`); ownership survives iff the key still points where it was found
  to, or at no chunks (`Streaming.PublishOwnedExactly`, and `Limits.DeleteOwnedExactly` for the converse race).
* `Writer::finish` under a staged delete lists a key `get` does not find (`Limits.PublishUnderStagedDelete`), and after
  a failed flush publishes a value that cannot be read (`Limits.LostPieceHappens`, `Limits.PublishAfterLostPiece`).
* Deleting one key twice in a batch takes its size off the total twice (`Limits.DoubleDeleteMiscounts`); the total is
  right exactly under the condition of `Limits.TotalExactly`.
* `evict_to` over a staged overwrite of a victim unlists a key `get` still answers (`Limits.EvictOverStagedPut`).
* An empty streamed value has no chunk row, so its id can be handed out again after a reopen
  (`ValueIdCursor.EmptyValueReissued`; exact condition in `ValueIdCursor.HollowSafeExactly`).
* News refused because this tab's own epoch is at least as high can leave a stored record an eager `delete` then skips
  (`EagerCoherence.RefusedNewsHidesRecord`; exact conditions in `EagerCoherence.NewsCoverExact` and
  `EagerCoherence.LateNewsCoverExact`).
* The first tick of a bank is 0, which is also the tick of a key adopted without a budget row: read before any other
  tick was handed out, such a key is no younger than its peers (`Recency.FirstReadTies`; exact condition in
  `Recency.ReadIsUse`).
* A read bump of a key that is put before the bump is written, when over 64 bumps are waiting, is later written over the
  put's own row, although a stale bump is not meant to overwrite a fresh tick (src/locker/lru.rs:380-381). The exact
  condition is in `Recency.CommitWritesDown`; RAM is not affected, the order after a reopen is.
* An eager put, delete or clear committed on its own leaves the chunks of what it removes without an owner
  (`Limits.EagerWriteKeepsOwnershipExactly`, `Limits.EagerClearKeepsOwnershipExactly`); an eager batch does not
  (`EagerCommits.EagerBatchBuilds`).
* A tab's epoch counter is spent by every commit it attempts, not only by those that have news
  (src/coherence/web.rs:130-137).

## Model

| member | source | states |
|---|---|---|
| Runs.RunsRefineMaps | src/locker/lazy.rs:245-301 | over every run of puts, deletes, clears, transactions, flushes, evictions, reads, reopens, writers that look and then publish, and restarts, failed or not, within the rules, the engine's invariants hold and each locker's contents and staged batch are those of a plain map taking the same steps minus what was evicted |
| Runs.StepKeeps | src/locker/lazy.rs:477-567 | any single step keeps exact chunk ownership and every locker's index, markers and accounts, and changes each locker as the same step changes a map |
| Runs.EveryAnswerIsRight | src/locker/resident.rs:255-297 | in every reachable state no read is refused, get answers the map's value, the index is the map's key set, and a write under what the locker knows builds the very ops it would build after reading the old record |
| Runs.NothingStandsInTheWay | src/locker/inner.rs:461-467 | in every reachable state no old pointer stops a put, delete, flush, transaction, eviction or publish, and a clear passes over no pointer that has chunks |
| Runs.EveryChunkHasOneOwner | src/locker/inner.rs:452-566 | in every reachable state a stored chunk belongs to exactly one live pointer or unfinished writer |
| Runs.EveryPointerIsWhole | src/locker/inner.rs:376-432 | in every reachable state a pointer has exactly the chunks it counts, adding up to the length it declares, is one the parser takes, and has an id the cursor has passed |
| Runs.FailureWritesNothing | src/locker/resident.rs:603-661 | a step that fails leaves storage and every other locker as they were, and its own locker too, but for the write it had staged |
| Runs.EvictionsSpareTheBatch | src/locker/lru.rs:417-486 | a commit evicts nothing from a locker without a budget, nothing when it fails or clears, and never a key it writes or deletes itself |
| Runs.BatchesFillUp | src/locker/resident.rs:510-559 | said on the configured mode alone: deferring two or more, a write below the batch size is only appended to the batch and the store is as it was, and the one that fills it empties the whole batch into the store or, failing, stays staged; deferring one or none, like no deferral, a write is in the store with nothing staged, or leaves no trace |
| Runs.WriteIsRemembered | src/locker/lazy.rs:290-299 | after a write that is not staged the key is marked inline exactly when its payload fits one chunk, its next write needs a look exactly when it does not, a deleted key is off the index and needs none, and no other key's mark or listing changes but by eviction |
| Runs.PublishIndexExact | src/locker/io.rs:139-143 | listing a published key is right exactly when no staged delete or clear hides it |
| Runs.RestartKeeps | src/locker/chunk.rs:248-255 | dropping every cursor and every resident state and opening afresh keeps all invariants and forgets only staged writes |
| Steps.WriteStep | src/locker/lazy.rs:245-301 | put, delete and clear, immediate or staged, landed or failed, do to index, markers, accounts and contents what the map step says |
| Steps.TransactStep | src/locker/lazy.rs:477-567 | a transaction absorbs the staged batch, staged first, in one commit, or leaves both untouched |
| Steps.FlushStep | src/locker/resident.rs:603-643 | a flush commits the staged batch and empties it, or puts it back exactly as it was |
| Steps.EvictStep | src/locker/resident.rs:429-457 | evict_to removes exactly its victims from records, chunks, rows, index and accounts |
| Steps.EvictIndexExact | src/locker/resident.rs:414-418 | unlisting the victims is right exactly when no staged write would bring one back |
| Steps.ReopenStep | src/locker/lazy.rs:93-146 | opening a locker from storage gives a resident state that agrees with it |
| Steps.ReopenRebuilds | src/locker/resident.rs:702-721 | a reopen rebuilds the same accounts and total exactly when every stored size fits the 32 bits of a budget row |
| Steps.OpenTotal | src/locker/lru.rs:529-533 | whatever rows are found, a fresh open's total is the sum of its accounts and there is one account per stored key |
| Steps.StagedDecides | src/locker/resident.rs:563-579 | reading the staged batch newest first gives what replaying it oldest first leaves under the key |
| Steps.AnswerIsVisible | src/locker/lazy.rs:171-191 | get fails exactly when it has to read a record that does not load, and otherwise answers the stored contents overlaid with the staged batch |
| Invariants.FastPathExact | src/locker/inner.rs:452-527 | skipping the read of the old record under a proven absence or a known inline record builds exactly the same op list |
| Invariants.CommitEffect | src/locker/resident.rs:331-399 | one landed commit leaves the batch replayed minus the evicted keys, keeps chunk ownership, and touches no other locker or unfinished writer |
| Invariants.AccountsAfter | src/locker/resident.rs:403-426 | after a landed commit every stored key has one account and one row with its payload's size, the total is their sum, and it is within the budget unless only the batch's own keys are left |
| Invariants.BudgetRowsEffect | src/locker/resident.rs:375-391 | the order of the row ops leaves stored rows for exactly the surviving accounts, with their sizes |
| Invariants.LandedResident | src/locker/lazy.rs:290-299 | the resident state updated after the commit agrees with what is stored |
| Invariants.IndexTracks | src/locker/lazy.rs:537-548 | updating the index write by write keeps it the key set of the contents |
| Batches.CollapseKeepsMeaning | src/locker/transaction.rs:215-249 | dropping everything before the last clear and all but the last action per key leaves what replaying every write would |
| Batches.OverlayAppend | src/locker/lazy.rs:1081-1092 | replaying staged writes and then a transaction is replaying the merged batch |
| Transaction.BatchOpsEffect | src/locker/transaction.rs:215-289 | committing the collapsed ops of a batch within the size limit leaves exactly its replay, keeps every chunk owned once and every pointer readable, takes fresh ids only, and touches no other locker |
| Transaction.BatchWritesOnce | src/locker/transaction.rs:209-213 | each key surviving the last clear is written exactly once, and no other key at all |
| Transaction.PutStep | src/locker/inner.rs:452-514 | a put within the size limit stores the payload under the key, whole and readable, drops exactly the old value's chunks, and owns its new ones |
| Transaction.DeleteStep | src/locker/inner.rs:516-527 | a delete removes one key and exactly its chunks |
| Transaction.ClearEffect | src/locker/inner.rs:539-566 | a clear empties the locker and touches no other locker and no unfinished writer; it drops exactly the locker's chunks when no pointer it passes over has any |
| Ownership.ReplaceKeepsOwnership | src/locker/chunk.rs:287-292 | replacing a record, with its old chunks dropped and its new ones under a fresh id, keeps every chunk owned exactly once |
| Ownership.ReplaceView | src/locker/inner.rs:330-337 | replacing a record changes one key's value and no other value anywhere |
| Inner.JoinCut | src/locker/inner.rs:480-487 | a payload cut at the chunk size and joined again is the payload |
| Inner.CutSizes | src/locker/inner.rs:484-494 | every piece is nonempty, none exceeds the chunk size, and only the last may be short |
| Inner.PutEffect | src/locker/inner.rs:452-514 | what the op list of a put leaves, inline or chunked |
| Streaming.StartStep | src/locker/io.rs:73-87 | a new writer owns a fresh id, persisted past before any chunk |
| Streaming.PieceStep | src/locker/io.rs:102-111 | flushing a piece adds exactly the writer's next chunk and changes no value |
| Streaming.PublishStep | src/locker/io.rs:116-143 | publishing over what the writer saw, or over no chunks, hands the writer's chunks to the record and drops those it replaces; the result is readable exactly when the flushed pieces add up to the bytes handed in and the pointer is within the reader's limits |
| Streaming.PublishOwnedExactly | src/locker/io.rs:121-138 | committing a publish built from an earlier read keeps chunk ownership exactly when the key still points where it was found to point, or at no chunks |
| Streaming.AbortStep | src/locker/io.rs:154-164 | aborting drops the writer's chunks and nothing else |
| StreamingWriter.StreamedIsCut | src/locker/io.rs:91-127 | however the bytes are split across calls, the stored pieces are the payload cut at the chunk size |
| StreamingWriter.SplitsDoNotMatter | src/locker/io.rs:91-100 | the flushed pieces and the buffered rest depend only on the bytes handed in |
| StreamingWriter.Writer.Start | src/locker/io.rs:73-87 | takes the cursor's id and commits the counter past it, or fails leaving the store as it was |
| StreamingWriter.Writer.WriteChunk | src/locker/io.rs:91-111 | flushes exactly the whole pieces in order; when a commit fails, the pieces before it have landed and its own bytes are gone |
| StreamingWriter.Writer.Finish | src/locker/io.rs:116-150 | flushes the rest, reads the old record, and publishes the pointer with the right count and length, listing the key only then; it succeeds exactly when both commits and the read do and the old pointer parses |
| StreamingWriter.Writer.Look | src/locker/io.rs:121-126 | finds the old pointer's id, failing when the backend does or the pointer does not parse |
| StreamingWriter.Writer.Publish | src/locker/io.rs:127-143 | one commit of the new pointer and the removal of what was seen, whatever has happened since, and the key listed once it has landed |
| StreamingWriter.Writer.Abort | src/locker/io.rs:154-164 | drops the chunks flushed so far in one commit |
| StreamingWriter.WriteIsSteps | src/locker/io.rs:91-111 | the writer object's effect is that many flush steps of the engine's state machine |
| Engine.LazyLocker.Open | src/locker/lazy.rs:93-146 | reads keys and budget rows back, reconciles them, and raises the clock above every tick seen |
| Engine.LazyLocker.Prior | src/locker/resident.rs:255-273 | what the locker can prove about a key: absent only unlisted, inline only listed and marked, and neither while anything is staged |
| Engine.LazyLocker.PutPayloadOps | src/locker/inner.rs:452-514 | builds the put's op list, or fails having moved no cursor; fails on an old pointer that does not parse |
| Engine.Bank.DeleteValueOps | src/locker/inner.rs:516-527 | builds the delete's op list, failing on an old pointer that does not parse |
| Engine.Bank.ClearValueOps | src/locker/inner.rs:539-566 | builds the clear's op list from every record of the locker, passing over pointers that do not parse |
| Engine.LazyLocker.OpsForItems | src/locker/transaction.rs:215-289 | builds the collapsed batch's op list in key order, or fails having moved the id cursor forward at most; every record it replaces parses when it succeeds, and that suffices but for backend and counters |
| Engine.LazyLocker.BudgetFor | src/locker/resident.rs:331-399 | plans and builds a commit's bookkeeping before anything is written |
| Engine.LazyLocker.ReloadIfDirty | src/locker/resident.rs:460-481 | accounts left dirty are replaced by the stored rows, keeping uncommitted read ticks and raising the clock, or nothing changes |
| Engine.LazyLocker.ApplyBudget | src/locker/resident.rs:403-426 | applies the accounts and drops the evicted keys from the index and the markers |
| Engine.LazyLocker.LandWith | src/locker/lazy.rs:275-299 | one commit, and the resident state updated only once it has landed |
| Engine.LazyLocker.FlushLocked | src/locker/resident.rs:603-643 | is the flush step, whatever fails; when it succeeds every record it replaced or evicted parsed, and it does succeed when they all parse and backend and counters allow |
| Engine.LazyLocker.Stage | src/locker/resident.rs:551-559 | is the staging step, committing the batch once it is full, with the flush's own terms of success |
| Engine.LazyLocker.PutBy | src/locker/lazy.rs:245-301 | is the put step, whatever fails; it succeeds when backend and counters allow and every record it reads back parses, and only then as to those records; under a deferral of two or more, a write below the batch size is only appended to the batch, one that fills it empties the batch or, failing, leaves it with the write; otherwise nothing is staged |
| Engine.LazyLocker.DeleteBy | src/locker/lazy.rs:353-385 | is the delete step, whatever fails, on the same terms of success as a put; under a deferral of two or more, a write below the batch size is only appended to the batch, one that fills it empties the batch or, failing, leaves it with the write; otherwise nothing is staged |
| Engine.LazyLocker.ClearAll | src/locker/lazy.rs:442-467 | is the clear step, whatever fails; over pointers that do not parse it succeeds and leaves their chunks; under a deferral of two or more, a write below the batch size is only appended to the batch, one that fills it empties the batch or, failing, leaves it with the write; otherwise nothing is staged |
| Engine.LazyLocker.Transact | src/locker/lazy.rs:477-567 | is the transaction step, whatever fails; a failure restores the staged batch, and the terms of success are a flush's |
| Engine.LazyLocker.EvictTo | src/locker/resident.rs:429-457 | is the eviction step, whatever fails; it succeeds only if every victim's record parses, and always then but for the backend |
| Engine.LazyLocker.GetBy | src/locker/lazy.rs:171-191 | answers from the staged batch first, then storage; a stored hit leaves its account with a tick above every other's when all were behind the clock; a record that does not load is an error that changes nothing |
| Recency.AlwaysAhead | src/locker/lru.rs:174-212 | in every state of every run, restarts and failures included, every tick an account, a kept bump or a budget row holds is below the next tick handed out, or below 1 while none has been |
| Recency.ReadIsUse | src/locker/lazy.rs:171-191 | reading a stored value moves its account's tick and no other, to one no account exceeds, and above all others exactly when the bank had handed out a tick before or there is no other; the bump is kept for a later commit |
| Recency.OtherReadsAreNoUse | src/locker/lazy.rs:171-184 | a get answered from the staged batch, or finding nothing, or failing, uses nothing |
| Recency.WriteIsUse | src/locker/resident.rs:331-399 | after a landed commit the keys it put share one tick no account exceeds, every other account is as it was, and is older exactly when a tick had been handed out before or every account was put |
| Recency.YoungestGoesLast | src/locker/lru.rs:456-486 | a plan that takes the younger of two accounts also takes the older, if nothing protects it |
| Recency.ReadKeyGoesLast | src/locker/resident.rs:311-325 | a key just read is evicted only with every other account the plan could take |
| Recency.EvictsDownTo | src/locker/resident.rs:429-457 | evict_to leaves at most the bytes asked for, having taken accounts oldest first, and giving one of those taken back would exceed it |
| Recency.CommitWritesDown | src/locker/lru.rs:380-404 | a landed commit keeps every account's tick in its row or as a waiting bump exactly when no bump of a key it puts is left waiting behind the first 64 |
| Recency.BumpsGetWritten | src/locker/lru.rs:382-404 | a commit that clears nothing writes down the first 64 waiting bumps, in key order, of the keys that keep an account, and a key it puts gets the commit's tick instead |
| Recency.AlwaysWrittenDown | src/locker/lru.rs:493-516 | over every run in which each commit meets that condition, every account's tick is in its row or waiting as a bump, reopens and restarts included |
| Recency.ReopenKeepsOrder | src/locker/lru.rs:544-591 | a reopen finds accounts whose bumps were written with the same ticks, so in the same order |
| Recency.FirstReadTies | src/locker/lazy.rs:93-146 | a key adopted without a row and read at the bank's first tick ties with one never read |
| Engine.Bank.AllocateId | src/locker/chunk.rs:208-214 | hands out the cursor, or on first use the floor recomputed from data and counter |
| Engine.Bank.HighestStored | src/locker/chunk.rs:262-280 | one past the highest id any stored chunk carries |
| Lru.PlanSoundAndMinimal | src/locker/lru.rs:426-486 | the new total is exactly what survives; victims are distinct surviving keys outside keep and removals, all older than every candidate spared; the budget is met unless only protected keys remain; sparing the last victim would have missed it |
| Lru.VictimsAre | src/locker/lru.rs:456-486 | whatever the total says, victims are distinct surviving keys that are neither protected nor removed |
| Lru.OlderGoFirst | src/locker/lru.rs:456-486 | whatever the total says, no account is evicted while an older one that could be stays |
| Lru.ByAgeSorted | src/locker/lru.rs:476 | candidates are in order of tick, then key, and none is lost |
| LruAccounts.Accounts.Plan | src/locker/lru.rs:426-486 | the planning loops compute the specified plan |
| LruAccounts.Accounts.Apply | src/locker/lru.rs:493-516 | the accounts, deferred ticks and total once the commit has landed |
| LruAccounts.Accounts.PendingOps | src/locker/lru.rs:382-404 | at most 64 deferred ticks are carried, and never over a row the commit writes afresh |
| LruAccounts.Accounts.Touch | src/locker/lru.rs:372-377 | a read moves the tick of a known key and nothing else |
| LruAccounts.Accounts.RemotePut | src/locker/lru.rs:334-353 | the remote key sorts after every account held and its size replaces the old one; an unknown size marks the accounts dirty and leaves an account already held; the total stays the sum |
| LruAccounts.Accounts.RemoteDelete | src/locker/lru.rs:356-361 | another tab's delete keeps the total the sum of the accounts |
| LruAccounts.Accounts.RemoteClear | src/locker/lru.rs:364-369 | another tab's clear empties the accounts and makes them trustworthy again |
| LruAccounts.Accounts.AdoptLoaded | src/locker/lru.rs:308-313 | a reload replaces the accounts and keeps the uncommitted ticks of keys still stored |
| LruAccounts.Accounts.Load | src/locker/lru.rs:544-591 | loads every row, their capped sum, and the highest tick among them |
| LruAccounts.Accounts.RetainKeys | src/locker/lru.rs:529-533 | keeps the live keys and recounts |
| Accounting.Account | src/locker/resident.rs:676-699 | collapses a batch into sizes written, keys removed and whether it cleared |
| Accounting.UpdatesAre | src/locker/resident.rs:682-686 | sizes are listed once for exactly the keys whose last action is a put, with that put's size |
| Accounting.RemovedKeys | src/locker/resident.rs:687-690 | removals name exactly the keys whose last action is a delete |
| Accounting.RemovalsDistinct | src/locker/resident.rs:687-690 | removals are listed once each exactly when no key is deleted twice in a row |
| Budget.RowOpsEffect | src/locker/resident.rs:375-386 | clear, fresh rows, carried ticks and removals, in that order, leave rows for exactly the kept accounts |
| Budget.VictimOpsEffect | src/locker/resident.rs:387-390 | evicting drops the victims' records, chunks and rows and keeps chunk ownership |
| LogicalClock.Ticks.Take | src/locker/lru.rs:174-183 | takes the cursor if it is seeded, refusing once ticks are exhausted |
| LogicalClock.Ticks.SeedAndTake | src/locker/lru.rs:188-197 | issues the largest of cursor, stored counter and floor |
| LogicalClock.Ticks.ObserveRecorded | src/locker/lru.rs:201-212 | raises the clock above a recorded tick |
| LogicalClock.Ticks.Counter | src/locker/lru.rs:231-239 | persists the high-water mark, or the floor of a clock nothing was taken from |
| LogicalClock.TicksIncrease | src/locker/lru.rs:174-197 | issued ticks strictly increase over any interleaving, stale reads included |
| LogicalClock.NewTicksAboveRecorded | src/locker/lru.rs:201-212 | after rows are read back every new tick exceeds all of theirs and all issued before |
| LogicalClock.PersistedPastIssued | src/locker/lru.rs:231-239 | the counter persisted is past every tick issued or read back by then |
| ValueIdCursor.ValueIds.Take | src/locker/chunk.rs:171-183 | takes the next id if seeded, refusing once ids are exhausted |
| ValueIdCursor.ValueIds.SeedAndTake | src/locker/chunk.rs:190-201 | takes the larger of cursor and floor, so the cursor never moves back |
| ValueIdCursor.ValueIds.CounterOp | src/locker/chunk.rs:226-232 | persists the cursor, and nothing while it was never seeded |
| ValueIdCursor.NeverReissued | src/locker/chunk.rs:169-255 | over any interleaving of allocation, concurrent first use, builds, commits landing late or never, collection and reopening, no id is handed out while a stored chunk carries it, nor twice in a session |
| ValueIdCursor.StepSafe | src/locker/chunk.rs:185-201 | every step keeps all stored and issued ids behind the cursor |
| ValueIdCursor.HollowSafeExactly | src/locker/chunk.rs:248-255 | the id of a pointer without chunks stays unissued in the session after a reopen exactly when the stored counter or a stored row is past it |
| ValueIdCursor.EmptyValueReissued | src/locker/chunk.rs:137-152 | a run in which a late commit walks the counter back and an empty value's id is the next handed out |
| KeyRanges.BoundsExact | src/backend/api.rs:154-166 | a range contains a key exactly when, by the byte order alone, the key is not below an inclusive start nor above an inclusive end, and strictly inside an exclusive one |
| KeyRanges.InclusiveExact | src/backend/api.rs:154-166 | between two inclusive bounds lie exactly the keys below neither end, between a key and itself that key, and an exclusive bound leaves its own key out |
| KeyRanges.Prefix | src/backend/api.rs:136-152 | the pop-and-increment loop builds the prefix range |
| KeyRanges.PrefixExact | src/backend/api.rs:131-166 | a prefix range contains a key exactly when the prefix is a prefix of it, 0xFF bytes included |
| KeyRanges.DecodeExact | src/key.rs:46-88 | decoding is exactly the inverse of encoding and refuses short and foreign keys |
| KeyRanges.EncodeOrders | src/key.rs:46-51 | stored keys sort by locker, then as the user's keys do |
| KeyRanges.RangeExact | src/key.rs:115-130 | an encoded user range contains a stored key exactly when that is this locker's encoding of a user key inside the bounds |
| KeyRanges.DegenerateIsEmpty | src/key.rs:140-148 | bounds refused as degenerate contain nothing |
| KeyRanges.EncodedIsLegal | src/key.rs:132-148 | any other bounds encode to a range an ordered map accepts |
| ByteStore.MemoryBackend.Commit | src/backend/memory.rs:174-184 | applies the whole op list in order, or nothing on a closed backend |
| ByteStore.MemoryBackend.ApplyOp | src/backend/memory.rs:77-98 | one put, delete or range delete |
| ByteStore.MemoryBackend.Scan | src/backend/memory.rs:107-139 | one page, by the byte order alone: the first keys inside the bounds in the asked direction, as many as the limit allows, with their values when asked for, and a resume point whenever more remain |
| Paging.Walk | src/locker/inner.rs:582-633 | visits every key of the locker inside the bounds, an inclusive bound's own key included, exactly once, in order, for any page size and either resume convention, and never hands the backend a range it would refuse |
| Paging.RestOfWalk | src/locker/inner.rs:617-627 | excluding the last key visited leaves exactly the keys still to come, in either direction |
| Paging.WalkIsListing | src/key.rs:108-130 | walking the stored range and listing the user's keys is the same sequence |
| Paging.UserKeysWithin | src/locker/inner.rs:582-633 | the keys a walk is to visit are exactly the user keys stored under the locker that the byte order puts inside the bounds |
| Listing.Collect | src/locker/lazy.rs:643-733 | a listing is the contents, staged writes included, in order, no more than the limit; by the byte order alone, a key inside the bounds that is left out comes after all that are listed, and only when the limit is reached |
| Listing.EndpointsListed | src/backend/api.rs:154-166 | a visible key at an inclusive bound is listed unless earlier keys fill the limit, and one at an exclusive bound is not |
| Listing.AfterLastClear | src/locker/lazy.rs:688-694 | finds where the writes after the last clear begin |
| Codec.Seal | src/codec/api.rs:184-195 | applies every filter in order and prepends the header |
| Codec.Open | src/codec/api.rs:206-244 | checks length, magic, version and chain, then inverts the filters last first |
| Codec.SealOpens | src/codec/api.rs:184-244 | what a chain seals it opens, another chain refuses it, and it is never taken for a pointer |
| Codec.CrcExact | src/codec/filters.rs:60-112 | owned and borrowed halves agree, the checksum of the input is what is appended, and exactly the buffers ending in their own checksum are accepted |
| Codec.DefaultChainExact | src/codec/filters.rs:20-50 | under the default chain a payload comes back exactly when it is within the decoding limit |
| Codec.DefaultChainLayout | src/codec/mod.rs:28-30 | the default chain stores the header of chain 1, the compressed block, and the checksum of the block, in that order |
| Codec.PointerRoundTrip | src/locker/chunk.rs:34-87 | a pointer is read back exactly when its length is within the limit and no chunk is empty |
| Codec.ParseIsExact | src/locker/chunk.rs:45-87 | only the encoding of a pointer parses as that pointer |
| Reading.ReadChunks | src/locker/inner.rs:376-432 | reading in groups of 64 gives the value exactly when every chunk is there, opens, and the length is as declared |
| Reading.ChunkedRoundTrip | src/locker/inner.rs:376-432 | a payload cut, sealed piece by piece and read back is the payload, under any chain that inverts |
| Reading.PutPointerParses | src/locker/inner.rs:495-500 | the pointer a put writes is accepted again exactly when the payload is within the limit |
| Reading.Reader.NextChunk | src/locker/io.rs:242-266 | yields the next piece, an inline value as one piece, and reports a missing chunk |
| Reading.Reader.Drain | src/locker/io.rs:242-266 | the pieces together are the value |
| Reading.ReaderAgrees | src/locker/io.rs:242-266 | reading piece by piece and reading whole see the same bytes |
| Bridge.CommitSimulates | src/backend/memory.rs:174-184 | the byte ops of a commit leave byte tables that hold exactly what the engine's ops leave |
| Bridge.EmptyRepresents | src/backend/memory.rs:61-64 | an empty backend represents an empty store |
| Bridge.KeysApart | src/locker/lru.rs:60-75 | no two records, chunks, rows or counters share a stored key |
| Bridge.RangeSweeps | src/locker/chunk.rs:102-104 | each range delete empties exactly the places it is meant to |
| Bridge.RecordReadsBack | src/locker/inner.rs:330-337 | a stored record's bytes are read back as that record, but for a pointer outside the parser's bounds, which is refused |
| Bridge.EntryReadsBack | src/locker/lru.rs:88-104 | a budget row is read back with its size saturated to 32 bits |
| Bridge.WalkFeedsListing | src/locker/lazy.rs:658-676 | walking the bytes lists the keys of the locker's contents inside the bounds |
| Bytewise.ReadsBack | src/locker/inner.rs:330-337 | reading a key through the tables (record, pointer, sealed chunks) gives the value the engine's store holds, and fails exactly where its record does not load |
| Bytewise.BytesAnswer | src/locker/lazy.rs:171-191 | in every reachable state what get reads from the bytes is what the plain map holds |
| Bytewise.WalkedIsStored | src/locker/lazy.rs:658-676 | the keys a walk visits with the values read for them are exactly what a listing starts from |
| Bytewise.RunRepresents | src/locker/inner.rs:305-326 | over any run whose numbers fit their stored widths, the byte commits leave tables that hold exactly the engine's store in every state |
| Bridge.ChunkKeysSort | src/locker/chunk.rs:257-280 | the last chunk key in order carries the highest id stored |
| News.AnnouncementFromOps | src/coherence/api.rs:103-189 | the loop over a commit's ops computes its news |
| News.NewsIsTrue | src/coherence/api.rs:103-189 | news says of every key exactly what the commit did to it |
| News.NewsCarries | src/coherence/api.rs:131-166 | what is said last of a stored key carries its payload exactly when the record is inline and small enough to ride along, and a length exactly when it is a pointer that parses |
| News.SilenceMeansNothing | src/coherence/api.rs:178-181 | no news means nothing of the locker changed |
| LazyCoherence.LazySink.Apply | src/locker/lazy.rs:791-819 | folds news into index, inline markers and byte accounts, forgets this tab's epochs on a clear, keeps the total the sum of the accounts, and does nothing once closed |
| LazyCoherence.IndexFollowsNews | src/locker/lazy.rs:791-819 | true news keeps the index the key set of what is stored and every marker true |
| LazyCoherence.AccountsFollowNews | src/locker/resident.rs:488-504 | true news keeps one account per stored key, each with the stored size unless the accounts are marked dirty |
| LazyCoherence.MarkedExactly | src/locker/lru.rs:334-353 | news leaves the accounts marked exactly when they were and nothing was cleared, or some put among it neither carries a value nor states a length |
| LazyCoherence.SizeHeard | src/locker/lru.rs:334-353 | a key news put last is accounted with the length of the value carried, or else the length declared |
| EagerCommits.EagerLocker.Apply | src/locker/eager.rs:541-624 | fresh news takes effect key by key on the fields: unless this tab's own commit outranks it, a key whose last change carries a value the decoder takes is held with that value and not dropped, one deleted is forgotten, any other is dropped; keys not named stay, or go with a clear; late news does nothing |
| EagerCoherence.Converges | src/locker/eager.rs:541-624 | with one writer and in-order news, repeats and late arrivals included, held values are the stored ones, every stored key is accounted for, each value carried and decodable is held, and only keys whose last news carried nothing usable are dropped |
| EagerCoherence.ReceiveTakes | src/locker/eager.rs:563-617 | what fresh news does to each key, said on its last change and the fields: taken over, refused, forgotten with a clear, or untouched |
| EagerCoherence.OnlyRecordHighsCount | src/locker/eager.rs:545-550 | a delivery sequence has the effect of its record-high messages alone |
| EagerCoherence.NewsCoverExact | src/locker/eager.rs:563-617 | news leaves every stored or staged key accounted for exactly when it refuses no put of an unheld key and removes none a staged write brings back |
| EagerCoherence.LateNewsCoverExact | src/locker/eager.rs:545-550 | ignoring late news is harmless exactly when every put it names is of a key held already |
| EagerCoherence.HeededNewsCovers | src/locker/eager.rs:541-624 | a message above every own epoch with nothing staged, or a late one putting only keys held already, leaves every stored key accounted for |
| EagerCommits.AlwaysCovered | src/locker/eager.rs:402-453 | over any run of writes, flushes, transactions, failures, other tabs' commits that pass that check and repeats, delete returns early only where nothing is stored or staged to remove |
| EagerCommits.AlwaysTruthful | src/locker/eager.rs:541-624 | over any such run whose news is fresh, every value held is the one staged last or the one stored |
| EagerCommits.TransactionHolds | src/locker/eager.rs:345-378 | after a transaction a key whose last write is a put is held with that write's decoded value, one deleted or cleared last is not held, and no other key changes |
| EagerCommits.TransactionDrops | src/locker/eager.rs:345-378 | a transaction forgets that a key's news was dropped exactly when it deletes the key or clears |
| EagerCommits.StepHolds | src/locker/eager.rs:217-269 | after every event of a run: this tab's writes are held as written last, another tab's fresh news as told, and nothing else changes what is held |
| EagerCommits.BatchRecords | src/locker/transaction.rs:215-289 | an eager batch leaves under every key what it said last of it |
| EagerCommits.EagerBatchBuilds | src/locker/transaction.rs:263-283 | an eager batch keeps chunk ownership exact, whatever was stored under the name, and its contents are its replay |
| EagerCommits.NotedExactly | src/locker/inner.rs:166-200 | after a commit exactly the keys committed now or before are remembered, each at its last epoch, unless a clear was committed or the bound is passed, when none is |
| EagerCommits.EagerLocker.CommitOps | src/locker/inner.rs:305-326 | one commit, its epoch remembered and its news posted only once it has landed |
| EagerCommits.EagerLocker.FlushLocked | src/locker/resident.rs:603-643 | commits the staged batch as one, or puts it back exactly as it was |
| EagerCommits.EagerLocker.Transact | src/locker/eager.rs:306-386 | commits staged writes and transaction as one and mirrors the transaction once it has landed, or leaves everything as it was |
| EagerCommits.EagerLocker.DeleteBy | src/locker/eager.rs:402-438 | skips only a key it holds nowhere, and otherwise removes the record, or stages that and commits a full batch, before it forgets the value |
| EagerCommits.EagerLocker.PutBy | src/locker/eager.rs:217-269 | refuses a value over the inline limit, mirrors into RAM only what landed or was staged, and commits a full batch |
| EagerCommits.EagerLocker.ClearAll | src/locker/eager.rs:495-518 | clears RAM only once the records are gone or the clear is staged, and commits a full batch |
| EagerCommits.EagerLocker.NoteLocal | src/locker/inner.rs:166-200 | remembers the epoch of every key just committed, within the bound, and nothing after a clear |
| EagerCoherence.RefusedNewsHidesRecord | src/locker/eager.rs:563-574 | a refused put leaves a stored record that delete skips |
| Watching.Watchers.Broadcast | src/watch.rs:194-227 | treats every subscriber on its own, in order, and prunes those that stopped listening |
| Watching.Watchers.Subscribe | src/watch.rs:178-188 | adds one subscriber with its own bounded queue and no gap |
| Watching.Watchers.TryRecv | src/watch.rs:141-143 | takes the oldest queued event, if any |
| Watching.MatchesExactly | src/watch.rs:118-126 | a clear and a gap notice reach every subscriber, any other event a filtered one exactly when its key is listed |
| Watching.DeliveredExactly | src/watch.rs:194-227 | a listener with room gets the event at once, behind the notice of what it missed; without room the event is counted; a receiver that is gone is dropped by the first event it would have heard, and no other event touches a subscriber |
| Watching.FanOutConserves | src/watch.rs:194-227 | for any queue depth and drain schedule, what was received, what is queued and the current skip count tell the exact sequence of matching events, and the queue stays bounded |
| Watching.DrainedIsTold | src/watch.rs:202-215 | once there is room, the gap is told before the event that closes it |
| Watching.EachOnItsOwn | src/watch.rs:194-227 | live subscribers never affect one another |
| Claims.Registry.ClaimOpen | src/bank.rs:1856-1868 | hands back the registered locker exactly when it is unclosed and held, with one holder more, and marks both; over a closed or dead one, or none, the claim takes the name; closed and dead lockers leave the registry |
| Claims.Registry.OpenLocker | src/bank.rs:1871-1875 | answers a locker exactly when the one registered under the name is unclosed and held, that one, with one holder more; closed and dead lockers leave the registry |
| Claims.Registry.Prune | src/bank.rs:1943-1948 | drops exactly the names whose locker is closed or held by nobody |
| Claims.OneNameOneLockerAlways | src/bank.rs:797-838 | however opens, failures, copies, drops and closes interleave, all unclosed handles on a name share one locker, the one the registry finds |
| Claims.Openings.Check | src/bank.rs:797-811 | a step of the protocol on the real registry: an unclosed held locker under the name becomes the caller's handle, never a closed one, or the open goes on |
| Claims.Openings.Claim | src/bank.rs:812-838 | a step of the protocol: the caller ends up with the locker registered under the name, unclosed, its own let go if it lost |
| Claims.Openings.Close | src/bank.rs:106-110 | a step of the protocol: closing through one handle closes the locker for every other |
| Claims.Openings.IsOpen | src/bank.rs:1923-1929 | a step of the protocol: a name counts as open exactly when its registered locker is unclosed and held |
| Limits.TotalExactly | src/locker/lru.rs:434-452 | the total before eviction is the sum of the surviving accounts exactly when nothing sized is removed twice, or nothing is left, or an update passes a point where nothing else is accounted |
| Limits.DoubleDeleteMiscounts | src/locker/resident.rs:687-690 | a sized key deleted twice in one batch is always miscounted while anything else is left |
| Limits.EvictOverStagedPut | src/locker/resident.rs:414-418 | evicting a key with a staged overwrite unlists it while get still answers it |
| Limits.EvictOverStagedPutHappens | src/locker/resident.rs:429-457 | such a locker and call exist |
| Limits.PublishUnderStagedDelete | src/locker/io.rs:139-143 | publishing under a staged delete lists a key get does not find |
| Limits.LostPieceHappens | src/locker/io.rs:91-111 | starting a writer, feeding it and failing to flush are steps of the engine, and the old record can then be looked at |
| Limits.PublishAfterLostPiece | src/locker/io.rs:102-127 | finished after that, the writer publishes a record no get can read |
| Limits.OverLimitPutSticks | src/locker/inner.rs:495-500 | a chunked put over the limit lands; the record then answers no get, stops every later put and delete of the key, and loses its chunks to a clear |
| Limits.ClearOwnedExactly | src/locker/inner.rs:549-559 | a clear keeps chunk ownership exactly when no pointer it passes over has chunks |
| Limits.PutBetweenLookAndPublish | src/locker/io.rs:121-138 | from any reachable state, a chunked put landing between a writer's look and its publish is left without an owner |
| Limits.DeleteOwnedExactly | src/locker/inner.rs:516-527 | committing a delete built from an earlier read keeps chunk ownership exactly when the key still points where it was found to point, or at no chunks |
| Limits.EagerWriteKeepsOwnershipExactly | src/locker/eager.rs:251-256 | an eager put or delete keeps chunk ownership exactly when the record it replaces points at no chunk |
| Limits.EagerClearKeepsOwnershipExactly | src/locker/eager.rs:510 | an eager clear keeps chunk ownership exactly when no pointer of the locker has chunks |

## Left out

- Disk formats and platforms other than the memory backend (redb, IndexedDB, file locks, fsync, durability levels): `src/backend/memory.rs` is the reference semantics.
- Asynchrony, lock poisoning and type erasure: a call that holds a locker's write lock reads, commits and updates its resident state in one step; reads on the page boundary of a walk see one state.
- A publish takes no lock. Its read and its commit are two steps here; its commit and the index entry that follows are one, and it never lands inside another call's step. `Limits.DeleteOwnedExactly` says what a call whose read has gone stale does to chunk ownership.
- The value encoding (postcard), LZ4 and CRC arithmetic: a payload is the encoded value, and the codecs are functions with an inverse law.
- A value stored inline over 256 MiB, which takes a chunk size above that: the runs leave it out, as their values are bounded; `Codec.DefaultChainExact` says which payloads open.
- `ReadChunks` assumes the 32-bit chunk sequence space is not exhausted, as it would take a payload of four thousand million chunks.
- Damaged bytes in stored pointers, `verify`, `quarantine`, `delete_locker`, closing a locker and `flush_all`: easy members or repairs outside the engine's invariants.
- An index that is not authoritative (two banks over one backend, maintenance lockers): the locker then always reads first, which is the `Unknown` case.
- The `raw_*` bank functions and `BankHandle`, which bypass index and chunks.
- Reading values of an eager locker at open with its memory limit, and its transactions' event filtering.
- Events a locker broadcasts after each call: the fan-out itself is modelled.
- Configuration conflicts and value-type tags on a shared open: they refuse a handle, they never hand out another.
- Engine.LazyLocker.BudgetFor: plans over accounts that are not dirty; `Engine.LazyLocker.ReloadIfDirty`, which comes first where another tab's news left them so, is proved on its own.
- Bytewise.RunRepresents: takes as given that ids, ticks, counts and locker ids of the ops fit the widths they are stored in; the allocators refuse to pass 64 bits.
- EagerCoherence.Converges: assumes one remote writer whose commits do not overlap and whose news arrives in order, which is all the design orders.
- EagerCommits.AlwaysCovered: another tab's commit and the hearing of its news are one event; between the two no delete of this tab can know of the record.
- Watching.FanOutConserves: stops at 2^64 - 1 events, where the skip counter saturates.
- ValueIdCursor.NeverReissued: says nothing of values without chunks, whose ids no chunk carries; `HollowSafeExactly` does.
- LruAccounts.Accounts.PendingOps: carries the 64 first deferred ticks in key order, so a tick persisted later may be older than one persisted earlier, as in the source; `Recency.CommitWritesDown` says exactly when that overwrites a fresher one.
- Recency.AlwaysAhead: covers the accounts of lockers that hear no other tab; a remote put's tick is one past the accounts it joins, which the bank's clock may not have reached yet (src/locker/lru.rs:334-353).
- Claims.Openings.Check: a handle, once given, is kept or dropped whole; what a shared open may refuse afterwards (a differing configuration or type) is a drop.
