# Krabb: verified models

Krabb is an agent host: a daemon with persistent sessions, plugin processes and a scheduler. This
project models the parts of it whose correctness is hard to see, and proves what they promise.

- **Crash-safe files.** `JournaledSave` is the save and recovery protocol as a sequence of primitive file
  operations, with a crash or a failure possible after each. `JsonlAppend` is the append that repairs a torn
  tail. `Catalog` is the session catalog built on atomic saves: records named by the digest of their content,
  and indexes.
- **The session store.** `StoreModel` gives every operation as a step of a state machine, `Store` performs the
  steps in place and puts everything back when a save fails, `StoreInvariants` and `StoreRuns` prove what every
  step and every run keeps. `Compaction` bounds histories, `ModelContext` is what the model sees of them,
  `StoreEffects` says what each
  operation changes and that it changes nothing else. `LoadRecovery` is what a restart does to interrupted work, `ChannelEvents` is what the store knows of the events its
  channels deliver.
- **Time.** `Calendar` is the civil date conversion, `CronField`, `Cron` and `CronWindow` parse cron texts and
  search for the next occurrence; the size of the search window rests on the calendar.
- **The plugin protocol.** `RequestServer` serves requests with a bounded number of workers and `Demux` hands
  host replies and stream events to the calls that wait for them, both under every interleaving.
- **Smaller refinements.** `SeccompFilter` (a filter program and its interpreter), `EventStream` (events out of
  chunks, by `Splitting`), `TranscriptBatches`, `MemoryStore`, `MemoryListing` and `MemorySaturation`. `Wrappers`,
  `Integers`, `Text`, `Sequences`, `Sorting`, `Ages` and `Messages` are shared.

Where the program works in place, the model is a class or a loop proved against a function of the old state;
the promises are lemmas about that function. Clocks, the outcome of each save, the point of a crash, JSON
encoding and SHA-256 are inputs. A `now` is read once for an operation, although the program may read the clock
more than once.

## Where the program does not keep its promise

Each of these has an input for which it fails and the exact condition under which it does not.

- A crash during the rewrite of the journal, after the old file was moved away, loses the file: recovery
  deletes a journal it cannot parse (`JournaledSave.OldOrNew`).
- A journal left over from an earlier save can bring back content that is neither old nor new
  (`JournaledSave.LeftoverJournalLoses`). Among any leftover journals, a save ends old or new if and only if
  something is at the path or the first content that recovery puts back is one of the two
  (`JournaledSave.OldOrNewAmongLeftovers`).
- `save_catalog` writes delivery records of any size, `load_catalog` refuses those above 32 MiB. A catalog that
  was saved is accepted exactly when all its delivery records fit (`Catalog.Files.Save`, `Catalog.WroteLists`;
  `Catalog.SavableExample` has both cases).
- The search for a message group to remove runs forever exactly when the protected message is the first of two
  orphaned tool results (`Compaction.ScanEndsUnlessStalled`, `Compaction.StallingScan`).
- Loading is idempotent unless a recovered turn joins a full queue; the second load drops that turn again
  (`LoadRecovery.LoadIdempotent`, `LoadRecovery.FullQueueLosesTurn`). One step leads there
  (`LoadRecovery.FullQueueReachable`).
- A load keeps the store's invariant unless a recovered turn meets a full queue or a message queued meanwhile
  under its ID (`LoadRecovery.LoadKeepsInvariant`). Three operations lead there
  (`LoadRecovery.CollisionReachable`).
- A compacted context set on a session without messages is never shown (`ModelContext.SetContextShown`), and
  a context is given up exactly when compaction leaves no message with the ID it reaches up to
  (`ModelContext.ContextAfterAppend`).
- With the clock saturated the memory just written can be the one that is evicted
  (`MemoryStore.WrittenEvicted`, `MemorySaturation.WrittenEvictedReachable`).

## Model

| member | source | states |
|---|---|---|
| `Calendar.CivilExact` | krabb-libs/date/src/lib.rs:219-250 | for every day since 0000-03-01 the era arithmetic yields a valid Gregorian date whose naive day count is the input |
| `Calendar.YearWithinEraExact` | krabb-libs/date/src/lib.rs:235-242 | the corrected quotient names the year of the era that contains the day, including the last day of a leap era |
| `Calendar.CivilOfDayNumber` | krabb-libs/date/src/lib.rs:219-233 | the conversion undoes the day count, so it is one to one |
| `Calendar.CivilSuccessor` | krabb-libs/date/src/lib.rs:219-233 | consecutive days map to calendar successors |
| `Calendar.DateOrder` | krabb-libs/date/src/lib.rs:219-233 | dates compare by year, month and day exactly as their day numbers do |
| `Calendar.FormattedTimestampsSort` | krabb-libs/date/src/lib.rs:145-169 | up to year 9999 formatted dates and timestamps sort as text in time order, in both directions |
| `CronField.ParseField` | krabb-plugins/scheduler/src/cron.rs:85-131 | succeeds exactly when every item parses; the field is then the only ascending, duplicate-free, non-empty sequence of what the items denote; otherwise the error is that of the first item that does not parse |
| `CronField.FieldMeaningUnique` | krabb-plugins/scheduler/src/cron.rs:85-131 | a text denotes at most one field |
| `CronField.StepByElements` | krabb-plugins/scheduler/src/cron.rs:117-121 | a stepped range lists exactly the values from first to last that a whole number of steps reaches |
| `CronField.WildcardListsAll` | krabb-plugins/scheduler/src/cron.rs:71-79 | a field that counts as a wildcard lists its whole range |
| `CronField.ItemMeaning` | krabb-plugins/scheduler/src/cron.rs:85-121 | a written item, be it `*`, `a`, `a-b`, each with or without `/n`, lists exactly the values from its start to its end that whole steps reach, where the range lies within the field; a single value with a step goes on to the maximum |
| `CronField.NumberReadBack` | krabb-plugins/scheduler/src/cron.rs:100-113 | reading a number undoes writing it, up to the last 32-bit number |
| `CronField.SplitMeaning` | krabb-plugins/scheduler/src/cron.rs:85-88 | the items of a field hold no comma, and joined by commas they are the field |
| `CronField.WildcardMeaning` | krabb-plugins/scheduler/src/cron.rs:71-79 | only a star alone, or with a step of one, counts as a wildcard |
| `Cron.Parse` | krabb-plugins/scheduler/src/cron.rs:17-41 | accepts exactly the texts that mean a schedule, and returns that schedule; schedules are sorted, non-empty and in range |
| `Cron.WordsJoin` | krabb-plugins/scheduler/src/cron.rs:17-22 | white space between two texts keeps their fields apart and in order; a word alone is one field (`WordAlone`) |
| `Cron.MinutesUntilNext` | krabb-plugins/scheduler/src/cron.rs:60-69 | the least positive step, at most 60, from a minute of the hour into the listed minutes |
| `Cron.FixedOffset` | krabb-plugins/scheduler/src/cron.rs:133-165 | an accepted offset is a whole number of minutes within a day; what it means is `ZoneReadBack` |
| `Cron.ZoneReadBack` | krabb-plugins/scheduler/src/cron.rs:133-159 | `+HH:MM` reads as that many hours and minutes ahead of UTC and `-HH:MM` as behind, up to 23:59; anything above is refused |
| `Cron.LocalClock` | krabb-plugins/scheduler/src/cron.rs:189-198 | the local date, hour and minute name the moment that is UTC plus the offset, and the weekday counts from a Thursday on 1970-01-01 |
| `Cron.SkipIsSafe` | krabb-plugins/scheduler/src/cron.rs:202-206 | stepping by `minutes_until_next` passes over no matching minute |
| `Cron.StartExists` | krabb-plugins/scheduler/src/cron.rs:174-178 | the search starts at the next whole minute for every time the clock can go on from, and for no other |
| `Cron.StartFollows` | krabb-plugins/scheduler/src/cron.rs:174-178 | the search starts at the first whole minute after the given time, before which nothing matches |
| `Cron.Search` | krabb-plugins/scheduler/src/cron.rs:171-209 | returns the least whole minute after the given time that matches; an error proves that the window, or what the clock supports of it, holds no match |
| `CronWindow.MatchingDayAhead` | krabb-plugins/scheduler/src/cron.rs:43-58 | a schedule that is not impossible matches some day within 2921 days, across a skipped leap day |
| `CronWindow.WindowSuffices` | krabb-plugins/scheduler/src/cron.rs:171-209 | the window of 8 x 366 days holds no match exactly when the weekday is a wildcard, the day is not, and no listed day exists in a listed month; then nothing ever matches |
| `CronWindow.Next` | krabb-plugins/scheduler/src/cron.rs:171-209 | from text to time: the result is the next match of the only schedule the text means, by a clock that is ahead of UTC by the written offset, and within the supported range it fails exactly on impossible schedules |
| `JournaledSave.SaveCrash` | krabb-libs/file/src/lib.rs:71-121 | what recovery makes of every crash point of a save: the commit point is the `backed_up` journal write when a file existed, else the rename |
| `JournaledSave.SaveFailure` | krabb-libs/file/src/lib.rs:124-129 | the same for a step that fails, after which the temporary file is removed |
| `JournaledSave.RecoverCrash` | krabb-libs/file/src/lib.rs:238-309 | from any state, a recovery that stops anywhere leaves a state with the same outcome |
| `JournaledSave.RecoverIdempotent` | krabb-libs/file/src/lib.rs:238-309 | recovering twice is recovering once, and no journal is left |
| `JournaledSave.RecoveriesAgree` | krabb-libs/file/src/lib.rs:238-309 | any number of interrupted recoveries leaves the outcome as it was |
| `JournaledSave.OldOrNew` | krabb-libs/file/src/lib.rs:71-130 | crash or failure anywhere in a save, any interrupted recoveries, then a complete one: exactly the old or the new content, divided at the commit point, if and only if the journal was not torn while the file was away |
| `JournaledSave.RecoverListing` | krabb-libs/file/src/lib.rs:238-309 | recovering a directory with one journal, in any listing order, recovers that journal |
| `JournaledSave.RecoverAnyListing` | krabb-libs/file/src/lib.rs:238-309 | whatever journals a directory holds, recovering any listing of them leaves what is at the path, or else the first content that one of them puts back |
| `JournaledSave.BackMeaning` | krabb-libs/file/src/lib.rs:275-297 | a `backed_up` journal puts back its new file or else its backup, a `prepared` or `installed` one its backup, a torn one nothing |
| `JournaledSave.OldOrNewAmongLeftovers` | krabb-libs/file/src/lib.rs:71-130 | crash or failure anywhere in a save among any leftover journals, then the recovery of any listing: old or new content if and only if something is at the path or the first content put back is one of the two |
| `JournaledSave.LeftoverJournalLoses` | krabb-libs/file/src/lib.rs:238-309 | a leftover journal and a second crashed save for which the condition below fails: recovery leaves content that is neither old nor new |
| `JournaledSave.SaveLeaves` | krabb-libs/file/src/lib.rs:93-121 | a completed save leaves the new content, no temporary file and no journal, and a backup only if its removal failed |
| `JournaledSave.RoundOutcome` | krabb-libs/file/src/lib.rs:71-309 | a save that finds no journal, and completes or is interrupted and then recovered, leaves none; it leaves old or new content if and only if it did not stop at the torn journal, and the new one if it completed |
| `JournaledSave.RunOldOrNew` | krabb-libs/file/src/lib.rs:71-309 | over any run of such saves the path holds what the last completed save wrote or what a later one tried to write, and every save starts without a journal |
| `JournaledSave.SavePrimitives` | krabb-libs/file/src/lib.rs:80-121 | between two states a save passes through lies one atomic file operation: a file grows, the journal is truncated or written, a file is renamed or removed |
| `JournaledSave.RecoverPrimitives` | krabb-libs/file/src/lib.rs:259-305 | the same for the recovery of a journal |
| `JournaledSave.FailedRemovals` | krabb-libs/file/src/lib.rs:259-305 | where something is at the path, a recovery leaves exactly the files whose removal failed |
| `JournaledSave.RecoveredLeaves` | krabb-libs/file/src/lib.rs:275-305 | a complete recovery leaves of a transaction nothing but the path, and of a torn journal everything but the journal |
| `JournaledSave.Directory.Save` | krabb-libs/file/src/lib.rs:71-130 | on the three maps of named files, with a fault at any operation, a save passes through exactly the states of the protocol and leaves all other transactions alone; when it succeeds the new content is at the path and neither journal nor temporary file is left |
| `JournaledSave.Directory.RecoverOne` | krabb-libs/file/src/lib.rs:259-305 | the recovery of one journal passes through exactly the states of the protocol |
| `JournaledSave.Directory.Recover` | krabb-libs/file/src/lib.rs:238-309 | a complete recovery leaves at the path what the protocol says, and no journal |
| `JournaledSave.Directory.WriteJournal` | krabb-libs/file/src/lib.rs:382-392 | a journal write truncates first, so a stop in between leaves a torn journal |
| `JsonlAppend.LinesConcat` | krabb-libs/file/src/lib.rs:192-231 | complete lines and tail are the file, byte for byte |
| `JsonlAppend.AppendedLines` | krabb-libs/file/src/lib.rs:192-236 | after repair and append: all complete lines unchanged, the tail as a line if it was valid JSON, then the record |
| `JsonlAppend.CrashKeepsLines` | krabb-libs/file/src/lib.rs:217-236 | a crash anywhere in an append loses no complete line |
| `JsonlAppend.RunKeepsLines` | krabb-libs/file/src/lib.rs:159-236 | over any run of appends and crashes complete lines stay, unchanged and in place |
| `JsonlAppend.RunHasRecord` | krabb-libs/file/src/lib.rs:159-236 | over any run, a record whose append was not cut short is in the file, whatever crashed after it |
| `JsonlAppend.TornRecordHeals` | krabb-libs/file/src/lib.rs:192-231 | a torn record is gone after the next append, unless its fragment is itself valid JSON |
| `JsonlAppend.LastNewline` | krabb-libs/file/src/lib.rs:209-212 | the last newline of a chunk, if it has one |
| `JsonlAppend.File.FindTail` | krabb-libs/file/src/lib.rs:192-215 | the backward scan in chunks of 8192 bytes finds the position after the last newline |
| `JsonlAppend.File.AppendJsonl` | krabb-libs/file/src/lib.rs:159-236 | refuses a record without a final newline and changes nothing; otherwise the file is the repaired content and the record, and ends in a newline |
| `Compaction.CompactionMeaning` | krabb-runtime/src/state.rs:22-28 | the result is the System messages of a prefix and the untouched rest, cut at the earliest group boundary that reaches 100, or with only System messages left |
| `Compaction.CompactionSettles` | krabb-runtime/src/state.rs:22-28 | compaction is idempotent, and stops only within the limit or with nothing to remove |
| `Compaction.CompactionKeepsNoOrphans` | krabb-runtime/src/state.rs:22-28 | if every tool result had its assistant message before, it has it after |
| `Compaction.TargetIsGroup` | krabb-runtime/src/state.rs:30-74 | what is removed lies between two group boundaries and holds no System message |
| `Compaction.RemovalKeepsProtected` | krabb-runtime/src/state.rs:30-50 | a removal shortens the history and never takes the protected message |
| `Compaction.RemovalKeepsNoOrphans` | krabb-runtime/src/state.rs:30-50 | no removal takes the assistant message from a tool result |
| `Compaction.ScanEndsUnlessStalled` | krabb-runtime/src/state.rs:30-50 | the scan for a group ends if and only if the protected message is not the first of two orphaned tool results |
| `Compaction.StallingScan` | krabb-runtime/src/state.rs:30-50 | in such a history the scan stays at the second tool result forever |
| `Compaction.NoOrphansNoStall` | krabb-runtime/src/state.rs:30-50 | without orphaned tool results the scan always ends |
| `Compaction.History.MessageGroup` | krabb-runtime/src/state.rs:52-74 | the loops find the group of a message: an assistant message with the tool results behind it |
| `Compaction.History.RemoveOldestMessageGroup` | krabb-runtime/src/state.rs:30-50 | removes the first group that is not protected, or reports that there is none |
| `Compaction.History.CompactMessages` | krabb-runtime/src/state.rs:22-28 | compacts in place to the history that `CompactionMeaning` describes |
| `ModelContext.ContextAfterAppend` | krabb-runtime/src/ipc.rs:566-582 | for every history and message: after an append the model sees the context and what compaction leaves behind the last message with the ID it reaches up to, or the shortened history alone when compaction leaves none |
| `ModelContext.ContextLivesOn` | krabb-runtime/src/ipc.rs:566-582 | while compaction stays in front of the message a context reaches up to, the context grows by the new message; past it the context stays for a System message and is given up when no System message bears the ID |
| `ModelContext.SetContextShown` | krabb-runtime/src/state.rs:746-776 | a context that is set is what the model sees, exactly unless the session had no messages |
| `ModelContext.ContextMeaning` | krabb-runtime/src/ipc.rs:566-582 | the model sees the history without a context, or when no message has the ID it reaches up to; else the context and what is behind the last message with that ID |
| `ModelContext.CompactionBoundary` | krabb-runtime/src/ipc.rs:595-604 | the boundary is the User message behind which exactly two turns begin, and exists exactly when there are more |
| `ModelContext.NewContext` | krabb-runtime/src/ipc.rs:534-561 | summary and retained turns leave no tool result without its call, and are not compacted again before another turn |
| `StoreInvariants.StepKeeps` | krabb-runtime/src/state.rs:382-1884 | every operation keeps: a turn in flight excludes an owner; owner and deadline come together and imply `working`; queue IDs distinct and at most 100, roles name queued messages; outbox IDs distinct and at most 100; 100 user and 1000 scheduled sessions, told apart by their IDs; at most 10 000 seen events; deferred events of a channel between one and 100, with distinct IDs |
| `StoreInvariants.RunKeeps` | krabb-runtime/src/state.rs:382-1884 | the same over every run from the empty store, whichever saves fail |
| `StoreRuns.OwnerOrigin` | krabb-runtime/src/state.rs:1295-1318 | whoever owns a session after a step owned it before, or this step reserved it while it was free |
| `StoreRuns.OwnerNotReplaced` | krabb-runtime/src/state.rs:1261-1372 | no step replaces one owner by another |
| `StoreRuns.BeginNeedsFreeSession` | krabb-runtime/src/state.rs:946-1015 | no begin succeeds while a turn is in flight or an unexpired reservation is held; afterwards the message is in flight and off the queue |
| `StoreRuns.StrangerRefused` | krabb-runtime/src/state.rs:723-776 | an owner-checked call by somebody who owns nothing fails and changes nothing |
| `StoreRuns.SupersededOwnerFails` | krabb-runtime/src/state.rs:1348-1372 | over every run with fresh tokens, once an owner has lost its session every owner-checked call of it fails and changes nothing |
| `StoreRuns.QueueChanges` | krabb-runtime/src/state.rs:841-1056 | a queue changes only by appending a new ID, by the removal of one begun message, or by being cleared on cancellation |
| `StoreRuns.QueueMovesWithRename` | krabb-runtime/src/state.rs:548-611 | renaming moves queue and roles along and leaves every other session |
| `StoreRuns.PendingOrigin` | krabb-runtime/src/state.rs:1698-1718 | a delivery becomes pending only when created, retried from uncertain, or completed from a pending or streaming stream |
| `StoreRuns.DeliveryKept` | krabb-runtime/src/state.rs:1657-1747 | a delivery leaves the outbox only by acknowledgement, into the dead letters, or by a purge |
| `StoreRuns.AcknowledgedAlwaysWait` | krabb-runtime/src/state.rs:1778-1884 | over every run, an event that is acknowledged as deferred is one that waits in its channel |
| `StoreEffects.SessionsNamed` | krabb-runtime/src/state.rs:382-1884 | an operation adds exactly the session it creates, forks or renames to, which was not there, and removes exactly the one it removes or renames, or all in a purge |
| `StoreEffects.AcceptedExactly` | krabb-runtime/src/state.rs:382-1747 | an operation changes the store if and only if what it names is there, or is not yet, the caller holds what it uses, and there is room |
| `StoreEffects.NotFoundWhenMissing` | krabb-runtime/src/state.rs:382-1747 | an operation reports a missing session or delivery if and only if that is what stands in its way |
| `StoreEffects.OthersStay` | krabb-runtime/src/state.rs:382-1884 | every session that an operation neither names nor addresses, and whose reservation it does not recover, stays as it was |
| `StoreEffects.SessionStays` | krabb-runtime/src/state.rs:548-1655 | over every run a session stays until it is removed or renamed by its own ID, or all are purged |
| `StoreEffects.CreatedSession` | krabb-runtime/src/state.rs:390-474 | a created session is at rest, without history, and private |
| `StoreEffects.ForkedSession` | krabb-runtime/src/state.rs:1458-1544 | a fork has the relabelled history and context of its source, its channel and privacy, and nothing of what the source is doing |
| `StoreEffects.RenamedSession` | krabb-runtime/src/state.rs:548-611 | a rename takes everything along, relabels history and queue, and needs a session without turn, reservation or channel |
| `StoreEffects.ReleasedSession` | krabb-runtime/src/state.rs:1320-1346 | an overdue reservation ends, and nothing else of its session changes but the time |
| `StoreEffects.SessionEffects` | krabb-runtime/src/state.rs:657-1372 | for every operation on a session and each of its fields: history, context, turn and its roles, queue and its roles, stream and phase, status, owner and deadline, and time change exactly by the operations that are there for it, and to what those were given |
| `StoreEffects.LeaseLasts` | krabb-runtime/src/state.rs:1295-1372 | a reservation that was made, renewed or used by its owner is alive for exactly the next two minutes |
| `StoreEffects.QueuedRolesAreUsed` | krabb-runtime/src/state.rs:841-1015 | over every run, a message queued with roles and begun without any runs with the roles it was queued with |
| `StoreEffects.MarkedDelivery` | krabb-runtime/src/state.rs:1657-1747 | an update changes the one delivery it names: its status, its text only while streaming, its message ID only once sent, an error only with uncertainty; route and age stay |
| `StoreEffects.QueuedDelivery` | krabb-runtime/src/state.rs:682-721 | a queued delivery is the last of the outbox, pending, with its own text and route, unless its ID is there already |
| `StoreEffects.ReplyDelivery` | krabb-runtime/src/state.rs:1058-1157 | a reply becomes a new pending delivery to the chat it was asked from, or completes the stream of this very turn with its text, pending again unless it may have been sent; any other delivery stays |
| `StoreEffects.StreamedDelivery` | krabb-runtime/src/state.rs:1159-1225 | a stream starts as the last delivery of the outbox, being sent, during a turn |
| `StoreEffects.ClearedDelivery` | krabb-runtime/src/state.rs:1017-1056 | clearing a turn leaves its stream uncertain if that was under way, and every other delivery as it was |
| `StoreEffects.BuriedDelivery` | krabb-runtime/src/state.rs:1720-1747 | a dead delivery is the last of the dead letters, as it was, behind the most recent ones |
| `StoreEffects.BegunEvents` | krabb-runtime/src/state.rs:972-986 | beginning a message that its channel had deferred takes exactly it out of what waits there, with its acknowledgement |
| `StoreEffects.DeferredEvent` | krabb-runtime/src/state.rs:1790-1832 | an event is deferred exactly when it fits, does not wait already and its channel has fewer than a hundred; it then waits last, and nothing else changes |
| `StoreEffects.CommittedEvent` | krabb-runtime/src/state.rs:1834-1884 | a commit is always made, and touches nothing but its event, its channel and what is forgotten of the oldest seen ones |
| `StoreEffects.AcknowledgedEvent` | krabb-runtime/src/state.rs:1778-1788 | exactly a waiting event is acknowledged, once, and nothing else changes |
| `StoreEffects.PurgedStore` | krabb-runtime/src/state.rs:1617-1655 | a purge takes all sessions, or all deliveries with the dead letters, or both, and nothing else |
| `StoreEffects.DeadStay` | krabb-runtime/src/state.rs:1657-1747 | nothing else changes the dead letters but a purge |
| `Store.Store.Save` | krabb-runtime/src/state.rs:1886-1911 | a failed save puts back sessions, outbox, dead letters and channel events |
| `Store.Store.Create` | krabb-runtime/src/state.rs:390-474 | performs the step `Create`; afterwards the session is there, idle, with an empty queue, and scheduled exactly if its ID says so |
| `Store.Store.EnsureSchedule` | krabb-runtime/src/state.rs:490-534 | when all 1000 slots are taken the scheduled session idle longest, never a busy one, makes room |
| `Store.Store.Rename` | krabb-runtime/src/state.rs:548-611 | performs the step `Rename`, relabelling in place; afterwards exactly the target stands for the source, and no session was overwritten |
| `Store.Store.Push` | krabb-runtime/src/state.rs:657-663 | performs the step `Push`; afterwards the history is the compacted one with the message, and the queue is untouched |
| `Store.Store.AppendNotice` | krabb-runtime/src/state.rs:665-680 | performs the step `AppendNotice`; afterwards nothing but history and time changed |
| `Store.Store.QueueDelivery` | krabb-runtime/src/state.rs:682-721 | performs the step `QueueDelivery`; afterwards the delivery is in the outbox, which is within its limit |
| `Store.Store.AppendReserved` | krabb-runtime/src/state.rs:723-744 | performs the step `AppendReserved`; succeeds only for the owner, who still holds the session |
| `Store.Store.SetContextReserved` | krabb-runtime/src/state.rs:746-776 | performs the step `SetContextReserved`; succeeds only for the owner, who still holds the session, and sets the context |
| `Store.Store.PushWithStatus` | krabb-runtime/src/state.rs:778-815 | appends, compacts, and keeps, extends or ends the reservation as asked |
| `Store.Store.ClearHistory` | krabb-runtime/src/state.rs:817-834 | performs the step `ClearHistory`; afterwards the history is empty, queue and turn untouched |
| `Store.Store.Queue` | krabb-runtime/src/state.rs:841-892 | performs the step `Queue`; afterwards the message is queued, whether it was before or not, and the turn in flight is untouched |
| `Store.Store.Begin` | krabb-runtime/src/state.rs:946-1015 | performs the step `Begin`; succeeds only without turn or live reservation, afterwards the message is in flight without an owner, and no longer deferred by its channel |
| `Store.Store.Clear` | krabb-runtime/src/state.rs:1017-1056 | performs the step `Clear`, which leaves an unfinished stream uncertain; afterwards no turn and no owner is left |
| `Store.Store.Reply` | krabb-runtime/src/state.rs:1058-1157 | performs the step `Reply`; afterwards the turn is over, the session idle and the delivery in the outbox |
| `Store.Store.StartStream` | krabb-runtime/src/state.rs:1159-1225 | performs the step `StartStream`; afterwards the turn is unsafe to repeat and its new delivery is in the outbox, within its limit |
| `Store.Store.SetStatus` | krabb-runtime/src/state.rs:1261-1293 | performs the step `SetStatus`; afterwards the status is set or a busy session is as it was, and the turn in flight is untouched |
| `Store.Store.Reserve` | krabb-runtime/src/state.rs:1295-1318 | performs the step `Reserve`; succeeds only on a session that is not busy, which the owner then holds |
| `Store.Store.RecoverReservations` | krabb-runtime/src/state.rs:1320-1346 | performs the step `RecoverReservations`; afterwards no reservation is overdue and every turn in flight is untouched |
| `Store.Store.Renew` | krabb-runtime/src/state.rs:1348-1372 | performs the step `Renew`; succeeds only for the owner, who still holds the session |
| `Store.Store.Fork` | krabb-runtime/src/state.rs:1458-1544 | performs the step `Fork`; afterwards one new session, not busy, has the source's history under its own ID |
| `Store.Store.Cancel` | krabb-runtime/src/state.rs:1546-1550 | cancelling empties the queue, drops a reservation, and keeps a turn in flight until it ends itself |
| `Store.Store.SetPhase` | krabb-runtime/src/state.rs:1552-1580 | performs the step `SetPhase`; succeeds only with a turn in flight or a live reservation |
| `Store.Store.Remove` | krabb-runtime/src/state.rs:1582-1604 | performs the step `Remove`; succeeds only on a session that is not busy, which is gone then, and leaves the outbox |
| `Store.Store.Purge` | krabb-runtime/src/state.rs:1617-1655 | performs the step `Purge`, and reports exactly the sessions and how many deliveries are gone |
| `Store.Store.Ack` | krabb-runtime/src/state.rs:1657-1665 | performs the step `Ack`; afterwards the delivery is not in the outbox |
| `Store.Store.RetryDelivery` | krabb-runtime/src/state.rs:1698-1718 | performs the step `RetryDelivery`; succeeds only for an uncertain delivery, which is pending then |
| `Store.Store.DropDelivery` | krabb-runtime/src/state.rs:1720-1729 | a delivery that is dropped must be there |
| `Store.Store.Dead` | krabb-runtime/src/state.rs:1731-1746 | performs the step `Dead`, keeping the last hundred dead letters; afterwards the delivery is not in the outbox |
| `Store.Store.UpdateDelivery` | krabb-runtime/src/state.rs:1913-1930 | what the marks of a delivery share: it must be there, and only it changes |
| `Store.Store.DeferEvent` | krabb-runtime/src/state.rs:1790-1832 | performs the step `Defer`; afterwards an event with the ID waits in the channel, at most a hundred do |
| `Store.Store.AcknowledgeEvent` | krabb-runtime/src/state.rs:1778-1788 | performs the step `Acknowledge`; afterwards an event that waits is acknowledged |
| `Store.Store.CommitEvent` | krabb-runtime/src/state.rs:1847-1884 | performs the step `Commit`; afterwards the event is known, at most 10 000 are, and unless it is retained it waits no longer |
| `LoadRecovery.RecoveredTurn` | krabb-runtime/src/state.rs:276-296 | no turn stays in flight; its message is at the head of the queue with its roles exactly when the phase is safe and the status is not cancelled |
| `LoadRecovery.ReservationSurvives` | krabb-runtime/src/state.rs:272-276 | a reservation with a deadline survives a load with its owner |
| `LoadRecovery.RecoveredKeeps` | krabb-runtime/src/state.rs:253-296 | a recovery keeps identity, time and context, and compacts the history |
| `LoadRecovery.RecoveredState` | krabb-runtime/src/state.rs:253-296 | a turn or a claim without a deadline is interrupted, with its stream and its reservation; otherwise status, stream, phase and reservation stay |
| `LoadRecovery.RecoveredQueue` | krabb-runtime/src/state.rs:253-296 | without a turn the last hundred messages stay queued, and every queued message but that of the turn keeps its roles |
| `LoadRecovery.RecoveredSettles` | krabb-runtime/src/state.rs:253-296 | recovering a session twice is recovering it once, if and only if its turn did not join a full queue |
| `LoadRecovery.FullQueueLosesTurn` | krabb-runtime/src/state.rs:264-288 | otherwise the second load drops the recovered turn |
| `LoadRecovery.FullQueueReachable` | krabb-runtime/src/state.rs:946-1015 | one begin on an idle session with a full queue leads there |
| `LoadRecovery.DeliveriesSettled` | krabb-runtime/src/state.rs:299-311 | after a load no delivery is being sent, and exactly those are pending that were pending |
| `LoadRecovery.DiscardedAreOldest` | krabb-runtime/src/state.rs:313-332 | a load discards sessions only for newer ones of their kind |
| `LoadRecovery.LoadBounds` | krabb-runtime/src/state.rs:245-351 | after a load no turn is in flight, nothing is being sent, and every limit holds, those of offsets and seen events included, except that a queue may hold a hundred messages and the recovered turn |
| `LoadRecovery.LoadIdempotent` | krabb-runtime/src/state.rs:245-351 | loading what was loaded changes nothing, channel events included, if and only if no kept turn joined a full queue (and no kept delivery was stopped at time zero) |
| `LoadRecovery.LoadKeepsInvariant` | krabb-runtime/src/state.rs:245-351 | a load keeps the store's invariant if and only if no recovered turn meets a full queue or a queued message with its ID |
| `LoadRecovery.ReusedIdCollides` | krabb-runtime/src/state.rs:841-892 | queueing a message under the ID of the turn in flight leads to such a meeting |
| `LoadRecovery.CollisionReachable` | krabb-runtime/src/state.rs:841-1015 | three operations on the empty store lead to such a meeting |
| `LoadRecovery.EventsBound` | krabb-runtime/src/state.rs:342-351 | loading trims offsets and seen events to their limits, keeps the youngest seen ones, and leaves deferred events |
| `LoadRecovery.Loader.Load` | krabb-runtime/src/state.rs:245-359 | accepts exactly the stores whose sessions are all acceptable, loads sessions, deliveries and channel events as above, and rewrites the file exactly when a history shrank, a delivery changed or a session went |
| `ChannelEvents.TrimmedMeaning` | krabb-runtime/src/state.rs:1944-1964 | trimming leaves exactly the limit, always the entry to keep, and drops nothing younger than anything else that stays |
| `ChannelEvents.CommitMeaning` | krabb-runtime/src/state.rs:1847-1884 | after a commit the event is known, at most 10 000 are, no offset went back, every other channel waits as before, and its own channel lost exactly the events with the ID, unless retained |
| `ChannelEvents.CommitOffsets` | krabb-runtime/src/state.rs:1847-1884 | after a commit the channel is read up to the greater of both offsets, and the others as far as before |
| `ChannelEvents.CommitTimes` | krabb-runtime/src/state.rs:1847-1884 | after a commit the event was seen now, every other known one when it was, and only a retained event stays acknowledged |
| `ChannelEvents.ClearedWait` | krabb-runtime/src/state.rs:972-986 | dropping a deferred event with its acknowledgement leaves every other acknowledged event waiting |
| `ChannelEvents.BoundedSize` | krabb-runtime/src/state.rs:342-349 | loading leaves at most a hundred channel offsets |
| `Catalog.HoldsOnce` | krabb-runtime/src/state.rs:2275-2374 | a catalog on disk says one thing |
| `Catalog.WriteKeeps` | krabb-runtime/src/state.rs:2420-2421 | writing a record leaves every record that bears its digest as it was, readable or not, where no two contents on disk or written share a digest |
| `Catalog.WroteLists` | krabb-runtime/src/state.rs:2437-2457 | deliveries that were written can be read back if and only if each record fits the reader's limit |
| `Catalog.SavableExample` | krabb-runtime/src/state.rs:2399-2463 | what a save takes for granted of its encoding and digest can be met: a catalog on disk and new content with a delivery record of any size, below or above the limit |
| `Catalog.OtherSessionsRecord` | krabb-runtime/src/state.rs:2512-2550 | the record of a session outside the catalog is named by no entry |
| `Catalog.Files.Save` | krabb-runtime/src/state.rs:2399-2463 | stopped after any file write or deletion, the disk holds old or new client state, deliveries and sessions, each as a whole and in that order; it is accepted exactly unless new deliveries are named that exceed the reader's limit. How far a save comes is exactly decided by IDs, sizes and the number of files it may write; it succeeds when it may also delete what is superfluous, which is then gone, and each error names its cause |
| `Catalog.Files.Cleanup` | krabb-runtime/src/state.rs:2465-2584 | deletes only what is stale or unnamed, exactly that when no deletion fails and it may delete so many files, and stops only when it may not |
| `Catalog.CleanedUp` | krabb-runtime/src/state.rs:2465-2584 | a cleanup, however far it comes, keeps everything the indexes name and the records of sessions that are not in the catalog |
| `Catalog.Files.RemoveSessionRecords` | krabb-runtime/src/state.rs:2512-2550 | deletes exactly the records of one session, and none the catalog needs, and succeeds exactly when it may delete that many |
| `Catalog.Files.Load` | krabb-runtime/src/state.rs:2275-2374 | accepts exactly the disks that hold a catalog, and returns what they hold, interrupted turns and deliveries included |
| `RequestServer.StepKeeps` | krabb-core/src/plugin.rs:347-528 | every event keeps: at most four workers, every unfinished one reachable under its ID, responses for distinct requests, and every call answered, at work, aborted or broken |
| `RequestServer.ReceivedCases` | krabb-core/src/plugin.rs:350-488 | a request aborts the worker a cancel note names, starts a worker, ends the serving, or is answered by the server itself; exactly the valid ones that are neither a cancel note nor refused nor the server's own start a worker |
| `RequestServer.WorkersBounded` | krabb-core/src/plugin.rs:388-412 | in every run at most four workers exist and no two unfinished ones share a call ID |
| `RequestServer.AnsweredOnce` | krabb-core/src/plugin.rs:452-480 | in every run each response bears the ID of its request, and no request is answered twice |
| `RequestServer.CleanReturnAnswersAll` | krabb-core/src/plugin.rs:347-528 | when the server returns cleanly every call was answered, unless a later cancel note named its ID while its worker was at work |
| `RequestServer.CancelAbortsItsOwn` | krabb-core/src/plugin.rs:374-386 | a cancel note marks the unfinished worker of the ID it names and nothing else |
| `RequestServer.CallArrives` | krabb-core/src/plugin.rs:388-486 | a call is refused at the limit, refused for an active ID, or gets a worker of its own |
| `RequestServer.ReceiveOutcome` | krabb-core/src/plugin.rs:350-488 | for every request: who answers it, which worker starts, which IDs stand for a worker afterwards, and whether the serving goes on, drains or fails |
| `RequestServer.NoteArrives` | krabb-core/src/plugin.rs:388-486 | a note is never answered: it is dropped at the limit and else gets a worker that no cancel can name |
| `RequestServer.FinishOutcome` | krabb-core/src/plugin.rs:452-482 | a worker that finishes answers exactly once if it answers, and keeps its place until joined |
| `RequestServer.JoinOutcome` | krabb-core/src/plugin.rs:490-508 | joining takes out that worker alone, with the IDs that stand for no worker at work while serving, and only a broken one ends the serving |
| `RequestServer.WorkerEnds` | krabb-core/src/plugin.rs:452-508 | a worker at work can break at any time; it answers a call, is silent to a note, and ends cancelled only when it was told to |
| `RequestServer.CanReturn` | krabb-core/src/plugin.rs:510-528 | a server whose input has ended, and none of whose workers broke, can always come to a clean return |
| `RequestServer.EndOutcome` | krabb-core/src/plugin.rs:350-528 | the end of the input drains the workers, an error fails, and the server returns when none is left |
| `RequestServer.Server.Receive` | krabb-core/src/plugin.rs:350-488 | the branches of the loop, in place on workers and active IDs, are the step of the state machine |
| `RequestServer.Server.Complete` | krabb-core/src/plugin.rs:452-482 | a worker responds and finishes in one step |
| `RequestServer.Server.JoinNext` | krabb-core/src/plugin.rs:490-508 | joining removes the worker and, while serving, the entries of finished ones |
| `RequestServer.Server.Retain` | krabb-core/src/plugin.rs:483-485 | exactly the entries of unfinished workers stay |
| `Demux.StepKeeps` | krabb-core/src/plugin.rs:85-153 | every step of reader and calls keeps: delivered and queued events are the events on the wire, a waiting call has no response yet, a result is the first response |
| `Demux.CallbackSeesPrefix` | krabb-core/src/plugin.rs:578-585 | in every run a callback saw a prefix of the events that bear its call's ID, in wire order |
| `Demux.ResultIsFirstResponse` | krabb-core/src/plugin.rs:119-147 | in every run a call returns the first response with its ID on the whole wire, which came after the call was made, and its callback saw every such event before it |
| `Demux.StrayResponseStops` | krabb-core/src/plugin.rs:617-627 | a response ends the reading if and only if no call has its ID, the call was answered, or it is closed; it reaches no call then, and otherwise only the one that waits |
| `Demux.OwnOutcome` | krabb-core/src/plugin.rs:95-153 | a call waits until it has its reply, fails when its callback refuses an event or it gives up, and can always close then |
| `Demux.CallCanReturn` | krabb-core/src/plugin.rs:112-150 | a call whose response is there can return it by steps of its own, after handing on all its queued events in order |
| `Demux.ReadOutcome` | krabb-core/src/plugin.rs:547-629 | for every input: only an invalid one and a response nobody waits for end the reading; a request or an event without an open stream is handed on; nothing else but the addressed queue or reply changes |
| `Demux.ReadingGoesOn` | krabb-core/src/plugin.rs:547-629 | in every run the reading still goes on if and only if no input was invalid and every response read is the first of a call and reached that call |
| `Demux.NothingLost` | krabb-core/src/plugin.rs:575-612 | in every run the server was handed all requests in order, and for every ID what was handed on, what the callback saw and what is queued are together the events on the wire |
| `Demux.Connection.OpenCall` | krabb-core/src/plugin.rs:95-110 | a new call gets an ID of its own; at the last ID it is refused |
| `Demux.Connection.Read` | krabb-core/src/plugin.rs:547-629 | the reader's branches are the step of the state machine |
| `Demux.Connection.TakeEvent` | krabb-core/src/plugin.rs:129-142 | an event is handed on in queue order, and a failing callback ends the call |
| `Demux.Connection.Return` | krabb-core/src/plugin.rs:122-134 | what a call returns is the first response on the wire with its ID |
| `SeccompFilter.ProgramMeaning` | krabb-libs/process/src/linux.rs:53-119 | for every list of calls, running the program kills on a foreign architecture, refuses listed numbers with EPERM and allows the others |
| `SeccompFilter.ProgramLoadable` | krabb-libs/process/src/linux.rs:53-119 | all jumps are forward and in bounds, all loads aligned, and the last instruction returns |
| `SeccompFilter.LoadableReturns` | krabb-libs/process/src/linux.rs:53-119 | every path of such a program ends in a return |
| `SeccompFilter.ProcessGroupFilter` | krabb-libs/process/src/linux.rs:53-119 | the loop fills the fixed buffer with exactly the program |
| `Splitting.ChunkingDoesNotMatter` | krabb-plugins/a2a/src/main.rs:347-390 | any two ways to cut a stream into chunks give the same events and the same leftover, those of the whole stream |
| `Splitting.DivisionUnique` | krabb-plugins/a2a/src/main.rs:347-390 | a stream divides into complete pieces in one way only |
| `EventStream.EventBoundaryMeaning` | krabb-plugins/a2a/src/main.rs:530-540 | the boundary is the first LF-LF or CRLF-CRLF, and none is found exactly when there is none |
| `EventStream.BoundaryIsStable` | krabb-plugins/a2a/src/main.rs:530-540 | a boundary once seen stays the first one when more bytes arrive |
| `EventStream.EventsGrow` | krabb-plugins/a2a/src/main.rs:347-390 | more bytes only add events |
| `EventStream.EventsMeaning` | krabb-plugins/a2a/src/main.rs:347-390 | the events and the leftover are the stream; each event ends at its own first boundary and the leftover holds none; nothing else is like this |
| `EventStream.StreamEvents` | krabb-plugins/a2a/src/main.rs:347-390 | the nested loops hand on exactly those events; they fail exactly when the stream exceeds the body limit or an event is not accepted, and then those before it were handed on |
| `TranscriptBatches.Batches` | krabb-runtime/src/ipc.rs:682-731 | batches concatenate to all lines in order, none is empty, each fits 48 KiB, and a line that fits is never split |
| `TranscriptBatches.SplitLine` | krabb-runtime/src/ipc.rs:696-715 | an oversized line is cut into pieces of whole characters within the bound |
| `TranscriptBatches.LineTells` | krabb-runtime/src/ipc.rs:686-694 | from its line one can tell the role of a message and what it says |
| `TranscriptBatches.JoinMeaning` | krabb-runtime/src/ipc.rs:682-694 | the parts of a message are joined by single line feeds, whichever way they are grouped |
| `MemoryStore.StorageInjective` | krabb-plugins/memory/src/main.rs:703-705 | different memories are kept apart |
| `MemoryStore.EvictionMeaning` | krabb-plugins/memory/src/main.rs:248-262 | eviction leaves at most the limit and takes nothing newer than what stays |
| `MemoryStore.WrittenEvicted` | krabb-plugins/memory/src/main.rs:233-262 | the entry just written is evicted if and only if a thousand others under later keys already bear the last possible time; below saturation never |
| `MemorySaturation.WrittenEvictedReachable` | krabb-plugins/memory/src/main.rs:233-262 | a run from the empty store after which the next memory is evicted by its own writing |
| `MemoryStore.RecallsWhatWasWritten` | krabb-plugins/memory/src/main.rs:384-394 | below saturation a memory is recalled as written, newer than all others and not before now, with the creation time of the one it replaces; every other one is as it was or evicted |
| `MemoryStore.RunKeeps` | krabb-plugins/memory/src/main.rs:181-283 | over every run at most 1000 memories and 1000 audit entries, each memory under its own storage key, in one of two learning modes |
| `MemoryStore.AcceptableMeaning` | krabb-plugins/memory/src/main.rs:189-233 | key and scope need a character that is not white space and none that is NUL; key and value fit 256 KiB |
| `MemoryStore.NextTimestampMeaning` | krabb-plugins/memory/src/main.rs:1355-1359 | below saturation the next time is the least that is after every memory's and not before now |
| `MemoryStore.ApprovedMeaning` | krabb-plugins/memory/src/main.rs:202-222 | a memory may be written in the autonomous mode, or approved in the guided one; the mode of the call goes before that of the store, and both older names count |
| `MemoryStore.ForgetsOne` | krabb-plugins/memory/src/main.rs:428-473 | a forgotten memory is gone, every other one and the mode stay, and what is malformed or cannot be saved changes nothing |
| `MemoryStore.LearnsMode` | krabb-plugins/memory/src/main.rs:396-416 | one of the two modes is set if it can be saved, and nothing else changes |
| `MemoryStore.Audited` | krabb-plugins/memory/src/main.rs:264-283 | whatever changes the memories is the newest audit entry, with its action, key and scope, behind the most recent others |
| `MemoryStore.Memory.Timestamp` | krabb-plugins/memory/src/main.rs:1355-1359 | the next time is after every entry's, and saturates |
| `MemoryStore.Memory.Remember` | krabb-plugins/memory/src/main.rs:181-283 | denies what is malformed, switched off or not approved; else inserts, evicts and logs in place, and puts all back when it cannot persist |
| `MemoryStore.Memory.Learn` | krabb-plugins/memory/src/main.rs:396-416 | sets one of the two learning modes, or none when it cannot persist |
| `MemoryStore.Memory.Forget` | krabb-plugins/memory/src/main.rs:428-473 | removes exactly the named memory, and puts it back when it cannot persist |
| `MemoryListing.IndexMeaning` | krabb-plugins/memory/src/main.rs:288-332 | a scoped index shows min(32, all) entries, the newest of each class, with at least min(16, class) of both, newest first |
| `MemoryListing.WholeIndexMeaning` | krabb-plugins/memory/src/main.rs:318-332 | the index of the globals or of everything is the newest 32 entries |
| `MemoryListing.NewestFirst` | krabb-plugins/memory/src/main.rs:290-301 | the entries of a scope come newest first, all of them and no others |
| `MemoryListing.Index` | krabb-plugins/memory/src/main.rs:288-332 | sorting, truncating and extending the lists yields that index; the index of the globals or of everything is the newest 32 |
| `MemoryListing.ListedExactly` | krabb-plugins/memory/src/main.rs:553-577 | the list shows exactly the memories of the asked scopes, global or not as asked, that no session memory of the same key shadows from a scope asked for earlier |
| `MemoryListing.ListedOnce` | krabb-plugins/memory/src/main.rs:553-577 | no memory is listed twice |
| `MemoryListing.ListedInOrder` | krabb-plugins/memory/src/main.rs:579-581 | newest first, then by key |
| `MemoryListing.PagesPartition` | krabb-plugins/memory/src/main.rs:583-594 | the pages one after the other are the list; all but the last are full |
| `MemoryListing.List` | krabb-plugins/memory/src/main.rs:482-611 | a page is returned exactly when the query is acceptable and the page exists, and it is that page of the list |

## Left out

- Sockets, HTTP, terminals, signals, child processes, permissions, symbolic links and directories: foreign calls.
- Named time zones and the zone library: `next` is modelled for `UTC` and fixed offsets; a daylight-saving shift can break the minute skip.
- `parse_duration`, `format_duration` and the parsing of dates: easy beside the conversion.
- JSON encoding, SHA-256 and the clock: parameters with the laws a reader expects (round trip, distinct digests for distinct contents). The size of an encoded index file is a yes-or-no input.
- The store's other operations (model, workspace, route, archive, context usage) and the session fields only they use: they touch no lease, queue or delivery. The delivery field `attempts` is written by nothing else. A route is one value here.
- The phase is one of two values: `SetPhase` is called with a phase word that the program accepts.
- Messages carry their rendered parts; senders and media are not part of this model.
- Sessions and deliveries are values inside the store's maps and sequences: the program borrows them in place, but never shares one.
- CronWindow.Next: stated for `UTC` and signed offsets only, and its exact failure condition only where the whole window lies in the timestamp range that the clock library supports.
- JournaledSave.OldOrNew: starts without a leftover journal; `OldOrNewAmongLeftovers` is the statement with any.
- JournaledSave.OldOrNewAmongLeftovers: recovers a listing once, without interruptions; `OldOrNew` has those.
- Calendar.FormattedTimestampsSort: years above 9999 have more digits, so text order is not time order there.
- Compaction.History.RemoveOldestMessageGroup: called only where the scan ends; `ScanEndsUnlessStalled` says where that is.
- Legacy migration and import, both in the flat file and in the catalog: one-off plumbing. `Catalog.Files.Load` starts from a disk with an index.
- Catalog.Files.Save: each single file is saved atomically, which `JournaledSave` is about. That digests differ is assumed only of the contents on disk and those being saved, and that reading undoes writing only of the latter.
- `RequestServer`: handlers answer calls with their own ID and notes not at all; the writer task is a yes-or-no for each answer; back-pressure of the output channel is not modelled. Each event is one step, as the program gives up control only between them.
- `EventStream`: an event is accepted or not; its JSON, the final check that any event had a result, and the HTTP stream are not modelled.
- `Demux`: a timeout stands for every way a call gives up; the wrap of the call counter after 2^64 calls is not modelled. Closing both tables is one step. A server that no longer takes what the reader hands on ends the reading too; here it always takes it.
- SeccompFilter.ProcessGroupFilter: architecture and call numbers are parameters, as they come from the platform's headers; the list must fit the fixed buffer.
- MemoryStore.Memory.Remember: does not model the record files beside the store's own, nor their removal.
- MemoryStore.Memory.Forget: does not model the record files beside the store's own, nor their removal.
- `MemoryStore`: convergence, search and the loading of memory files.
- `ChannelEvents`: the key an event is seen under is given as it is stored; oversized keys are hashed first. Whether a deferred event still fits the store's file is a yes-or-no input.
- The order of a map's iteration is that of its sorted keys where it shows in a result, and any order elsewhere.
- The SQLite plugin, approval gate, agent loop, browser, computer and MCP plugins: only easy members beside these.
