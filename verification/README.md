# Verification of remnix's history, sync and terminal core

remnix keeps shell history on several devices without a server. This project models
the parts of it where mistakes would lose data, and proves what they promise:

- **Merging and caching** (`Merge`, `MergeRows`, `Convergence`, `DuplicateRuns`,
  `CacheSpec`, `CacheRuns`, `CacheRep`, `PoolCompaction`, `PrefixSearch`, `ByteOrder`, `HistoryCache`,
  `MergeCache`, `SyncedCache`): creations and tombstones converge in any order; the interned,
  swap-removed, self-compacting RAM cache refines a simple view of the live rows and
  agrees with the table after every merge, or knows that it may not.
- **Frontiers and garbage collection** (`Frontiers`, `CheckpointOrder`,
  `GarbageCollection`, `GcRuns`): what may be deleted, and that interrupted, repeated
  and overlapping runs never delete what no checkpoint covers, as long as frontiers are
  pairwise comparable; and exactly when one run is safe without that.
- **The event log** (`EventLog`, `EventRange`): numbers are not reused; exactly when a
  head stands on applied events, and exactly when compaction does not show.
- **The terminal's byte pipeline** (`Incremental`, `QueryScan`, `OutputPump`,
  `KeyFilters`, `StripperChunks`, `DecoderChunks`, `ParseQueue`, `PtyInput`): exactly
  when scanners do not depend on how bytes are cut into chunks (escape sequences follow
  section 5.4 of ECMA-48), a lossy queue with a barrier, and a lossless queue.
- **Warming the suggestion cache** (`HelpWalk`, `WalkBound`, `WarmupJob`): a concurrent walk that
  visits each path once and all of them, and a job file, with the one way in which it
  loses a tool.
- **Ranking** (`FuzzyMatch`, `Ranking`), **configuration files** (`YamlContent`,
  `YamlLook`, `YamlMerge`, `YamlFill`) and **checkpoint snapshots** (`Snapshot`).

Code that changes things in place is modelled by classes and methods with loops,
proved against functions or relations on values; concurrent protocols are transition
systems, with theorems over all runs. SQL tables are maps with the uniqueness rules of
their indexes. Strings are sequences of characters, one per byte, and one per rune in
the ranking. Times are integers in milliseconds.

`dafny verify dfyconfig.toml` checks the whole project.

Hypotheses that the results need, each stated where it is used:

- Merging (`WellFormed`, `Consistent` in `Convergence`): a history id belongs to one
  origin, creations with one origin or of one run are one event, tombstones carry an
  origin, and the table agrees with that. `TombstoneCommutesIff` shows that the origin
  is needed; `DeliveriesAgreeIff` says exactly what happens without the rule about runs,
  in the events and in the table.
- Garbage collection (`Sane` in `GcRuns`): manifests lie under their own id, have
  non-negative frontiers and are pairwise comparable. `IncomparableLosesCover` and
  `RunKeepsCoverIff` show what happens otherwise.
- Ranking by class: frequencies handed in by a caller are at least -12397 (`FloorIff`).
- YAML: source items with one id agree, or with `keep` are one item; keys of the
  template are unique.

## Model

| member | source | states |
|---|---|---|
| `Merge.HistoryTable.ApplyCreatedEvent` | internal/sync/merge/apply.go:46-82 | a creation inserts its row, unless its origin is known or a uniqueness rule (id, origin, one live row per run) is broken; the entry is reported exactly when the origin was new |
| `Merge.HistoryTable.ApplyTombstoneEvent` | internal/sync/merge/apply.go:84-125 | a tombstone deletes by id and by origin, leaves a deleted placeholder at an unknown origin, and reports the ids the source reports, repetitions included |
| `Merge.HistoryTable.ApplyEvents` | internal/sync/merge/apply.go:18-44 | a transaction is the in-order fold of its events with the change sets merged; the first undecodable or unknown event leaves the table as it was |
| `Merge.FailureStays` | internal/sync/merge/apply.go:18-44 | one failing event makes the whole transaction fail, wherever it stands |
| `MergeRows.CreatedMeans` | internal/sync/merge/apply.go:46-82 | column by column: a creation adds a row with the event's columns if and only if its id is free, no row has its origin, and no live row has its command, start, non-empty directory and device; it is reported unless its origin is there |
| `MergeRows.TombstoneMeans` | internal/sync/merge/apply.go:84-121 | a tombstone deletes exactly the rows with its id or its origin, changes no other column, and adds a deleted row if and only if it carries an origin that no row has and the id is free |
| `MergeRows.TombstoneReportsIds` | internal/sync/merge/apply.go:84-125 | the ids it reports, letter by letter |
| `MergeRows.DecimalMeans` | internal/sync/merge/apply.go:104-106 | numbers are printed in decimal notation |
| `MergeRows.ChangesInOrder` | internal/sync/merge/apply.go:18-44 | the change set of a transaction lists the changes of its events in order |
| `MergeRows.TrackedMeans` | internal/sync/merge/apply.go:18-44 | what each kind of event reports, and which kinds fail |
| `Convergence.TombstoneIdInjective` | internal/sync/merge/apply.go:104-106 | placeholder ids are as distinct as the origins they are printed from, for every device name and every integer |
| `Convergence.CreatedStep` | internal/sync/merge/apply.go:46-82 | in a consistent table a well-formed creation of a new origin is always inserted under a free id, and one of a known origin changes nothing: INSERT OR IGNORE never ignores it silently |
| `Convergence.TombstoneStep` | internal/sync/merge/apply.go:84-125 | a tombstone with an origin either deletes exactly the row of that origin or inserts a placeholder under a free id |
| `Convergence.DeliveryRepresents` | internal/sync/merge/apply.go:46-125 | after any delivery the live rows and the known origins are those that a definition without order gives for the set of events |
| `Convergence.Converges` | internal/sync/merge/apply.go:46-125 | two deliveries of the same set of events, in any order and with any repetitions, end in the same live view |
| `Convergence.LiveRowsOfEvents` | internal/sync/merge/apply.go:46-125 | from an empty table the live rows are exactly the created events whose origin is not tombstoned |
| `Convergence.TombstoneCommutesIff` | internal/sync/merge/apply.go:89-96 | the hypothesis is needed: on any table that would take the creation, a tombstone commutes with the creation of its row if and only if it carries the origin |
| `Convergence.CreationsCommuteIff` | internal/db/migrate_hooks.go:215-216 | on any table that would take either, two creations commute if and only if they do not record the same run, because the dedup index keeps the first |
| `DuplicateRuns.DeliveryBounded` | internal/sync/merge/apply.go:46-125 | without the rule about runs, on any tidy table: after any delivery live rows are expected ones, an expected row is live unless something else records its run, and a new row whose run an undeleted row holds is not live |
| `DuplicateRuns.ContestDisagrees` | internal/db/migrate_hooks.go:215-216 | a new creation that can be inserted and can be ignored, and is not tombstoned, ends live in one order of the events and absent in another |
| `DuplicateRuns.SettledLive` | internal/sync/merge/apply.go:46-125 | without such creations the live rows after any delivery are given by a definition without order |
| `DuplicateRuns.DeliveriesAgreeIff` | internal/db/migrate_hooks.go:215-216 | for any set of events and any tidy table, live rows of the same runs included: all deliveries agree if and only if every new creation whose run something else records too is tombstoned, or is kept out by a live row that no event deletes |
| `DuplicateRuns.PairsDecide` | internal/db/migrate_hooks.go:215-216 | in particular, if the table records none of the runs: if and only if of any two new creations of one run both are tombstoned |
| `CacheSpec.CreateSound` | internal/history/cache.go:301-336 | creation keeps: every id leads to a command on record, and no command counts fewer runs than ids lead to it |
| `CacheSpec.BurySound` | internal/history/cache.go:149-171 | removing an id keeps the same, also when the last run takes the record away |
| `CacheSpec.BuryCommandSound` | internal/history/cache.go:226-241 | removing a command keeps the same |
| `CacheRep.SwapRemoveStored` | internal/history/cache.go:338-347 | swap-removal keeps the command map the exact inverse of the record list, and removes one summary and no other |
| `CacheRep.RenumberStored` | internal/history/cache.go:434-464 | a renumbering that keeps the strings of every record shows the same summaries |
| `CacheRep.NobodyLeft` | internal/history/cache.go:163-166 | when a count falls to zero no other id leads to the record that goes |
| `PoolCompaction.Remap` | internal/history/cache.go:441-448 | an old number gets one new number, with the same string; a string already present costs nothing |
| `PoolCompaction.CompactPool` | internal/history/cache.go:434-464 | compaction changes nothing visible through records or ids, keeps all representation invariants, and leaves exactly the strings the records use |
| `PoolCompaction.CountReferenced` | internal/history/cache.go:413-422 | the number of distinct strings some record uses |
| `PrefixSearch.SortIndex` | internal/history/cache.go:349-360 | the index lists every record once, in strictly increasing byte order of the commands |
| `PrefixSearch.FirstNotLess` | internal/history/cache.go:366-368 | binary search splits the index at the first command not less than the prefix |
| `PrefixSearch.Find` | internal/history/cache.go:362-385 | the scan finds exactly the first 64 names in byte order that have the prefix and differ from it |
| `PrefixSearch.AnswerUnique` | internal/history/cache.go:362-385 | only one list has that property, so the search equals filter, sort and take 64 |
| `ByteOrder.LessMeans` | internal/history/cache.go:349-360 | the order of commands: where two strings first differ, the smaller one ends or has the smaller byte |
| `HistoryCache.Cache.ApplyCreated` | internal/history/cache.go:134-141 | refines the simple view (ids to commands, commands to summaries), re-sorts, and leaves at most twice the used strings in the pool |
| `HistoryCache.Cache.ApplyCompleted` | internal/history/cache.go:143-147 | refines the view: exit and duration of the run's command, nothing for an unknown id; the index stays valid |
| `HistoryCache.Cache.ApplyTombstoned` | internal/history/cache.go:149-171 | refines the view: each id once, unknown ids make the cache dirty; pool bound as above |
| `HistoryCache.Cache.ApplyTombstoneCommand` | internal/history/cache.go:173-193 | the command and every id that led to it are gone, nothing else is |
| `HistoryCache.Cache.ApplyBatch` | internal/history/cache.go:195-224 | creations, completions, tombstones and commands in that order, on the view; all invariants and the pool bound hold after |
| `HistoryCache.Cache.Compact` | internal/history/cache.go:267-272 | the view is unchanged and the pool holds exactly the strings in use |
| `HistoryCache.Cache.MaybeCompact` | internal/history/cache.go:424-432 | compacts if and only if more than half of the strings are unused, or all of them |
| `HistoryCache.Cache.MarkDirty` | internal/history/cache.go:243-247 | the cache is dirty, and everything else it shows is as before |
| `HistoryCache.Cache.Rebuild` | internal/history/cache.go:77-110 | the cache becomes clean and shows exactly the scanned rows; a failed scan changes nothing |
| `HistoryCache.Cache.Suggest` | internal/history/cache.go:112-119 | nothing for an empty prefix or from a dirty cache; else exactly the first 64 proper extensions of the prefix, each with the directory, device, session and start of its command's last run, its exit status unless negative and its duration if positive |
| `CacheRuns.CreateAllRemembers` | internal/history/cache.go:301-336 | from a list of rows the cache remembers for every command the number of its live runs, and the columns of the one that started last |
| `CacheRuns.HitsShowLastRuns` | internal/history/cache.go:387-405 | so what is suggested after a rebuild shows the last run of each command |
| `CacheRuns.HitAfterCreation` | internal/history/cache.go:301-336 | a new run is shown unless it started before the last one |
| `CacheRuns.CompleteMeans` | internal/history/cache.go:274-299 | a completion sets exit status and duration of its command and nothing else |
| `CacheRuns.BuryMeans` | internal/history/cache.go:149-171 | removing an id takes one run off its command |
| `CacheRuns.BuryCommandMeans` | internal/history/cache.go:226-241 | removing a command takes its record and the ids that lead to it, and nothing else |
| `MergeCache.CreateExact` | internal/history/cache.go:301-336 | when created ids are new, counts stay exactly the number of ids |
| `MergeCache.BuryExact` | internal/history/cache.go:204-217 | tombstones by id keep counts exact |
| `MergeCache.CleanIff` | internal/history/cache.go:204-209 | a clean cache stays clean if and only if every tombstoned id is known and comes once |
| `MergeCache.DeliveryFollows` | internal/sync/merge/apply.go:18-125 | after any delivery the live rows are the old and the created ones less the tombstoned ones, unless a reported id is one the cache cannot know |
| `MergeCache.MergeKeepsAgreement` | internal/sync/merge/apply.go:18-125 | a cache that agreed with the live rows is, after the merge and its change set, dirty or in agreement again; and a clean one turns dirty if and only if a reported id repeats, or is neither that of a live row with a command nor of a created one |
| `MergeCache.AgreesMeans` | internal/history/cache.go:195-224 | agreement in the table's terms: ids are exactly the live rows with a command, each count the number of live rows of its command |
| `MergeCache.RebuildAgrees` | internal/history/store.go:260-279 | a rebuild from the live rows in any order agrees with the table |
| `SyncedCache.MergeEvents` | internal/sync/merge/apply.go:18-125 | table and cache objects together: after merging any well-formed events the table represents them and the cache is dirty or agrees, dirty exactly under the condition above |
| `SyncedCache.SuggestLive` | internal/history/cache.go:112-119 | a clean, agreeing cache suggests exactly the first 64 commands of live rows that extend the prefix |
| `SyncedCache.RebuildFrom` | internal/history/cache.go:77-110 | a rebuild from a scan of the live rows leaves a clean cache that agrees |
| `Frontiers.DominatesLoop` | internal/sync/merge/frontier.go:45-52 | decides the pointwise comparison on the devices of the second frontier |
| `Frontiers.DominatesIffAbove` | internal/sync/merge/frontier.go:41-52 | for non-negative frontiers that is the same as covering everything the other covers |
| `Frontiers.ScoreLoop` | internal/sync/merge/frontier.go:54-61 | the sum of the numbers, whatever the order of the map |
| `Frontiers.DominanceRaisesScore` | internal/sync/merge/frontier.go:45-61 | for a non-negative frontier: dominating never means a smaller sum, and strictly dominating means a larger one |
| `Frontiers.SumFollowsIff` | internal/sync/merge/frontier.go:45-61 | the sum follows strict dominance below a frontier if and only if it has no negative number or names one device only |
| `Frontiers.Union` | internal/sync/merge/frontier.go:63-71 | the pointwise maximum with the second frontier's entries |
| `Frontiers.UnionIsLeast` | internal/sync/merge/frontier.go:63-71 | the union is the least frontier above both |
| `Frontiers.Missing` | internal/sync/merge/frontier.go:29-39 | one range per device that is behind, in strict device order |
| `Frontiers.MissingIsDifference` | internal/sync/merge/frontier.go:29-43 | an event is in the ranges if and only if the remote frontier covers it and the local one does not |
| `Frontiers.FetchingGivesUnion` | internal/sync/merge/frontier.go:23-71 | advancing over every missing range gives the union of the two frontiers |
| `CheckpointOrder.BetterCheckpoint` | internal/sync/gc/gc.go:224-241 | computes the comparison, dominance first |
| `CheckpointOrder.BetterIsLexicographic` | internal/sync/gc/gc.go:224-241 | for non-negative frontiers the comparison is the lexicographic one on sum, time and id |
| `CheckpointOrder.BetterIsStrictOrder` | internal/sync/gc/gc.go:224-241 | hence irreflexive, transitive, asymmetric and total on different ids |
| `CheckpointOrder.NegativeBreaksTheOrder` | internal/sync/gc/gc.go:224-241 | with a negative number dominance and sum can disagree |
| `CheckpointOrder.PreferenceFollowsRankIff` | internal/sync/gc/gc.go:224-241 | no manifest that one is preferred to ranks higher by sum, time and id, if and only if that one has no negative number or names one device only |
| `CheckpointOrder.SortCheckpoints` | internal/sync/gc/gc.go:243-245 | a permutation; if no number is negative, no later element is better than an earlier one |
| `CheckpointOrder.HeadIsUndominated` | internal/sync/gc/gc.go:212-222 | no checkpoint strictly dominates the head of the sorted list, and the head dominates every comparable one |
| `GarbageCollection.FindBlocked` | internal/sync/gc/gc.go:39-51 | exactly the required devices without an acknowledgement, or without one for the named checkpoint |
| `GarbageCollection.ResolveCheckpoint` | internal/sync/gc/gc.go:247-269 | the named checkpoint if readable; else one that every required device has acknowledged, the best such if no number is negative, and none only if there is none |
| `GarbageCollection.PickBest` | internal/sync/gc/gc.go:212-222 | a readable checkpoint, and if no number is negative none is better; none only if none is readable |
| `GarbageCollection.IsDoomed` | internal/sync/gc/gc.go:131-154 | the deletion test for one checkpoint directory, all branches |
| `GarbageCollection.Evaluate` | internal/sync/gc/gc.go:34-157 | the plan lists exactly the covered readable bundles, the doomed directories, the orphans and the blocking devices |
| `GarbageCollection.PlannedBundlesAreAcked` | internal/sync/gc/gc.go:77-98 | without a named checkpoint every planned bundle is covered by the acknowledgement of every required device |
| `GarbageCollection.NamedBundlesAreAcked` | internal/sync/gc/gc.go:38-51 | with a checkpoint named by hand every required device has acknowledged that checkpoint, which covers the planned bundle |
| `GarbageCollection.NobodyRequired` | internal/sync/gc/gc.go:51-98 | without required devices no event is deleted |
| `GarbageCollection.EligibleMeans` | internal/sync/gc/gc.go:39-51 | events may be deleted if and only if devices are required and each has acknowledged, the named checkpoint if one is named; the others block |
| `GarbageCollection.DoomedMeans` | internal/sync/gc/gc.go:131-154 | which checkpoint directories go, in terms of frontiers and times |
| `GcRuns.Execute` | internal/sync/gc/gc.go:159-175 | deletes orphans, checkpoints and, if eligible, bundles in that order up to the first failure; a dry run deletes nothing |
| `GcRuns.CompleteRun` | internal/sync/gc/gc.go:159-175 | a complete run removes the orphans, directories and, if eligible, bundles of its plan, and nothing else |
| `GcRuns.DeletionOrder` | internal/sync/gc/gc.go:163-168 | orphans first, bundles last |
| `GcRuns.ExecuteIsSteps` | internal/sync/gc/gc.go:169-174 | what Execute has done at any point is a sequence of steps of the run model |
| `GcRuns.BestDominates` | internal/sync/gc/gc.go:131-154 | with pairwise comparable frontiers the kept checkpoint dominates every readable one |
| `GcRuns.NextInv` | internal/sync/gc/gc.go:34-175 | each step (new checkpoint, bundle or acknowledgement, new plan, deletion, half-done deletion, interruption, also of overlapping runs) keeps an intact best checkpoint that is on no list and covers every bundle gone or listed |
| `GcRuns.DeletedBundlesAreCovered` | internal/sync/gc/gc.go:34-175 | in every state of every run, however interrupted and repeated, one intact readable checkpoint covers every bundle deleted so far |
| `GcRuns.RunKeepsCoverIff` | internal/sync/gc/gc.go:136-153 | without comparability, for any number of checkpoints: a run leaves everything it may delete covered if and only if, device by device, the kept checkpoint or a newer one it does not dominate reaches as far as the acknowledged one |
| `GcRuns.TwoCheckpointsIff` | internal/sync/gc/gc.go:136-153 | with only those two checkpoints: if and only if the kept one dominates or is the older one |
| `GcRuns.IncomparableLosesCover` | internal/sync/gc/gc.go:146-153 | a store where a run deletes an acknowledged checkpoint and its events, and nothing left covers them |
| `EventLog.NextSeq` | internal/sync/event/store.go:26-40 | one more than the largest number in the log or the head of the device, 1 if neither is there |
| `EventLog.AdvanceContiguous` | internal/sync/merge/heads.go:45-63 | the head moves over applied rows only and stops exactly at the first number that is not applied |
| `EventLog.NextInv` | internal/sync/event/store.go:26-77 | every step keeps: a number ever used is still in the log or not above the head; nothing is forgotten and no head falls |
| `EventLog.NumbersAreNew` | internal/sync/event/store.go:26-67 | in every run a number handed out was never in the log before, compacted or not |
| `EventLog.NumbersIncrease` | internal/sync/event/store.go:26-67 | the numbers handed out to a device increase strictly |
| `EventLog.HeadsRise` | internal/sync/merge/heads.go:37-63 | a head that is there never falls |
| `EventLog.HeadsMeanAppliedIff` | internal/sync/merge/heads.go:37-63 | in every run, heads set outright included: every event up to every head was applied if and only if, each time a head was set, the events up to that number were applied, then or later |
| `EventLog.HeadsMeanApplied` | internal/sync/merge/heads.go:45-63 | in particular, if no head was set outright, head h means that 1 to h were applied |
| `EventLog.JumpAboveApplied` | internal/sync/merge/heads.go:37-43 | a run that sets a head to a number nobody applied |
| `EventLog.EventStore.AppendNext` | internal/sync/event/store.go:26-67 | appending under the next number adds a number not used before |
| `EventLog.EventStore.Append` | internal/sync/event/store.go:50-67 | an existing key is refused and changes nothing |
| `EventLog.EventStore.MarkAsApplied` | internal/sync/event/store.go:69-77 | marks an existing row, nothing else |
| `EventLog.EventStore.AdvanceHead` | internal/sync/merge/heads.go:45-63 | advances one head contiguously |
| `EventLog.EventStore.SetHeadTo` | internal/sync/merge/heads.go:37-43 | sets a missing head, raises a present one, or leaves it |
| `EventLog.EventStore.CompactUpToHeads` | internal/sync/event/store.go:175-183 | removes exactly the applied creations up to the heads |
| `EventRange.HydrateRow` | internal/sync/event/store.go:222-300 | reads a row back, with its time, from its payload, its history row by id or origin, or not at all |
| `EventRange.RebuiltCreation` | internal/sync/event/store.go:243-269 | a creation read back from the row it made has its columns |
| `EventRange.RebuiltRow` | internal/sync/event/event.go:79-95 | the columns of the creation rebuilt from a row |
| `EventRange.ReadCreation` | internal/sync/event/store.go:222-269 | a creation is read from the row its id names, else from that of its origin, else it is blank |
| `EventRange.RebuiltTombstone` | internal/sync/event/store.go:271-300 | a tombstone is read back with its id, the origin of that row and its time |
| `EventRange.Range` | internal/sync/event/store.go:106-153 | fails exactly if a row in range cannot be read; else lists, in strictly increasing order and with their times, the stored events, one blank event if there is any, and the creations that only the history rows remember |
| `EventRange.ListingUnique` | internal/sync/event/store.go:143-152 | there is one such list |
| `EventRange.CompactionIsInvisible` | internal/sync/event/store.go:106-183 | if every compacted creation is traceable (a history row carries its origin, the row its id names shows the same, and its time is that of the history row), any range gives the same answer before and after |
| `EventRange.UntraceableShows` | internal/sync/event/store.go:106-183 | each compacted creation that is not traceable has a range with another answer afterwards, the case of the blank event included |
| `EventRange.CompactionIsInvisibleIff` | internal/sync/event/store.go:106-183 | compaction is invisible in all ranges if and only if every creation it removes is traceable; for observers who look at times, and for those who do not |
| `EventRange.TimeShows` | internal/sync/event/store.go:127-142 | a creation that is otherwise intact keeps its number and body, and its time becomes the one at which the history row was inserted |
| `EventRange.OwnRowIsTraceable` | internal/sync/event/store.go:243-269 | when the row named by the event carries the event's origin, it is traceable exactly if its time does not show |
| `EventRange.LostOriginShows` | internal/sync/event/store.go:175-183 | a creation whose history row lost its origin is in its range before and not after |
| `Incremental.DrainAppend` | internal/terminal/query.go:35-80 | scanning with a held tail: a stable tokenizer gives the same tokens and tail whether bytes come at once or in two parts |
| `Incremental.NeverGivesUpIff` | internal/terminal/query.go:35-80 | the streams for which no chunking reaches the give-up branch |
| `QueryScan.HeadStable` | internal/terminal/query.go:82-112 | the escape-sequence tokenizer is stable: more bytes never change a token already complete |
| `QueryScan.HeadLocal` | internal/terminal/query.go:82-112 | no token needs a byte beyond its own end |
| `QueryScan.ConsumeQuery` | internal/terminal/query.go:82-142 | the first complete sequence with its reply and length; a cursor-position query has no canned reply |
| `QueryScan.HeadMeans` | internal/terminal/query.go:82-112 | the tokenizer byte by byte: which bytes end a control sequence or a string, and which are text |
| `QueryScan.RepliesMean` | internal/terminal/query.go:114-142 | the bytes of every canned reply, and that nothing else is answered |
| `QueryScan.GivingUpMeans` | internal/terminal/query.go:46-58 | a sequence over 128 bytes without an end is skipped byte by byte |
| `QueryScan.CprEndsAreTheQueries` | internal/terminal/query.go:82-142 | the reported offsets are exactly the ends of the queries ESC [ 6 n that are not inside another sequence: none invented, none missed |
| `QueryScan.EndsBeyondHold` | internal/terminal/query.go:59-68 | queries completed by new bytes end beyond the held tail and within the new bytes: the position clamps never fire |
| `QueryScan.QueryScanner.Feed` | internal/terminal/query.go:35-80 | one call is the scan of the held tail and the new bytes, with the 128-byte give-up |
| `OutputPump.EnqueueParse` | internal/terminal/session_unix.go:249-272 | for any ends no byte is lost or repeated; increasing ends become exactly the flagged item ends and no item is empty |
| `OutputPump.PumpChunk` | internal/terminal/session_unix.go:220-247 | one chunk of output keeps the replies and items on the track of the whole stream |
| `OutputPump.PumpOutput` | internal/terminal/session_unix.go:220-272 | for any chunking the items are the exact stream; if no tail overruns 128 bytes, replies and flagged ends are those of the stream scanned whole |
| `OutputPump.ChunkingInvisible` | internal/terminal/session_unix.go:220-272 | two such chunkings of one stream give the same replies, and the flagged items end exactly at the cursor-position queries of the stream |
| `OutputPump.SafeUnderEveryChunkingIff` | internal/terminal/query.go:52-58 | a stream is safe under every chunking if and only if no prefix leaves more than 128 bytes unfinished |
| `KeyFilters.ModeStripper.Feed` | internal/terminal/keyboard.go:202-267 | one call is the scan of the held and the new bytes, with the 64-byte overflow branch |
| `KeyFilters.HeadMeans` | internal/terminal/keyboard.go:211-252 | the grammar of both filters byte by byte |
| `KeyFilters.GivingUpMeans` | internal/terminal/keyboard.go:44-80 | what becomes of an unfinished sequence over 64 or 256 bytes, and of a lone ESC |
| `KeyFilters.RewriteMeans` | internal/terminal/keyboard.go:76-86 | focus reports vanish, key reports are decoded, other sequences pass |
| `KeyFilters.StripperChunking` | internal/terminal/keyboard.go:202-267 | every chunking that does not reach the overflow branch gives the same output and the same held tail |
| `KeyFilters.StripperSafeIff` | internal/terminal/keyboard.go:202-267 | the streams for which no chunking reaches it |
| `StripperChunks.StripperAgreesIff` | internal/terminal/keyboard.go:202-267 | all chunkings of a stream give the same output and held tail if and only if every complete sequence of which more than 64 bytes can be unfinished comes out as it went in |
| `StripperChunks.CutShows` | internal/terminal/keyboard.go:238-246 | such a sequence that is rewritten or dropped shows when it is cut after 65 bytes |
| `KeyFilters.KittyKeyDecoder.Feed` | internal/terminal/keyboard.go:23-88 | one call is the scan of the held and the new bytes; a lone ESC and an overlong tail are given up |
| `KeyFilters.DecoderChunking` | internal/terminal/keyboard.go:23-88 | every chunking without a boundary right after ESC and without an overlong tail gives the same output and tail |
| `KeyFilters.DecoderSafeIff` | internal/terminal/keyboard.go:23-88 | the streams for which no chunking reaches the branches that give up |
| `DecoderChunks.DecoderAgreesIff` | internal/terminal/keyboard.go:23-88 | all chunkings of a stream give the same output and held tail if and only if what begins at each ESC, wherever it stands, is complete or given up and comes out as it went in |
| `DecoderChunks.SplitReportIsNotDecoded` | internal/terminal/keyboard.go:23-88 | a report comes out raw when a boundary follows its ESC, and rewritten when it comes in one piece |
| `DecoderChunks.DecodedReportShows` | internal/terminal/keyboard.go:23-88 | so these two chunkings agree if and only if the report stands for itself |
| `ParseQueue.BacklogQueue.Put` | internal/terminal/parse_queue.go:60-91 | the new backlog is the specified one; a number is given exactly to accepted items; overflow drops the backlog, marks it dirty and is counted |
| `ParseQueue.BacklogQueue.Take` | internal/terminal/parse_queue.go:93-131 | the oldest item leaves, also across the compaction of the slice |
| `ParseQueue.BacklogQueue.Mark` | internal/terminal/parse_queue.go:133-143 | the parsed number never falls |
| `ParseQueue.BacklogQueue.Shut` | internal/terminal/parse_queue.go:166-178 | stopping empties the backlog and parses everything given out |
| `ParseQueue.EnqueueMeans` | internal/terminal/parse_queue.go:60-91 | field by field: refused, appended, appended after dropping the backlog, or only dropped |
| `ParseQueue.QueueMeans` | internal/terminal/parse_queue.go:51-178 | the other operations field by field |
| `ParseQueue.Safety` | internal/terminal/parse_queue.go:60-178 | in every interleaving the queued numbers and the one in flight are exactly parsed+1 to enqueued, bytes are summed within budget, and the screen has seen accepted items in order |
| `ParseQueue.WaiterHasWork` | internal/terminal/parse_queue.go:155-164 | a waiter never blocks with nothing outstanding |
| `ParseQueue.BarrierHolds` | internal/terminal/session_unix.go:274-308 | when a wait returns on a queue neither dirty nor stopped, every item up to the target was written to the screen, in order |
| `ParseQueue.HistoryGrows` | internal/terminal/parse_queue.go:60-178 | accepted and written items only grow |
| `ParseQueue.ConsumerReleasesWaiters` | internal/terminal/session_unix.go:274-300 | the consumer alone releases every waiter in as many steps as are left |
| `ParseQueue.WaiterIsReleased` | internal/terminal/session_unix.go:274-308 | in any interleaving with producers, drops and stops, a waiter is released once the consumer has done as many steps as its target was away when it came |
| `ParseQueue.EffectiveMeans` | internal/terminal/session_unix.go:274-308 | the steps that count are those by which the consumer changes something |
| `PtyInput.InputQueue.Push` | internal/terminal/pty_input.go:40-67 | accepts and queues all of the bytes or refuses and changes nothing, with the source's reason |
| `PtyInput.InputQueue.PopWait` | internal/terminal/pty_input.go:69-93 | popped bytes followed by queued bytes are always the accepted bytes; blocks only when empty and not stopped; a stop loses nothing |
| `PtyInput.InputQueue.Stop` | internal/terminal/pty_input.go:95-103 | nothing queued is lost |
| `HelpWalk.KeyInjective` | internal/helpparse/cache.go:62-64 | different command paths of one tool have different visited keys |
| `HelpWalk.KeyMeans` | internal/helpparse/cache.go:62-64 | the key of a path: its words joined by NUL |
| `HelpWalk.WantedMeans` | internal/helpparse/enrich.go:79-92 | which entities are followed: no flags, no leading dash, not help in any case, letters, digits and a few signs |
| `HelpWalk.ReachableMeans` | internal/suggestcache/warmup.go:141-160 | the paths the walk is meant to find: they start with the tool, each word is shown on the page before it, and there are no more words than the depth limit |
| `HelpWalk.AddChildrenFinds` | internal/suggestcache/warmup.go:141-160 | a page adds exactly its wanted, unvisited children, each once |
| `HelpWalk.Shared.Begin` | internal/suggestcache/warmup.go:118-129 | a worker takes the first path, leaves, or waits, exactly as a step of the protocol allows |
| `HelpWalk.Shared.Finish` | internal/suggestcache/warmup.go:140-168 | finishing a page is the protocol's expansion step |
| `HelpWalk.Safety` | internal/suggestcache/warmup.go:93-192 | for any number of workers and any schedule, pending, in-flight and finished paths partition the visited ones and the count of busy workers is right |
| `HelpWalk.NeverStuck` | internal/suggestcache/warmup.go:117-129 | unless all have left, somebody can move: a worker waits only while another is busy |
| `HelpWalk.TakenOnce` | internal/suggestcache/warmup.go:126-138 | no path is probed or saved twice |
| `HelpWalk.WalkComplete` | internal/suggestcache/warmup.go:93-192 | when all workers have left uncancelled, a path is saved, and then once, if and only if it starts with the tool, each further word is a followed entity of the page before it, and it has no more words than the depth limit |
| `WalkBound.StepLeaves` | internal/suggestcache/warmup.go:117-179 | every step of a worker brings the end nearer |
| `WalkBound.SchedulesEnd` | internal/suggestcache/warmup.go:93-192 | with finitely many reachable paths every schedule ends: at most three steps for each path and one for each worker, cancellations aside |
| `WarmupJob.Enqueue` | internal/suggestcache/job.go:183-204 | a dead job refuses; else exactly tools not current, remaining or queued are added, and afterwards every named tool is one of those |
| `WarmupJob.AppendUnique` | internal/suggestcache/job.go:162-179 | keeps the list and adds each trimmed, non-empty new name once |
| `WarmupJob.NextInv` | internal/suggestcache/job.go:183-386 | every step of the worker and of other processes keeps each added tool warmed, current, remaining or queued while the worker lives, and all of them on file while it warms one |
| `WarmupJob.NoToolIsLost` | internal/suggestcache/job.go:183-386 | until the worker stops no added tool is lost, and when it records completion all are warmed |
| `WarmupJob.NoOvertaking` | internal/suggestcache/job.go:339-386 | tools are warmed in the order in which the worker has them; none overtakes another |
| `WarmupJob.FailureLosesNothing` | internal/suggestcache/job.go:382-401 | when a tool fails, every added tool is warmed or still in the status file |
| `WarmupJob.CancelLosesNothing` | internal/suggestcache/job.go:339-364 | a cancellation loses nothing, unless the last thing the worker did was its check for more work |
| `WarmupJob.CancelLosesIff` | internal/suggestcache/job.go:339-364 | in every run a cancellation loses a tool if and only if the worker's last step was the check for more work, that check took the tool off the queue, the file named it nowhere else and it was not warmed, and nobody added it again since |
| `WarmupJob.CancelLosesATool` | internal/suggestcache/job.go:341-364 | a run in which a tool queued just before the last check is taken and then lost by cancellation |
| `WarmupJob.CompletionIsFinal` | internal/suggestcache/job.go:341-362 | after completion nothing can be added |
| `FuzzyMatch.FromStart` | internal/search/rank.go:222-233 | from one start the greedy scan ends no later than any occurrence, or shows that none starts here or later |
| `FuzzyMatch.MinSpan` | internal/search/rank.go:212-243 | finds a window if and only if the term occurs as a subsequence, and then the narrowest of all occurrences |
| `FuzzyMatch.ContainedSpan` | internal/search/rank.go:202-243 | a term that stands in the text in one piece has a window of its own length |
| `FuzzyMatch.MatchClassMeans` | internal/search/rank.go:202-210 | class 3 if and only if the text starts with the term, class 2 or better if and only if it contains the term in one piece |
| `Ranking.ContextIsBounded` | internal/search/rank.go:140-169 | recency, frequency, directory, device and session add at most 8200, and take away no more than the lowest frequency does |
| `Ranking.ContextMeans` | internal/search/rank.go:140-169 | what each part of the context is worth, by full days, runs, directory, device and session |
| `Ranking.Frequency` | internal/search/rank.go:132-138 | exactly the commands of the entries, each with its count |
| `Ranking.CountMeans` | internal/search/rank.go:132-138 | a count is the number of entries with that command |
| `Ranking.FuzzyScore` | internal/search/rank.go:180-200 | matches if and only if every term occurs; the score is the worst class less the narrowest windows |
| `Ranking.ClassDominates` | internal/search/rank.go:35-45 | for one query a strictly better class scores strictly higher, whatever context adds that is less than a class |
| `Ranking.ClassDominatesIff` | internal/search/rank.go:35-45 | for any two classes the better one wins if and only if context does not outweigh the gap and the width that the worse match loses |
| `Ranking.FloorIff` | internal/search/rank.go:152-157 | frequencies bounded from below make every search rank by class if and only if the bound is at least -12397 |
| `Ranking.BelowFloor` | internal/search/rank.go:152-157 | below that, a prefix match of an unpopular command comes after a substring match |
| `Ranking.CountsAreNotNegative` | internal/search/rank.go:132-138 | frequencies that the search counts itself are never negative |
| `Ranking.SameClassSameMatch` | internal/search/rank.go:180-200 | two matches of one class in one piece differ by context only |
| `Ranking.SortResults` | internal/search/rank.go:171-178 | a stable sort: ordered by score and time, the same results, equal ones in their old order |
| `Ranking.WithKeyMeans` | internal/search/rank.go:171-178 | what stays in its old order: the results with one score and start |
| `Ranking.ClassNeverRises` | internal/search/rank.go:51-93 | down a sorted list the match class never goes up, if no frequency is below -12397 |
| `Ranking.ClassInTerms` | internal/search/rank.go:180-210 | the class of a query in terms of where its terms stand |
| `Ranking.BetterMatchesFirst` | internal/search/rank.go:51-93 | in a list ranked by class no command that starts with the terms comes after one that does not |
| `Ranking.RankWith` | internal/search/rank.go:51-93 | empty query: all entries by exactly what context says; exact: those containing the query, unsorted; fuzzy: those with every term, each scored by its match and its context, best class first, without any condition if the search counts for itself |
| `Ranking.ContainingMeans` | internal/search/rank.go:67-76 | an exact search keeps exactly the entries that have the query in one piece, in their order |
| `Ranking.MatchingMeans` | internal/search/rank.go:77-90 | a fuzzy search keeps exactly the entries in which every term occurs |
| `YamlMerge.ApplyYAML` | internal/config/write.go:202-224 | at every depth the merged tree has the destination's order and comments and the source's values (the relation Dressed); it shows the source's content, tags included for plain trees; with keep, mappings that meet show the keys of both |
| `YamlMerge.ApplyMapping` | internal/config/write.go:233-263 | the destination's pairs that stay come first, in its order, each merged with the source's value; then the source's other pairs in its order; the destination's tag stays, so with plain values the tags are the source's if and only if the two mappings have one tag |
| `YamlMerge.OwnTagStays` | internal/config/write.go:233-263 | two mappings whose merge has the source's content and not its tag |
| `YamlMerge.ApplySequence` | internal/config/write.go:265-283 | each item of the source is merged with its partner in the destination, by id, by value or by position, or taken as it is; without keep the content is the source's if and only if items with one id of the destination agree |
| `YamlMerge.MatchItem` | internal/config/write.go:325-341 | the first unused item, for scalars the first with the same value |
| `YamlMerge.ApplyIdentified` | internal/config/write.go:285-314 | without keep each item shows the last source item with its id if the destination has that id, else its own; with keep and unique ids, itself merged with an item of the destination |
| `YamlMerge.RepeatedIdsIff` | internal/config/write.go:297-304 | with repeated ids the content is the source's if and only if items that share an id of the destination agree |
| `YamlLook.DressedMerges` | internal/config/write.go:202-314 | what a tree that looks like that shows |
| `YamlLook.LookAlongPaths` | internal/config/write.go:202-263 | at every path that both trees have the comments are the destination's; at a path that only the source has the subtree is the source's |
| `YamlContent.IdMeans` | internal/config/write.go:343-353 | the id of an item is the text under its first key id |
| `YamlFill.FillMissing` | internal/config/write.go:170-200 | the pairs of the destination keep their order and comments, the missing ones follow in the template's order, at every depth; the content is the destination filled from the template |
| `YamlFill.FilledAlongPaths` | internal/config/write.go:170-200 | every subtree keeps its comments, and scalars and sequences are untouched |
| `YamlFill.FillPaths` | internal/config/write.go:170-200 | a path that is there shows what it showed, filled in turn; a path missing from a mapping shows the template; no other path appears |
| `YamlFill.FillKeepsLeaves` | internal/config/write.go:183-197 | no scalar and no list that is there changes |
| `YamlFill.FillTwice` | internal/config/write.go:170-200 | filling again changes nothing |
| `YamlFill.MergeIsFill` | internal/config/write.go:202-263 | a merge that keeps keys is the source filled from the destination, if in lists that meet no item of the destination has anything to add |
| `YamlFill.MergeIsFillIff` | internal/config/write.go:202-283 | that is so for every pairing of list items if and only if no item of lists that meet has anything to add |
| `YamlFill.SaveOver` | internal/config/write.go:22-38 | saving over a file shows the new configuration, filled from the template, in the file's order and with its comments |
| `YamlFill.SavedComments` | internal/config/write.go:22-38 | at every path that the file and the configuration both have the file's comments are still there |
| `YamlFill.FirstWrite` | internal/config/write.go:39-46 | the first write, into a template whose lists hold scalars only, shows the same as a later write would, whatever lists the configuration has, as long as no id is in one of them twice |
| `YamlFill.ListItemsKeepKeys` | internal/config/write.go:265-283 | with a mapping in a list of the template it does not |
| `Snapshot.InternTable.Add` | internal/sync/checkpoint/snapshot.go:67-75 | an index in range that leads to the string; known strings add nothing |
| `Snapshot.EncodeSnapshot` | internal/sync/checkpoint/snapshot.go:77-112 | every index is in range and every row decodes to its entry |
| `Snapshot.DecodeEntries` | internal/sync/checkpoint/snapshot.go:114-166 | all rows, or an error exactly if an index is out of range |
| `Snapshot.RowIsRead` | internal/sync/checkpoint/snapshot.go:114-166 | a row is read column by column, four of them through the tables of their own kind |
| `Snapshot.RoundTrip` | internal/sync/checkpoint/snapshot.go:77-166 | decoding an encoded snapshot gives the entries back |
| `Snapshot.FileRoundTripIff` | internal/sync/checkpoint/snapshot.go:276-313 | a file decodes to what was encoded if and only if the nonce has 1 to 255 bytes |
| `Snapshot.FileLayout` | internal/sync/checkpoint/snapshot.go:276-286 | the bytes of a file |
| `Snapshot.FileIsRead` | internal/sync/checkpoint/snapshot.go:288-313 | a binary file is read if and only if it has that layout and a nonce; any other goes to the older reader |

## Left out

- Transports, sockets, PTY system calls, signals, the daemon, the TUI, shell hooks, importers and the setup wizard: input and output around the modelled core.
- AEAD, key derivation, CBOR, JSON, gzip and the terminal emulator: payloads appear decoded, or as an undecodable value; the older JSON snapshot wrapper is a parameter of `Snapshot.DecodeFile`.
- The sync engine, checkpoint creation and key rotation: a new checkpoint appears in `GcRuns` in one step, so a run that meets a half-written one is not modelled.
- decodeKittyKey, keyboardModeCSI, rewriteFocusTracking: parameters of the two key filters, which hold for any rewriting of a complete sequence.
- formatCPR and cprCell: small clamps.
- internal/history/advanced.go: advanced search, by SQL predicates or a match in memory.
- Fixed-width integers: int32 numbers in the cache, uint64 sequence numbers and int64 sums are unbounded here.
- The string pool of the cache is held as a value that the methods replace; sharing of slices between a record list and its copies is not modelled. Cache statistics are left out.
- HistoryCache.Cache.ApplyTombstoned: last-run fields of a command with runs left are the source's stale ones; agreement with the table claims ids, commands and counts only.
- Service.TombstoneEntries: drops the whole command from the cache by design.
- GarbageCollection.Evaluate: lists one store state; reading while others write is not modelled.
- GcRuns.DeletedBundlesAreCovered: needs pairwise comparable frontiers, as explained above.
- EventRange.Range: rows are numbered from 1, and a payload carries the device, number and time of its row, as appending writes them.
- Merge.HistoryTable.ApplyEvents: rows of the devices table, and timestamps of rows, are left out.
- QueryScan.QueryScanner.Feed: replies that need the cursor position are flagged, not computed.
- OutputPump.PumpOutput: the overlay flag, which holds back replies and frames, and the frames sent to the client are not modelled.
- HelpWalk.WalkComplete: probing is a function of the path, and saving a page always succeeds.
- WarmupJob.NextInv: every rewrite of the status file succeeds, and the worker does not crash; the unlocked first write by Start is not modelled.
- Ranking.RankWith: trimming, lower case and splitting are parameters; days are computed in integers instead of floating point.
- YamlMerge.ApplyYAML: trees are values; nodes shared between the source and the destination tree are not modelled, except that a repeated id makes one node two items. Key nodes are their text; aliases, anchors, styles and documents with several roots are left out.
- setMappingBool, schema comments and indentation of configuration files: formatting.
