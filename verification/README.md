# Smallstore: a verified model of its stateful cores

Smallstore routes data to many storage backends and keeps them consistent. This project models the parts of it
where state, failure and concurrency meet, and proves what those parts are for.

- **Three-way sync** (`Adapter`, `SyncDiff`, `SyncSpec`, `SyncAccounting`, `SyncPerKey`, `SyncGuarantees`,
  `SyncOutcomes`, `SyncFaults`, `SyncHistory`, `SyncBidirectional`, `SyncCopy`, `SyncModes`, `CompactHash`,
  `Numerals`). Two mutable stores are reconciled against a saved baseline of fingerprint pairs. An adapter is
  a class over a map; its backend may rewrite a value when it stores it, may fail any operation before or
  after its effect, and lists its keys in any order. `SyncSpec.Sync` says what one run does, for every fault
  schedule; `SyncBidirectional.SyncBidirectional` carries it out loop by loop on the adapters and is proved to
  do just that; every theorem is about `Sync`.
- **Lossless context store** (`LcmStore`, `LcmContext`, `LcmMaintenance`, `LcmLossless`, `LcmWorkingSet`,
  `LcmIntervals`, `LcmTexts`, `LcmWindow`, `LcmHandles`). A message log with a forest of summaries over it. A
  maintenance run is cut at its awaits; sessions interleave those stretches with arriving messages, other runs
  and reloads, and the completion behind each await may answer anything, answer nothing or throw. `LcmHandles`
  has several store objects over one log, for turns and runs that outlive a reload.
- **Per-key locking** (`RouterOps`, `RouterLocks`, `RouterLinearizable`, `RouterEffects`, `RouterConflicts`).
  Append, merge, patch and delete-from-array calls become tasks that take a data lock, read, write, visit the
  key index under its own lock, and release; a plain get takes no data lock, and when it finds nothing or a
  falsy value it visits the index to clear the key's entry. A folder-like object written at the root of a
  collection is split over sub-keys, before any lock for append and merge, and without the sub-keys' locks for
  patch. A schedule is any sequence of task steps.
- **Deduplication** (`Deduplicate`): each strategy against first or last occurrences.
- **Write-back cache** (`SheetlogKv`): preload, pending sets and a flush in two network calls, interleaved
  with operations.
- **Migrations and search index** (`D1Migrations`, `D1Concurrent`, `D1Rows`): a runner that may stop between
  any two statements, any number of runners interleaved statement by statement, row encoding, and an index
  kept by triggers.
- **Virtual file system** (`VfsPath`, `VfsTokens`): path resolution and the command-line tokenizer.

`Outcomes` holds the result types every module shares, `Strings` splitting and joining, `Selection` what
filtering leaves. `dafny verify dfyconfig.toml` checks the project.

## Where the code and its promise part

Each point names the members that state it, with the exact condition where there is one.

- When a run settles, the baseline records what the stores then hold, whatever failed, except that a key the
  run set out to delete gets no entry (`EntriesTellTheTruth`). So a key left on one side only (a failed push,
  a transform that returns null to skip, a skipped edit/delete conflict) gets a half-empty entry, and the next
  run reads the empty half as a deletion and removes the survivor: of a new value, exactly when its push did
  not arrive (`FailedPushIsDeletedIff`, `SkippedKeyIsDeletedNext`, `HalfPresentAfterFaultsIsDeletedNext`,
  `OneSidedKeyIsDeletedIff`). And a deletion is undone by the next run exactly when it threw before its effect
  (`FailedSourceDeletionIsUndoneIff`, `FailedTargetDeletionIsUndoneIff`). In a healthy setting the next run
  leaves a key alone exactly when the first left it on both sides or neither (`RerunQuietIff`).
- The warning after a failed save says that its keys will be synced again. The next run starts from the old
  baseline: a key the failed run carried is quiet exactly when the two sides' fingerprints agree, and
  otherwise a conflict, unless the other side still reads as the old baseline has it (`RunAfterLostRecord`).
- Fingerprints are 32-bit: two texts share one exactly when their polynomials agree modulo 2^32, and such
  texts exist (`HashEqualIff`, `HashCollision`). To the sync, two values with one fingerprint are equal.
- The path `a:b` and the path `a/b` share a storage key but not a lock, and a folder-like object appended at
  the root of a collection never lands at the root's own key. Appends through two paths with one key keep both
  items in every schedule exactly when the paths name one collection and neither item is split
  (`AppendsSurviveIff`, `AliasedPaths`).
- A patch at the root whose result is folder-like writes sub-keys without their locks. With an append at a
  sub-path it amounts to one order or the other, in every schedule, exactly when the patch does not spread a
  value to that sub-path (`PatchAndAppendAreSerialIff`, `SplittingPatch`).
- A stored key can drop out of the key index. A deleteFromArray, or a patch that splits, that reads a falsy
  value drops it; so does a plain get that read nothing or a falsy value and later finds the key in the index,
  even when an append has stored it in between (`StoredStaysIndexedIff`, `ReaderClearsIff`,
  `StoredKeyLeavesTheIndex`, `FalsyReadClears`, `LateReaderClears`). A stored key is indexed exactly when no
  such drop comes after its last write (`StoredAndIndexedIff`).
- The collections named `meta` and `index` have paths to the keys under which schemas and key indexes are kept
  (`OwnRecordsAreAddressable`).
- The working-set bound `keepLastN + chunkSize` holds after every history of answered turns exactly when it is
  at least 4, since maintenance waits for a fifth message (`WorkingSetBoundIff`).
- With `keepLastN` at 0, the fallback's `slice(0, -0)` is empty and archives nothing (`FallbackKeepsNewest`).
- Loading a session again makes a second store object over the same log, while turns and runs in flight keep
  the first. Identifiers stay unique exactly as long as whoever adds a message has seen every message, and
  whoever adds a summary every summary (`IdsStayUniqueIff`, `UniqueHistoriesIff`, `ReloadDuringTurnCollides`,
  `SharedReloadCollides`).
- Content-hash deduplication that keeps the last drops null items, exactly when there are any
  (`SlotsKeepLastIff`). By id, keeping the last puts each last item in its first's place (`SamePlaces`,
  `LastInFirstPlaceIsLast`).
- A deleted key whose row id was never learnt (it was written after the preload) stays on the sheet and comes
  back at the next preload, whatever else is flushed with it (`DeletionReachesSheetIff`,
  `FlushSettlesSheetIff`, `DeletedKeyStaysOnSheet`).
- Migration runners are safe to call again, but two at once can both record a step, and the second is
  rejected, exactly when the first recorded it since the second looked. The database stays in order
  nevertheless (`ConcurrentRunsComplete`, `TwoRunnersCollide`).
- The two update triggers keep the search index only if the delete fires before the insert; SQLite leaves the
  order of two AFTER UPDATE triggers open (`TriggersMirrorIff`).
- Row encoding does not tell an empty string, a null or a missing source from absence (`RowRoundTripIff`).
- An absolute path keeps its `.` and `..` segments; only relative targets drop them (`ResolveIsCleanIff`).
- `set(key, undefined)` happens before `compactHash(undefined)` throws, so a transform that routes an
  undefined value writes it and is then reported as an error (`TransformedValueIsPushed`, `CarryingIsReported`).

## Model

| member | source | states |
|---|---|---|
| CompactHash.CompactHash | src/sync.ts:168-175 | the loop over signed 32-bit values computes the specified fold, and each sum it cuts back to 32 bits is within a double's exact range |
| CompactHash.Djb2IsPolynomial | src/sync.ts:168-175 | for every string the loop's value is 5381·33^n + Σ c_i·33^(n-1-i) modulo 2^32, and fits a signed word |
| CompactHash.HashShape | src/sync.ts:168-175 | the fingerprint is always eight hexadecimal digits that spell that polynomial modulo 2^32 |
| CompactHash.HashEqualIff | src/sync.ts:168-175 | two strings share a fingerprint exactly when their polynomials agree modulo 2^32 |
| CompactHash.HashCollision | src/sync.ts:168-175 | two different two-character strings with one fingerprint |
| SyncDiff.ComputeSyncDiff | src/sync.ts:243-343 | the loop over source, target and baseline keys fills the six lists with the selections of each class, in listing order; keys only the baseline knows land nowhere |
| SyncDiff.DiffIsPartition | src/sync.ts:266-340 | a key some side holds is in exactly one of the six lists, once; any other key is in none |
| SyncDiff.DiffIsSymmetric | src/sync.ts:266-340 | swapping the sides and the baseline's two hashes swaps push with pull and the two delete lists, and fixes conflicts and unchanged keys |
| SyncBidirectional.SyncBidirectional | src/sync.ts:447-757 | the method leaves the adapters, and returns or rejects, as the specification says, for every fault schedule, transform, callback and listing order, one adapter given in several roles included |
| SyncBidirectional.KeepRecord | src/sync.ts:701-754 | step 9: the baseline is rebuilt, saved and returned; a failed save is swallowed, a failed read rejects |
| SyncBidirectional.ScanSide | src/sync.ts:475-499 | the scan loop reads every listed key but baseline keys into a snapshot by source-space key, and stops where a read throws |
| SyncBidirectional.ExecutePushes | src/sync.ts:521-562 | the push loop carries out the push jobs, transform, write and report included |
| SyncBidirectional.ExecutePulls | src/sync.ts:565-599 | the pull loop carries out the pull jobs |
| SyncBidirectional.ExecuteDeletions | src/sync.ts:602-626 | the deletion loop carries out both kinds of deletion, target keys under the target prefix |
| SyncBidirectional.ExecuteConflicts | src/sync.ts:629-699 | the conflict loop carries out each policy, the callback's partial writes included |
| SyncBidirectional.RebuildBaseline | src/sync.ts:709-740 | the rebuilding loop re-reads what had a job, leaves out deleted keys, keeps scanned hashes otherwise, and rejects when a read throws |
| SyncAccounting.SyncAccountsForEveryKey | src/sync.ts:519-699 | for arbitrary failures, transforms and callbacks, counters equal their lists' lengths and the result's lists together hold exactly the keys the diff assigned, each once |
| SyncPerKey.SyncActsOnKey | src/sync.ts:447-757 | a failure-free run does to each in-scope key what its two values and its baseline entry alone determine, whatever else is synced, and records in the new baseline exactly what a reader then finds |
| SyncPerKey.ScanFinds | src/sync.ts:475-499 | the snapshot of a scan that goes through maps a key to what the store holds under prefix and key, baseline keys apart |
| SyncPerKey.RunHere | src/sync.ts:519-699 | in a run over jobs with distinct keys, a key ends as its one job alone leaves it |
| SyncPerKey.EntriesTellTheTruth | src/sync.ts:701-754 | whatever failed, when a run settles the entry of a key is the fingerprint pair of what the stores then hold, except that a key the run set out to delete has none |
| SyncPerKey.RebuildEntry | src/sync.ts:709-740 | a rebuild that goes through records a key as found, or not at all after a deletion, and writes nothing |
| SyncPerKey.NextRunStartsFromBaseline | src/sync.ts:192-233 | when packing survives the home adapter's rewriting, the next run loads the very baseline this run returned |
| SyncOutcomes.TransformedValueIsPushed | src/sync.ts:521-562 | a key pushed or won by the source reads on the target as the target's rewriting of what the caller's transform made of the source's value, as absent when that is no value, and as before when the transform threw or answered null |
| SyncOutcomes.TransformedValueIsPulled | src/sync.ts:565-599 | the same for pulls and keys the target wins, with the transform applied to the target's value |
| SyncOutcomes.PlainValueGoesOver | src/sync.ts:521-599 | without a transform the value itself goes over, or its absence |
| SyncOutcomes.PickedValueIsWritten | src/sync.ts:671-691 | what the conflict callback picks reads on the sides it names, and the others stay |
| SyncOutcomes.RenamedValueArrives | src/sync.ts:526-540 | a transform may rename: the write goes to its key, holds what it made, and touches no other cell |
| SyncOutcomes.RenamedValueComesBack | src/sync.ts:570-584 | the same for pulls and keys the target wins |
| SyncOutcomes.OtherKeysStay | src/sync.ts:468-469 | keys outside the prefix keep their values on both sides |
| SyncOutcomes.FingerprintsAgreeIff | src/sync.ts:159-175 | two values count as equal exactly when the polynomials of their texts agree modulo 2^32 |
| SyncOutcomes.BaselinesAreApart | src/sync.ts:186-190 | different sync identifiers have different baseline keys, all under the reserved prefix |
| SyncOutcomes.ExplicitBaselineIsNotSaved | src/sync.ts:702-753 | with an explicit baseline, or without a sync identifier, the result has no baseline |
| SyncOutcomes.ConflictIff | src/sync.ts:266-340 | against a complete entry or none a key is a conflict exactly when both sides changed and do not agree |
| SyncOutcomes.UndetectedIsCarried | src/sync.ts:281-316 | without detection a key on one side only is carried to the other, whatever the entry |
| SyncOutcomes.CarryingIsReported | src/sync.ts:545-599 | a pushed or pulled key is reported as created or updated by whether the other side had it, as skipped when the transform answered null, as an error when it threw or gave undefined |
| SyncOutcomes.DeletionIsReported | src/sync.ts:602-626 | a deleted key is reported as deleted |
| SyncOutcomes.ConflictIsReported | src/sync.ts:629-699 | how each policy and each answer of the callback is reported |
| SyncOutcomes.QuietKeyIsNotReported | src/sync.ts:519-699 | an unchanged or absent key is in no list |
| SyncOutcomes.ScanKeepsOrder | src/sync.ts:475-499 | a scan meets the keys it keeps in the order in which they are listed |
| SyncOutcomes.ListsFollowJobs | src/sync.ts:519-699 | every job gets one verdict, and each list has its keys in the order of the jobs |
| SyncGuarantees.NoLostUpdate | src/sync.ts:266-340 | since a complete baseline, a change on one side only carries that side's value or absence to the other whatever the conflict policy, and a key changed on neither side is untouched |
| SyncGuarantees.PlainChangeReachesBothSides | src/sync.ts:519-623 | with plain stores and no transform, a one-sided change ends up verbatim on both sides |
| SyncGuarantees.RerunClass | src/sync.ts:709-740 | how the next run classifies each key: unchanged when the first run left it on both sides, deleted when on one |
| SyncGuarantees.RerunQuietIff | src/sync.ts:709-740 | the next run leaves a key alone exactly when the first left it on both sides or on neither |
| SyncGuarantees.HalfPresentKeyIsDeletedNext | src/sync.ts:725-739 | in a healthy setting, a key the first run left on one side only is gone from both after the second |
| SyncFaults.HalfPresentAfterFaultsIsDeletedNext | src/sync.ts:725-739 | whatever failed in the first run, a key it left on one side only, and did not set out to delete, is gone from both after the next healthy run |
| SyncFaults.FailedPushIsDeletedIff | src/sync.ts:521-562 | a value new on the source is gone from both sides after the next healthy run exactly when its push did not arrive, as the transform gave no value to write or the write threw before its effect; a throwing write is reported as an error, and a push that threw after its effect does no harm |
| SyncFaults.FailedSourceDeletionIsUndoneIff | src/sync.ts:602-626 | a key to be deleted from the source is gone from both sides after the next healthy run exactly when the deletion did not throw before its effect; otherwise that run pushes it back |
| SyncFaults.FailedTargetDeletionIsUndoneIff | src/sync.ts:602-626 | the same for a key to be deleted from the target, which the next run otherwise pulls back |
| SyncFaults.OldBaselineStays | src/sync.ts:742-750 | when the baseline cannot be rebuilt or its save throws before its effect, the next run starts from the old baseline, on the stores as the jobs left them |
| SyncFaults.RunAfterLostRecord | src/sync.ts:742-750 | after such a run that did its jobs, a key it left alone or deleted is quiet; a key it carried to the other side is quiet exactly when the fingerprints agree, otherwise a conflict, or carried again if the other side reads as the old baseline has it |
| SyncGuarantees.SkippedKeyIsDeletedNext | src/sync.ts:529-532 | a null transform on a key new on the source keeps it in the first run and destroys it in the second |
| SyncGuarantees.OneSidedKeyIsDeletedIff | src/sync.ts:280-296 | a key held by the source alone is deleted there exactly when its baseline entry has its fingerprint, however half-empty that entry is |
| SyncGuarantees.PresenceAgrees | src/sync.ts:519-699 | with value-preserving transforms and callbacks and no edit/delete conflict, a run leaves each key on both sides or on neither |
| SyncGuarantees.RerunIsQuiet | src/sync.ts:447-757 | quiescence: after such a run, with arbitrary canonicalisation on write and any target prefix under which every handled key is in scope, running again finds every key unchanged, reports nothing, leaves every store's data as it was and returns the same baseline |
| SyncGuarantees.NoPrefixIsScoped | src/sync.ts:475-499 | without a target prefix every handled key is in scope |
| SyncGuarantees.RunStaysScoped | src/sync.ts:447-757 | and with one, a run keeps it so |
| SyncGuarantees.RerunRebuildsTheSameBaseline | src/sync.ts:702-753 | the second run's entries equal the first's, key by key |
| SyncGuarantees.DryRunWritesNothing | src/sync.ts:536-623 | a dry run changes no store, whatever fails |
| SyncGuarantees.DryRunPredicts | src/sync.ts:447-757 | a dry run reports exactly the lists and counters the failure-free real run then reports |
| SyncHistory.HistoriesConverge | src/sync.ts:501-753 | from a null or agreed baseline, after any sequence of edits and syncs, one more sync makes both stores equal on every in-scope key and leaves a baseline whose two hashes agree |
| SyncCopy.CopyKeys | src/sync.ts:347-443 | the copying loop leaves both adapters, and returns or rejects, as the specification says, for every fault schedule |
| SyncCopy.CopyAccounts | src/sync.ts:371-442 | whatever fails and whatever the transform does, each listed key has one line of the report, under its own key when skipped or failed and under the key its value was sent to when written; each list holds just the names with its verdict, in order, and each counter is its list's length |
| SyncCopy.KeyPreservingCopyAccounts | src/sync.ts:371-442 | when keys are written under themselves, the lists together hold exactly the listed keys |
| SyncCopy.CopyHere | src/sync.ts:371-442 | a listed key with a value and a destination arrives there by the overwrite and equality rules, whatever else is copied |
| SyncCopy.CopyArrives | src/sync.ts:371-442 | the same for one key that no other listed key shares a destination with |
| SyncCopy.CopyIsReported | src/sync.ts:383-436 | how copying one value is reported, and under which key |
| SyncCopy.FilterSelects | src/sync.ts:366-369 | the keys to copy are the listed ones that are kept, in listing order |
| SyncCopy.DryCopyWritesNothing | src/sync.ts:412-415 | a dry copy writes nothing, whatever fails |
| SyncCopy.CopyKeepsPresent | src/sync.ts:397-401 | without overwriting, whatever the destination holds stays, whatever fails |
| SyncCopy.CopyElsewhere | src/sync.ts:371-442 | cells no listed key is routed to keep their contents |
| SyncCopy.DryCopyPredicts | src/sync.ts:347-443 | when keys map apart, a dry copy writes nothing and reports what the failure-free copy reports |
| SyncCopy.MergeAccounts | src/sync.ts:133-152 | merging two results keeps counters equal to lists and every reported key |
| SyncCopy.MergeKeepsLists | src/sync.ts:133-152 | each merged list is the first's followed by the second's, and the second's baseline goes before the first's |
| SyncModes.SyncAdapters | src/sync.ts:769-876 | each mode does what its specification says to the two stores, or to the one given as both; in every mode a dry run leaves all data as it was, and without overwriting a copying mode leaves all that its destination holds, whatever fails |
| SyncModes.PushDelivers | src/sync.ts:785-799 | from the caller's options: a push gives the caller's transform the source's key and value and puts what it answers under the key it answers, by the overwrite and skip rules |
| SyncModes.PushSpares | src/sync.ts:785-799 | a cell no key is sent to stays as it was |
| SyncModes.PullDelivers | src/sync.ts:801-819 | a pull gives the transform the key without the target prefix, and puts what it answers on the source |
| SyncModes.LegacyPushDelivers | src/sync.ts:850-855 | without a baseline, a value only the source has goes to the target as a push sends it |
| SyncModes.LegacyPullDelivers | src/sync.ts:857-873 | and a value only the target has, that no pushed one replaces, comes back as a pull brings it |
| SyncModes.SyncWithoutBaseline | src/sync.ts:827-875 | the set-difference sync: push what only the source lists, then pull what only the target lists, merge the two reports |
| SyncModes.PushThenPullRestores | src/sync.ts:797-819 | push then pull with one target prefix into an empty store restores exactly the pushed keys and values when nothing else lay under the prefix |
| SyncModes.LegacySyncUnites | src/sync.ts:827-875 | without a baseline, a key stored on both sides is left alone on both and a key stored on one reaches the other |
| LcmStore.NumberReadsBack | apps/self-interview/lcm.ts:85-120 | the number read back from an identifier's text is the one it was made from, past three digits too |
| LcmStore.RenderIsInjective | apps/self-interview/lcm.ts:85-87 | identifiers with the same text are the same |
| LcmStore.NumbersHaveThreeDigits | apps/self-interview/lcm.ts:85-87 | identifiers are padded to three digits below a thousand and plain from there on |
| LcmStore.LCMStore.constructor | apps/self-interview/lcm.ts:94-120 | a store over persisted data has the counters that data calls for |
| LcmStore.LCMStore.AppendMessage | apps/self-interview/lcm.ts:133-146 | the log grows by one active message numbered by the counter, which moves on |
| LcmStore.LCMStore.ArchiveMessages | apps/self-interview/lcm.ts:157-163 | exactly the named messages that are still active get the owner; archived ones keep theirs |
| LcmStore.LCMStore.AddSummaryNode | apps/self-interview/lcm.ts:167-193 | a visible summary with the range of the covered messages that are found, or 0 to 0 |
| LcmStore.LCMStore.ConsumeSummaries | apps/self-interview/lcm.ts:199-205 | exactly the named summaries get the parent |
| LcmContext.AssembleContext | apps/self-interview/lcm.ts:292-341 | the loop that extends the last turn or adds one builds the specified window |
| LcmContext.ContextKeepsConversation | apps/self-interview/lcm.ts:292-341 | for every store, roles alternate after the system turn, and the turns joined by blank lines are all active messages joined by blank lines, in order |
| LcmContext.SortOrders | apps/self-interview/lcm.ts:303-308 | sorting summaries by range start permutes and orders them, and leaves an ordered list as it is |
| LcmContext.SortIsStable | apps/self-interview/lcm.ts:303-308 | summaries with one range start keep their order |
| LcmWindow.SystemTurnTells | apps/self-interview/lcm.ts:292-323 | the system turn is the prompt alone exactly when no summary is visible; otherwise it adds the heading, the hidden count exactly when some are hidden, and one line for each of the latest ones by range start, in that order, with identifier, range and text |
| LcmWindow.WindowIsTheConversation | apps/self-interview/lcm.ts:319-331 | after it each turn is a run of active messages of its role, their texts joined by blank lines, all of them in order |
| LcmWindow.ActiveMeans | apps/self-interview/lcm.ts:148-150 | the active messages are those nobody has archived, in order |
| LcmWindow.TokensAdd | apps/self-interview/lcm.ts:333-338 | the size of a window is the sum of its turns' estimates |
| LcmWindow.JoinConcat | apps/self-interview/lcm.ts:327-327 | joining puts the separator between neighbours and nowhere else |
| LcmWindow.BeginsIff | apps/self-interview/engine.ts:544-546 | a run starts only on more than four messages, and with the oldest chunk exactly when there are more active ones than keepLastN + chunkSize |
| LcmWindow.CompactsIff | apps/self-interview/lcm.ts:394-400 | after a chunk, summaries are compacted exactly when three of level 1 are visible, all but one that starts no earlier than the others |
| LcmWindow.EscalatesIff | apps/self-interview/lcm.ts:432-450 | the second stage measures the window with every summary, rests below the soft threshold, asks when two messages can go, and else falls back only at the hard one |
| LcmWindow.EscalationStops | apps/self-interview/lcm.ts:461-465 | an escalation that came to nothing ends there below the hard threshold |
| LcmMaintenance.ResumeRun | apps/self-interview/lcm.ts:354-483 | each stretch between two awaits, on the mutable store, does what the run machine says and waits where it says |
| LcmTexts.AnswerBecomesSummary | apps/self-interview/lcm.ts:385-418 | an answered chunk or escalation adds a level-1 summary of just its messages whose text is the sanitized answer, an answered compaction a level-2 one |
| LcmTexts.FallbackSummaryTells | apps/self-interview/lcm.ts:469-480 | a summary the fallback adds names, in order, the role and the opening of each message it archived |
| LcmTexts.RecordsStay | apps/self-interview/lcm.ts:133-205 | however a history goes on, no message, archiver, summary, range or text on record is rewritten |
| LcmTexts.LogIsWhatArrived | apps/self-interview/lcm.ts:133-146 | the log is what arrived, in order, word for word, whatever maintenance did |
| LcmTexts.TextsAreSourced | apps/self-interview/lcm.ts:385-480 | every summary text is some completion's answer without scaffolding, or the fallback's |
| LcmLossless.MemoryIsLossless | apps/self-interview/lcm.ts:108-205 | for one store object, under any interleaving of arrivals and concurrent runs: identifier texts are unique, parents are newer than children, and each archived message is covered by a visible summary one or two links up |
| LcmLossless.ReloadRestores | apps/self-interview/lcm.ts:94-129 | loading persisted data restores the counters in use |
| LcmHandles.IdsStayUniqueIff | apps/self-interview/lcm.ts:94-120 | with any number of store objects over one log, and runs that outlive reloads, an event keeps all identifiers unique, and the log sound, exactly when an append comes from an object that has seen every message and an added summary from one that has seen every summary |
| LcmHandles.SharedMemoryIsLossless | apps/self-interview/engine.ts:312-344 | the lossless-memory guarantee holds across reloads with turns and runs still going on replaced objects, as long as every step meets that condition |
| LcmHandles.NewestHandleIsSafe | apps/self-interview/engine.ts:335-337 | if only the newest object ever adds to the log, every step meets it |
| LcmHandles.UniqueHistoriesIff | apps/self-interview/lcm.ts:94-120 | over every history, all identifiers are unique in the end exactly when every step met that condition |
| LcmHandles.AddsIff | apps/self-interview/lcm.ts:354-483 | a stretch adds a summary exactly as the stage of the run, the completion and the token thresholds say |
| LcmHandles.ReloadDuringTurnCollides | apps/self-interview/engine.ts:398-430 | for any sound log that has been saved: when the session is loaded again during a turn, the next messages from the new object and from the old get one identifier |
| LcmHandles.SharedReloadCollides | apps/self-interview/engine.ts:312-344 | such a history: a whole turn, a save, a question, the session loaded again, a question there, and the answer to the first |
| LcmHandles.SharedLogIsWhatWasWritten | apps/self-interview/lcm.ts:133-205 | with several objects over one log, even where identifiers collide, the log is what was written, in order, and no summary on record is rewritten |
| LcmWorkingSet.NewestStayActive | apps/self-interview/lcm.ts:359-482 | in any interleaving, the newest keepLastN messages of the log are active, and nothing a run holds names one of them |
| LcmWorkingSet.FallbackKeepsNewest | apps/self-interview/lcm.ts:469-482 | escalation level 2 leaves active exactly the newest keepLastN active messages, and all of them when keepLastN is 0 |
| LcmWorkingSet.FourStretchesFinish | apps/self-interview/engine.ts:535-562 | a maintenance run is over after at most four stretches whatever the completions do |
| LcmWorkingSet.WorkingSetIsBounded | apps/self-interview/lcm.ts:359-482 | sequential answered turns with chunkSize at least 2 keep the active messages at or below keepLastN + chunkSize, or 4 if larger |
| LcmWorkingSet.WorkingSetBoundIff | apps/self-interview/engine.ts:545-545 | keepLastN + chunkSize itself bounds every such history exactly when it is at least 4 |
| LcmIntervals.SerialRunsTileTheLog | apps/self-interview/lcm.ts:354-483 | with at most one run in flight and arrivals at any moment, active messages are a suffix of the log and the visible summaries, level 2 before level 1, are adjacent intervals covering exactly the archived prefix |
| LcmIntervals.TilesAreDisjoint | apps/self-interview/lcm.ts:167-193 | different summaries of such a tiling share no message |
| RouterOps.NameClashGoesUp | src/router.ts:2438-2440 | a data lock can share its name only with the index lock of a strictly longer collection, never its own |
| RouterOps.Partition | src/router.ts:812-821 | the loop sorts the items into those the filter rejects and those it takes, in order |
| RouterOps.PartitionLosesNothing | src/router.ts:812-821 | kept and deleted items are together all the items, with multiplicity, and the filter tells them apart |
| RouterOps.LeavesAreSettled | src/router.ts:481-489 | what set() writes in the end is not split again |
| RouterOps.LeavesStay | src/router.ts:481-489 | a split writes in its own collection only |
| RouterOps.SplitLeavesAreSmaller | src/router.ts:605-631 | a split writes proper parts of the object, never the object itself |
| RouterOps.OwnRecordsAreAddressable | src/utils/path.ts:162-250 | data paths in the collections meta and index have the keys of schemas and key indexes |
| RouterEffects.KeysTellPathsApart | src/utils/path.ts:107-110 | paths without colons have one storage key exactly when they are one path |
| RouterEffects.HeterogeneousIff | src/router.ts:605-631 | an object is split exactly when two of its properties are arrays or objects |
| RouterEffects.SplitKeepsEveryProperty | src/router.ts:481-489 | a split writes each property, whole and in order, at the path of its name |
| RouterEffects.NamelessPropertyStaysAtRoot | src/router.ts:481-489 | a property whose name has no segment is written at the root again |
| RouterEffects.CallsExpand | src/router.ts:481-489 | a call is one task for each value it writes, in turn |
| RouterLocks.StepKeepsExclusive | src/utils/async-lock.ts:5-24 | at every step the lock table says exactly which task holds which lock |
| RouterLocks.NoDeadlock | src/router.ts:501-592 | while some task is unfinished some task can step, even where a data lock and an index lock share a name |
| RouterLocks.StepAdvances | src/router.ts:785-836 | a step that can be taken moves its own task on and no other |
| RouterLocks.EveryScheduleCanFinish | src/router.ts:501-592 | whatever schedule has run, the tasks can still all be finished |
| RouterLinearizable.SchedulesAreSerial | src/router.ts:481-592 | for any calls, plain gets included, once all is done, in any schedule, each read-modify-write took effect once, on each key in the order of its locks, and every key whose tasks share a lock and that no splitting patch wrote holds, and is indexed, as running these one by one in that order makes it, with the gets that cleared its index entry in between |
| RouterEffects.ValuesByTurns | src/router.ts:501-836 | in every finished schedule the value under a key passes from first to last by the calls on it in the order of their locks, each doing what it promises: an append adds its item, a merge or patch overlays its properties, a deleteFromArray keeps just the items the filter rejects and leaves anything else alone |
| RouterEffects.SpreadOverlays | src/router.ts:527-529 | overlaying keeps every property of the new object and those of the old it does not name, in their places |
| RouterEffects.RestIsSelected | src/router.ts:812-821 | what deleteFromArray keeps is the items the filter rejects, in order, with multiplicity |
| RouterLinearizable.TameRunsSpreadNothing | src/router.ts:637-667 | patches at sub-paths never split, so then no key is left out |
| RouterLinearizable.AppendsAllLand | src/router.ts:481-560 | concurrent appends, with any gets among them, leave under each key what was there at first and everything they append there, parts of split objects included, in lock order, none lost or repeated |
| RouterLinearizable.IndexUpdatesAreNotLost | src/router.ts:2438-2515 | in every finished schedule a key is in its collection's index exactly when the last task to touch its entry, gets included, wrote the key, or none did and it was there from the start |
| RouterLinearizable.ReaderClearsIff | src/router.ts:359-377 | a finished plain get has cleared its key's index entry exactly when it read nothing or a falsy value at one step and found the key in the index at a later one |
| RouterLinearizable.StoredStaysIndexedIff | src/router.ts:365-377 | a stored, indexed key stays indexed through a task unless the task is a get that takes effect, or the value is falsy and the task is a deleteFromArray or a splitting patch |
| RouterLinearizable.StoredAndIndexedIff | src/router.ts:365-377 | in every finished schedule, gets included, a stored key is indexed exactly when no such drop comes after its last write |
| RouterConflicts.StoredKeyLeavesTheIndex | src/router.ts:785-796 | a merge of a falsy value and then a deleteFromArray leave the value stored and its key out of the index |
| RouterConflicts.FalsyReadClears | src/router.ts:365-377 | a merge of a falsy value and then a plain get leave the value stored and its key out of the index |
| RouterConflicts.LateReaderClears | src/router.ts:365-377 | a get that reads before an append writes and looks into the index after it leaves the array stored and its key out of the index |
| RouterConflicts.AppendsSurviveIff | src/router.ts:481-506 | where two paths share a storage key, whatever is stored, appends through them keep both items and what was there in every schedule exactly when they name one collection and neither item is an object split at the root |
| RouterConflicts.SplitAppendIsLost | src/router.ts:481-489 | when an item splits, a finished schedule leaves the key without it |
| RouterConflicts.AliasedAppendIsLost | src/router.ts:501-506 | two locks for one storage key: a schedule in which the second write erases the first |
| RouterConflicts.AliasedPaths | src/utils/path.ts:107-110 | the paths a:b and a/b have one storage key and two collections |
| RouterConflicts.PatchAndAppendAreSerialIff | src/router.ts:637-667 | the calls of a patch and of an append to another key of the collection amount to one order or the other, for every item that is not itself split, every prior value and schedule, exactly when the patch spreads no value to that key |
| RouterConflicts.SpreadWriteIsLost | src/router.ts:657-657 | a schedule in which the value a patch spreads is overwritten by an append that had read before it |
| RouterConflicts.SplittingPatch | src/router.ts:605-631 | a patch of two array fields at a root spreads to a sub-path |
| RouterConflicts.SplittingPatchWrites | src/router.ts:481-489 | a patch whose result splits, alone, leaves under every key the last part that goes there, or what was there, and indexes every part |
| Deduplicate.KeepFirst | src/router.ts:1901-1910 | the loop with a set of seen keys yields the first occurrences |
| Deduplicate.KeepLastByFilter | src/router.ts:1911-1927 | the loop that filters out what is superseded yields the last occurrences |
| Deduplicate.KeepLastBySlots | src/router.ts:1885-1900 | the index map with nulled slots yields the last occurrences that are not null |
| Deduplicate.ById | src/router.ts:1865-1883 | the insertion-ordered map yields, among items with an id, the first occurrences, or the last in the places of the first |
| Deduplicate.FirstKeepsOnePerKey | src/router.ts:1901-1910 | first occurrences: one item for each key present and no other |
| Deduplicate.LastKeepsOnePerKey | src/router.ts:1911-1927 | last occurrences: one item for each key present and no other |
| Deduplicate.FirstAreFirst | src/router.ts:1901-1910 | what is kept is the items without an earlier one of their key, in place |
| Deduplicate.LastAreLast | src/router.ts:1911-1927 | what is kept is the items without a later one of their key, in place |
| Deduplicate.WithIdSelects | src/router.ts:1865-1883 | by id, items without one are dropped and the others keep their order |
| Deduplicate.NonNullConcat | src/router.ts:1898-1900 | filtering out the nulled slots keeps the order |
| Deduplicate.NonNullOfOne | src/router.ts:1898-1900 | and drops each null and nothing else |
| Deduplicate.Idempotent | src/router.ts:1901-1936 | deduplicating again by content or by fields changes nothing, in both modes |
| Deduplicate.ByIdIsIdempotent | src/router.ts:1865-1883 | nor by id, in both modes, items without an id included |
| Deduplicate.SlotsAreIdempotent | src/router.ts:1885-1900 | nor by the slot scheme |
| Deduplicate.LastIsFirstBackwards | src/router.ts:1885-1927 | keeping the last is keeping the first of the reversed list |
| Deduplicate.SlotsKeepLastIff | src/router.ts:1885-1900 | the slot scheme gives the last occurrences exactly when no item is null |
| Deduplicate.SamePlaces | src/router.ts:1865-1883 | both id modes list the same keys in the same places |
| Deduplicate.LastInFirstPlaceIsLast | src/router.ts:1865-1883 | keeping the last by id keeps the same items as the last occurrences |
| SheetlogKv.SheetlogKV.Preload | apps/self-interview/sheetlog-kv.ts:74-100 | loading the listed rows one by one fills cache and row ids from the sheet, in whatever order they are listed |
| SheetlogKv.SheetlogKV.Put | apps/self-interview/sheetlog-kv.ts:155-161 | a write reaches the cache, becomes pending and revokes a pending deletion |
| SheetlogKv.SheetlogKV.Remove | apps/self-interview/sheetlog-kv.ts:163-169 | a deletion leaves the cache, revokes a pending write and becomes pending |
| SheetlogKv.SheetlogKV.StartFlush | apps/self-interview/sheetlog-kv.ts:107-126 | a flush takes and clears the pending sets and sends the cached values of the written keys |
| SheetlogKv.ReadsMatchPlainMap | apps/self-interview/sheetlog-kv.ts:60-169 | in every history, reads match a plain map from the moment the preload is in, and no write is lost to it |
| SheetlogKv.QuietSheetEqualsCache | apps/self-interview/sheetlog-kv.ts:60-169 | in every history with operations between a flush's calls, once nothing is pending the sheet reads as the cache, if deleted keys had known row ids |
| SheetlogKv.SheetlogKV.FinishUpserts | apps/self-interview/sheetlog-kv.ts:126-134 | after the upserts the flush goes on to delete the rows whose ids are then known |
| SheetlogKv.SheetlogKV.FinishDeletions | apps/self-interview/sheetlog-kv.ts:134-139 | after the deletions the row ids of all doomed keys are forgotten |
| SheetlogKv.DeletionReachesSheetIff | apps/self-interview/sheetlog-kv.ts:107-141 | whatever is pending, a flush removes a deleted key's row exactly when its row id is known |
| SheetlogKv.DeletedKeyStaysOnSheet | apps/self-interview/sheetlog-kv.ts:107-169 | a history from a fresh adapter: a key new since the preload is written and flushed, deleted and flushed; nothing is pending, and the sheet keeps it |
| SheetlogKv.FlushSettlesSheetIff | apps/self-interview/sheetlog-kv.ts:107-141 | whatever is pending, one undisturbed flush makes the sheet read as the cache exactly when every deleted key on the sheet has a known row id |
| D1Migrations.ApplyMessagingMigrations | src/adapters/cloudflare-d1-messaging-schema.ts:192-216 | the runner's loop, stopped after any number of statements, leaves the database as the specification says |
| D1Migrations.MigrationsResume | src/adapters/cloudflare-d1-messaging-schema.ts:119-216 | after any runs stopped anywhere, recorded steps are applied and recorded once, no statement fails, and a full run ends with all ten applied and recorded in order, after which running again changes nothing |
| D1Migrations.SchemaIsWhole | src/adapters/cloudflare-d1-messaging-schema.ts:118-168 | a full run leaves the table, its four indexes, the full-text table and its four triggers, and nothing else |
| D1Migrations.SanitizedNames | src/adapters/cloudflare-d1-messaging-schema.ts:100-102 | a table name becomes letters, digits and underscores, place for place |
| D1Concurrent.ConcurrentRunsComplete | src/adapters/cloudflare-d1-messaging-schema.ts:184-216 | with any number of runners in any schedule, after any earlier stopped runs, recorded steps are applied and recorded once; a statement is rejected exactly when another runner recorded the step since its runner looked; when all have ended, all ten steps are applied and recorded in order and some runner has finished |
| D1Concurrent.TwoRunnersCollide | src/adapters/cloudflare-d1-messaging-schema.ts:184-216 | two runners that both look before either records: the second is rejected |
| D1Rows.RowRoundTripIff | src/adapters/cloudflare-d1-messaging-schema.ts:256-329 | decoding the encoded item gives the item back exactly when it has a source and fields, and no null summary or body and no empty optional string |
| D1Rows.DecodedIsPlain | src/adapters/cloudflare-d1-messaging-schema.ts:287-329 | a decoded item survives every further round trip |
| D1Rows.TriggersMirrorIff | src/adapters/cloudflare-d1-messaging-schema.ts:147-163 | over any inserts, upserts and deletes the index stays the projection of the rows exactly when the delete trigger fires first on updates or no stored row is updated; otherwise it is corrupt |
| D1Rows.UpdateNeedsDeleteFirst | src/adapters/cloudflare-d1-messaging-schema.ts:155-163 | an update keeps the mirror exactly when the delete trigger fires before the insert trigger |
| D1Rows.SearchIsCurrent | src/adapters/cloudflare-d1-messaging-schema.ts:360-364 | under that condition a search finds a row exactly when the row as last written matches |
| D1Rows.SearchFindsItems | src/adapters/cloudflare-d1-messaging-schema.ts:256-364 | so a stored item is found exactly when its summary, body and display name as last stored match |
| D1Rows.DerivedColumns | src/adapters/cloudflare-d1-messaging-schema.ts:256-286 | the channel, subject and sender columns that are derived from the item |
| D1Rows.RowsAreLastWritten | src/adapters/cloudflare-d1-messaging-schema.ts:342-351 | an id holds the columns last upserted under it and not deleted since |
| VfsPath.ResolvePath | apps/cli/vfs.ts:72-91 | the loop that pushes and pops segments resolves as specified |
| VfsPath.ResolveComposes | apps/cli/vfs.ts:72-91 | for a clean directory, resolving a non-empty relative a and then a relative b is resolving a/b |
| VfsPath.ResolveIsCleanIff | apps/cli/vfs.ts:72-95 | from a clean directory the result has no empty, dot or dot-dot segment exactly when the target is relative or has no dot segments |
| VfsPath.ClimbingStopsAtRoot | apps/cli/vfs.ts:81-89 | each dot-dot takes one segment off, and none below the root |
| VfsPath.ResolveDescends | apps/cli/vfs.ts:72-91 | a clean path below a clean directory is the two joined |
| VfsPath.AbsoluteIsItself | apps/cli/vfs.ts:72-95 | a clean path is its own absolute path, from anywhere |
| VfsPath.EmptyTargetStays | apps/cli/vfs.ts:72-91 | an empty target stays where it is |
| Strings.SplitJoin | apps/cli/vfs.ts:78-91 | splitting undoes joining, for segments without the separator |
| Strings.NonEmptySelects | apps/cli/vfs.ts:93-95 | dropping empty segments keeps the others in order |
| VfsTokens.Tokenize | apps/cli/vfs.ts:105-163 | the scanning loops and the sorting loop compute the specified tokens and command |
| VfsTokens.LexPrint | apps/cli/vfs.ts:105-137 | a token list printed with safe quotes and single spaces is read back as itself |
| VfsTokens.CommandLinesAreThePrintable | apps/cli/vfs.ts:105-163 | a token list is what some command line means exactly when each token can be quoted, and its printed form gives the same command, arguments and flags |
| VfsTokens.ArgsAreNotFlags | apps/cli/vfs.ts:143-163 | the arguments are exactly the tokens after the command word that are no flags, in order |
| VfsTokens.LastFlagWins | apps/cli/vfs.ts:143-163 | a flag is set exactly when some token sets it, and then as the last such token says |
| VfsTokens.FlagsSet | apps/cli/vfs.ts:146-158 | --name=value sets name to value, --name and -c set a name; only the first equals sign counts |
| VfsTokens.FlagsBeginWithDashes | apps/cli/vfs.ts:146-158 | which tokens are flags |

## Left out

Parameters of the model, and what they stand for:

- `stableHash` and `JSON` are functions given to the model: text of a value, a packed baseline, cell and column text. That `stableHash` drops nested keys absent at the top level shows only as values with one text.
- A transform, a conflict callback, `canon`, a token estimate and the scaffolding filter are arbitrary functions; a fault schedule and a completion are arbitrary sequences.
- Timestamps, progress events, delays, retries, log lines and the wording of error messages are not modelled.

Of the sync:

- RerunIsQuiet, NoLostUpdate and the other guarantees are about two stores; for one adapter given as both sides only what the methods do is specified.
- Baseline entries under names that every JavaScript object inherits (`constructor` and the like) are looked up as plain keys.
- An explicit baseline is given as its entries; the identifier and time it carries have no effect on a run.

Of the context store:

- LCMStore identifiers are kept as a kind and a number; `Render` gives the text and is proved injective.
- The text that is sent to a completion is not modelled; what comes back is arbitrary.
- The agent loop, tool calls, notes and the search over messages (BM25 scores and substring search) are not modelled; they do not change the log or its summaries.
- MemoryIsLossless: ends the runs at a reload, because it is about one store object; SharedMemoryIsLossless is not.
- A storage that hands out copies of a saved log, instead of the log itself, makes two logs of it; that is not modelled.
- Roles other than user and assistant are allowed in the log; only those two are ever appended by the engine.

Of the router:

- One adapter holds the key throughout; routing to several adapters, `getAdapterForKey`, external sources and retrievers are left out, and view refresh is taken to acquire no key lock.
- The lock is taken as a mutual exclusion with any order among waiters, of which first-come-first-served is one.
- Overwriting `set` and `delete` as calls of their own, collection metadata and the query cache are left out: they hold no lock, so nothing is promised about them. Failed writes and their retries are left out too.
- Stored values are JSON; binary values are not modelled. White space at the ends of a path or sub-key, which the path parser trims, is not modelled, nor that JavaScript lists integer-like names first.
- `deduplicate` is modelled on the array it has read; ids are text, and reading and writing the collection around it is not modelled.
- `merge`, `split`, `matchRoutingPattern` and `validateAndRoute` are left out as easy members; `deleteProperty` works on the wrapped response and supports no property of its own.

Of the cache, the migrations and the file system:

- QuietSheetEqualsCache: does not cover overlapping flushes, failed calls or `clear`, which the code leaves uncoordinated.
- `has` and `keys` of the cache, which skip null values, only read it and are left out.
- The remote sheet is modelled by what its three calls promise: list, upsert by key with fresh positive row ids, delete by row ids.
- MigrationsResume: SQL itself is modelled by what each statement creates and needs; two tables sharing one database have separate names and are taken one at a time.
- TriggersMirrorIff: the full-text module is modelled by its rules for external content (insert needs an unused row id, the delete command needs the indexed values); tokenizing and ranking are not modelled.
- DecodeItemRow: takes the columns as text or null; rows that already hold parsed objects, or miss columns, are left out.
- `splitPipeline` and the folding of chains and pipes in `vfs` are left out; the splitter ignores quotes although its comment says it respects them.
- Flags named after inherited object properties are treated as plain names.
