# Dispatcharr: state that must survive its own updates

This project models the parts of Dispatcharr where several steps change shared state and where the
result has to hold whatever the order, the batching or the interleaving of those steps:

- **Stream rehash** (`StreamTables`, `RehashSpec`, `RehashSteps`, `RehashOutcome`,
  `RehashTransitions`, `RehashBatches`, `StreamRehash`, `RehashExamples`). A class holds the stream
  and link tables and the side tables of the loop (`hash_keys`, `deleted_stream_ids`, counters) and
  updates them row by row and batch by batch. The result is compared with a definition that knows
  nothing of the loop: group by new hash, keep the best member, link it where any member was linked.
- **Compact channel numbering** (`NaturalSort`, `Channels`, `Allocation`, `Repack`, `Assign`,
  `CompactNumbering`). The allocator over a range with system-wide reservations, the full repack, the
  incremental assignment on unhide and the release on hide.
- **Settings caches** (`SettingsCache`, `DefaultUserAgent`, `AgentCache`). Readers and writers of the
  versioned cache interleave freely, with backend failures, eviction and expiry. `AgentCache` puts the
  derived User-Agent cache on top of it, again with every command a step of its own.
- **Coordination** (`SingleFlight`, `TaskLock`, `TokenLock`). Transition systems over any number of
  clients, with the lock operations also as class methods. `Runs` holds what all transition systems share.
- **Smaller updates in place** (`Reorder`, `StreamOrder`, `CronText`, `Schedules`, `Splitting`,
  `Redaction`). Channel reorder, the stream-order difference, periodic-task schedules with orphan
  cleanup, and credential masking in URL components.

A code object that changes its fields is a class here; every method says what the new state is, as a
function of or a relation to the old state, and the lemmas are about that function or relation.
Protocols are state machines over their single commands.

## What was found

Several promises hold only under a condition. The code is modelled as it is and the condition is
proved exact where the text says "exactly".

- *Rehash.* When the look-ahead keeps a later row, the loop later meets that row as its own duplicate
  and deletes it with its links. Every merge joins two different rows of one class exactly when the
  tables are `Safe` (`StreamRehash.RehashRun.Rehash`). A class then vanishes exactly when its highest
  row is the one that gets merged with itself (`RehashOutcome.ClassLostExactly`);
  `RehashExamples.WholeClassLost` shows a channel losing its only stream. A hash left over from other
  key settings can even delete a row that is no duplicate (`RehashExamples.NonDuplicateDeleted`).
- *Settings cache.* With the delete and the bump as two commands, a reader can recheck before the bump
  and fill after the delete. In runs that write no value twice, once every writer is done, the cached
  value is stale exactly when such a crossing happened (`SettingsCache.StaleIffCrossed`), and it does
  happen (`SettingsCache.CrossedRunLeavesStaleEntry`).
- *Default User-Agent.* A stale string is due to an invalidation that is missing, to a crossing of its own
  fill, or to a crossing of the settings entry it was loaded from (`AgentCache.StaleAgentExplained`). In
  runs in which nothing overwritten comes back it is stale exactly then, and once every writer is done
  exactly when one of the two fills was crossed (`AgentCache.StaleAgentIffMissed`). The crossing of the
  settings entry alone suffices (`AgentCache.StaleThroughTheSettings`).
- *Single flight.* Results of earlier builds outlive the cache. In a reachable state with nothing cached
  or being built for a key, a later request can answer 200 without any build of the key exactly when an
  earlier result is still stored (`SingleFlight.ServedUnbuiltIffStored`); such states are reached
  (`SingleFlight.DroppedResultIsReached`), and then the request that waited for a failed build does so.
- *Job locks.* Renewals keep the lock exclusive exactly when (failures + 1) × gap is below the lifetime
  (`TaskLock.ExclusiveIffMargin`); the defaults survive one failed renewal and not two. The release
  deletes the key whoever set it, and that this is always the releaser's own lock holds under exactly the
  same condition (`TaskLock.ReleaseIsOwnIffMargin`).
- *Token lock.* `has_lock` does not say whether the lock is held: in every run it is True exactly when the
  client has acquired successfully since its last successful `refresh`
  (`TokenLock.FlagMeansAcquiredSinceRefresh`), whatever was released or has expired. A second `acquire`
  replaces the token so that the lock cannot be released. Leases exclude each other in all runs exactly
  when all clients of the key have the same timeout (`TokenLock.LeasesExcludeIffOneTimeout`). Even then a
  late refresh can prolong another client's lock, exactly when the timeout is above one second
  (`TokenLock.LateRefreshProlongs`); with two timeouts it can end another's lease early.
- *Reorder.* Fractional numbers can collide or land before their target; the exact conditions are
  `Reorder.DistinctIffNoClash` and `Reorder.PlacedExactly`. On whole numbers the two always hold.
- *Stream order.* A stream that is not linked yet and is listed twice violates the uniqueness of
  channel and stream, exactly then (`StreamOrder.Channel.SetStreams`).
- *Repack.* `channel_sort_reverse` turns every order around except the provider order, on which it has no
  effect (`Channels.ReverseTurnsAround`).
- *Natural sort.* A name with a piece of digits that are not ASCII digits gets a number where other names
  have text, or makes the conversion raise, as "5²" does; `NaturalSort.RaisesExactly` and
  `NaturalSort.AlternatesExactly` say which names.
- *Docstring against code.* `core/utils.py:55-76` says that "PPV 10" becomes two chunks; the code
  yields a trailing empty text as well, and folds case (`NaturalSort.PpvTen`), as it does for every name
  that ends in a digit (`NaturalSort.KeyEnds`). The order promised there holds all the same
  (`NaturalSort.NumbersDecide`). The code is followed.

## Model

| member | source | states |
|---|---|---|
| StreamTables.BestOrderIsBest | core/tasks.py:746-753 | The best order of a stream is None exactly when it has no link, and otherwise the least order over its channels |
| StreamTables.BeatsIsStrictTotalOrder | core/tasks.py:756-794 | The choice of the survivor is a strict total order on (best order with none last, later update, lower id), so a class has one best member |
| StreamRehash.RehashRun.GetBestChannelOrder | core/tasks.py:746-753 | The scan of the link table finds the best order of the stream |
| StreamRehash.RehashRun.DetermineStreamToKeep | core/tasks.py:756-794 | The first stream is kept exactly when its best order is lower (none being last), or with the same one it was updated later, or with the same of both its id is lower |
| StreamRehash.RehashRun.MergeStreamRelationships | core/tasks.py:720-743 | Afterwards every channel gives the target the better of its two former orders, the source has no link, all other links are as before, and there is still one row per channel and stream |
| StreamRehash.RehashRun.MoveLink | core/tasks.py:726-743 | One turn of that loop keeps the minimum of source and target for every channel and the uniqueness of the pairs |
| StreamRehash.RehashRun.SaveHash | core/tasks.py:626-628 | A hash is written exactly when the row exists and no other row stores it, so stored hashes stay pairwise distinct after every write |
| StreamRehash.RehashRun.Consolidate | core/tasks.py:614-631 | Links moved, loser deleted first, hash written only if it differs, counters and side tables updated: the merge relation of the transition system |
| StreamRehash.RehashRun.ProcessRow | core/tasks.py:575-659 | One pass of the loop body in all its branches, with the look-ahead query and the exceptions of the unique constraint |
| StreamRehash.RehashRun.FetchBatch | core/tasks.py:564-569 | A batch is the lowest rows above the last processed id, in order, each as stored when fetched |
| StreamRehash.RehashRun.ProcessRows | core/tasks.py:575-659 | The rows of a batch keep the invariant in turn; an exception proves that the tables were not Consistent |
| StreamRehash.RehashRun.ProcessBatch | core/tasks.py:561-662 | A batch keeps the invariant; an exception rolls both tables back |
| StreamRehash.RehashRun.Rehash | core/tasks.py:526-701 | For all tables and batch sizes: the run ends; all merges are genuine exactly when the tables are Safe; on Consistent tables it succeeds with the Outcome and the final count short by exactly the rows the look-ahead finds and the run deletes; with no look-ahead hit the count is exact |
| RehashTransitions.PassIsGood | core/tasks.py:590-659 | Every pass keeps the loop invariant, and fails only on tables that were not Consistent |
| RehashBatches.TrackedTargetsAreLive | core/tasks.py:591-612 | On Safe tables every value of hash_keys is a live row storing that hash and never a deleted one, so the branches for deleted targets are dead |
| RehashBatches.GenuineIffSafe | core/tasks.py:590-659 | Over a whole run every merge joins two different rows of one class exactly when the tables were Safe |
| RehashOutcome.OverMeansOutcome | core/tasks.py:556-662 | When no row is left above the last processed id the invariant gives the Outcome: each row left is the best counted member of its class, stores the class hash and carries the joined links |
| RehashOutcome.SurvivorIsBest | core/tasks.py:756-794 | No counted member of a class had a better best order than the row left, nor the same and a later update, nor the same of both and a lower id; the row is as before but for the class hash it stores |
| RehashOutcome.SelfMergedExactly | core/tasks.py:632-652 | The row merged with itself is exactly one that stores its new hash already, is not the first of its class, and has a better best order than every earlier member or the same and a later update |
| RehashOutcome.OnePerClass | core/tasks.py:614-631 | Two rows left are never of one class |
| RehashOutcome.OutcomeIsUnique | core/tasks.py:556-662 | Two runs from the same tables leave the same rows and positions, so the result does not depend on batching |
| RehashOutcome.ClassLostExactly | core/tasks.py:632-652 | A class is lost exactly when its last row is the one the look-ahead keeps |
| RehashOutcome.LinksConserved | core/tasks.py:617-631 | On Safe tables a channel is linked to the survivor exactly when it was linked to some member, at the least of their orders |
| RehashOutcome.ClassKeptExactly | core/tasks.py:614-652 | On all tables that end in an Outcome, a channel keeps a class exactly when it was linked to a member that counts |
| RehashOutcome.ChannelLosesClassExactly | core/tasks.py:614-652 | A channel loses a class exactly when the row merged with itself is at or after every member the channel was linked to |
| RehashOutcome.SafeCountsAll | core/tasks.py:632-652 | On Safe tables every member of a class counts |
| RehashOutcome.UnhashedIsSafe | core/tasks.py:632-634 | Tables in which no stream has a stored hash are Safe, and no query looks ahead in them |
| RehashOutcome.RehashIsIdempotent | core/tasks.py:477-701 | Tables left by a rehash have no look-ahead hit, are Safe, and a second rehash with the same keys changes nothing |
| RehashOutcome.FinalCount | core/tasks.py:661-662 | Processed minus merged is the number of rows left minus the rows that the look-ahead finds and the run deletes, whether or not the loop meets them later in their batch |
| RehashExamples.WholeClassLost | core/tasks.py:614-623 | Every run on one two-row table ends with no stream and a channel without its only one |
| RehashExamples.NonDuplicateDeleted | core/tasks.py:632-646 | A stale stored hash makes the look-ahead delete a row of another class |
| NaturalSort.KeyAlternates | core/utils.py:73-76 | The natural key used by the sort alternates text and number chunks, text first |
| NaturalSort.RaisesExactly | core/utils.py:73-76 | For names of any characters, making the key raises exactly when a piece between runs of ASCII digits consists of digits that int() cannot read |
| NaturalSort.AlternatesExactly | core/utils.py:73-76 | The key exists with text at even and numbers at odd places exactly when no such piece consists of digits only |
| NaturalSort.KeysComparable | core/utils.py:73-76 | Keys of two such names have chunks of one kind at every place, so making and comparing them never raises |
| NaturalSort.AsciiKeys | core/utils.py:73-76 | Every ASCII name is such a name, and its key is the natural key |
| NaturalSort.KeyLessIsStrictTotal | core/utils.py:73-76 | The list order on keys is a strict total order |
| NaturalSort.TextOrder | core/utils.py:73-76 | Two texts are ordered by the first character that differs, or the beginning before the longer text |
| NaturalSort.KeyCuts | core/utils.py:73-76 | Wherever a name has a number, its key is the key of what stands before, the number, and the key of what follows |
| NaturalSort.NumbersDecide | core/utils.py:60-71 | Names that agree up to a number are sorted by the value of that number, whatever its digits and whatever follows |
| NaturalSort.NumberedNames | core/utils.py:60-71 | Names that differ in a number written in decimal, and perhaps in what follows it, come in the order of that number |
| NaturalSort.DecimalReadsBack | core/utils.py:73-74 | Reading the decimal notation of a number gives the number |
| NaturalSort.LowerExactly | core/utils.py:74 | Folding case changes the 26 capital letters to the small ones and nothing else |
| NaturalSort.KeyEnds | core/utils.py:76 | The key ends in an empty text exactly for the empty name and names that end in a digit |
| NaturalSort.PpvTen | core/utils.py:55-76 | The key of "PPV 10" has three chunks: "ppv ", 10 and the empty text |
| Channels.BoundsMean | apps/channels/compact_numbering.py:303-308 | The whole numbers within the bounds of a group, in terms of the fields as stored: no start means 1, no end means none, fractions are cut towards zero |
| Channels.BeforeIsStrictTotal | apps/channels/compact_numbering.py:352-370 | Each configured sort, reversed or not, is a strict total order on the channels |
| Channels.ReverseTurnsAround | apps/channels/compact_numbering.py:352-370 | Switching the reverse setting turns the whole sorted sequence around, ties included, and leaves the provider order as it is |
| Channels.OrderIsUnique | apps/channels/compact_numbering.py:356-370 | A set of channels has one sorted order |
| Allocation.NextFree | apps/m3u/tasks.py:1930-1947 | The least whole number at or above the start that is not in use, or None exactly when all numbers up to the end are in use |
| Allocation.NextAvailableNumber | apps/m3u/tasks.py:1930-1947 | The search loop with its two bound tests computes that number |
| Allocation.FreeNumbersAreFirst | apps/channels/compact_numbering.py:385-397 | Repeated allocation yields strictly increasing free numbers of the range and skips no free number |
| Allocation.FreeNumbersExhaust | apps/channels/compact_numbering.py:386-392 | Fewer numbers than asked for means that none of a bounded range is left |
| Allocation.FirstFreeUnique | apps/channels/compact_numbering.py:385-397 | Being the first free numbers determines them |
| Allocation.NextAfterGiven | apps/channels/compact_numbering.py:385-397 | Searching again from the start with the numbers given so far reserved finds the next one |
| CompactNumbering.ChannelTable.BuildReservedSet | apps/channels/compact_numbering.py:82-117 | The two scans collect exactly the override numbers and the own numbers outside the excluded set, within the bounds |
| Repack.ScopedReservationsSuffice | apps/channels/compact_numbering.py:92-113 | Packing against the range-scoped set allocates as against the system-wide one, for any table and bounds |
| CompactNumbering.ChannelTable.SortVisible | apps/channels/compact_numbering.py:356-370 | Sorting gives the one order of the visible channels |
| CompactNumbering.ChannelTable.PackVisible | apps/channels/compact_numbering.py:382-397 | The pack loop gives the k-th channel the k-th free number or none, updates only rows that change, and counts both cases |
| CompactNumbering.ChannelTable.RepackGroup | apps/channels/compact_numbering.py:275-429 | The table becomes the repacked one; the three counts are right; exactly the changed rows are written |
| CompactNumbering.ChannelTable.ReleasedExactly | apps/channels/compact_numbering.py:402-412 | The channels counted as released are the hidden ones of the group that had a number and no override sets one |
| Repack.RepackIsOptimal | apps/channels/compact_numbering.py:341-423 | Visible channels in order receive the first free numbers of the range, strictly increasing; failed, hidden and pinned ones end with none; nothing else changes |
| Repack.NumbersFollowSetting | apps/channels/compact_numbering.py:352-370 | Of two channels that a repack numbers, the lower number goes to the one created first, or with the lesser natural key of the name, tvg id or update time, as configured, ties going to the one created first; the reverse setting turns the last three round |
| Repack.RepackTouches | apps/channels/compact_numbering.py:310-350 | A repack changes only numbers, only of channels the account's sync made in the group or in the group its override names, and hidden and pinned ones end with none |
| Repack.RepackLeavesNoGap | apps/channels/compact_numbering.py:372-397 | A visible channel gets a whole number of the range below which every number of the range is in use, or none, and then the range has an end and is in use throughout |
| Repack.RepackFillsRange | apps/channels/compact_numbering.py:386-397 | With a bounded range as many channels are numbered as the smaller of visible channels and free numbers |
| Repack.RepackIsIdempotent | apps/channels/compact_numbering.py:328-370 | A second repack leaves the table, the order and the numbers as they are, for every sort order |
| CompactNumbering.SecondRepackWritesNothing | apps/channels/compact_numbering.py:389-412 | A second repack writes no row, releases nothing and reports the same counts |
| Repack.RepackSettlesMembers | apps/channels/compact_numbering.py:295-429 | After a repack no unpinned member shares an effective number with any other channel of the system |
| Repack.RepackKeepsSettled | apps/channels/compact_numbering.py:372-397 | A repack makes no channel of another group share its number |
| Repack.RepackingSettles | apps/channels/compact_numbering.py:275-292 | From any numbers, repacking groups in any order leaves every unpinned member of each with a number of its own, or none |
| Assign.ResolvedIsMember | apps/channels/compact_numbering.py:164-194 | The relation a waiting channel resolves to is one whose repack would include the channel |
| Assign.WaitsForExactly | apps/channels/compact_numbering.py:142-201 | A channel waits for a relation exactly when it was made by sync, is visible, has no number of its own or of an override, and the relation is compact and the account's for its group, or, if the account has none, the last whose override names the group |
| Assign.WaitsUnlessUnmatched | apps/channels/compact_numbering.py:164-198 | With compact relations only, such a channel waits for none exactly when no relation of the account has its group or an override that names it |
| Assign.HiddenReleases | apps/channels/api_views.py:1226-1281 | Hiding clears the number exactly of channels that were visible and whose relation (the account's for the group, else the first whose override names it) is compact, and changes nothing else but the flag of the hidden ones |
| Assign.UnhideIsSafe | apps/channels/api_views.py:1261-1268 | Unhiding clears the flag, keeps every number there is, and gives new ones only to channels that wait, within the range of the relation and each to itself |
| Assign.OfferIsFree | apps/channels/compact_numbering.py:239-255 | An offered number lies in the range and no channel of the system is published under it |
| Assign.UnservedMeansExhausted | apps/channels/compact_numbering.py:246-251 | A channel that stays without a number found every number of the range reserved |
| Assign.AssignAllIsSafe | apps/channels/compact_numbering.py:203-272 | The incremental path changes only numbers, only of waiting channels, each to a number of its range that nobody is published under |
| Assign.RunKeepsSettled | apps/channels/api_views.py:1261-1290 | System-wide uniqueness of a channel's number survives any sequence of hide, unhide and repack |
| Assign.RunSettlesRepacked | apps/channels/api_views.py:1261-1290 | A channel whose group was repacked anywhere in such a run has a number of its own at the end |
| CompactNumbering.ChannelTable.GroupByPair | apps/channels/compact_numbering.py:138-162 | The waiting channels are collected by account and group, each once |
| CompactNumbering.ChannelTable.SelectEntries | apps/channels/compact_numbering.py:164-201 | Each kept entry belongs to a compact relation; a waiting channel is in its entry unless another group under the same relation overwrote it |
| CompactNumbering.ChannelTable.AssignGroup | apps/channels/compact_numbering.py:232-259 | One relation is served as the assignment function says, and the answers are the numbers written |
| CompactNumbering.ChannelTable.AssignCompactNumbersForChannels | apps/channels/compact_numbering.py:128-272 | The table is the result of serving disjoint entries of idle accounts; every answer is true of it; every waiting channel is answered unless a rival group took its entry |
| SettingsCache.StaleEntryExplained | core/models.py:366-372 | In every interleaving a stale entry was read before a commit, and each writer that committed since has an invalidation missing or was crossed by the fill |
| SettingsCache.StaleIffCrossed | core/models.py:366-435 | In every run that writes no value twice, the entry differs from the row exactly when a writer that committed after it was read has an invalidation missing or was crossed by the fill, and once all writers are done exactly when one was crossed |
| SettingsCache.AtomicInvalidationAgrees | core/models.py:397-435 | With delete-and-bump and recheck-and-fill uninterrupted, a cached group equals the row unless a writer that committed after it was read has not invalidated |
| SettingsCache.HitsAreRecent | core/models.py:434 | A hit was filled less than one lifetime ago |
| SettingsCache.NothingOutlivesItsLifetime | core/models.py:434 | In every run, after 300 seconds nothing cached before is a hit |
| SettingsCache.FailedInvalidationLeavesStaleEntry | core/models.py:366-375 | For any two values, a run in which both commands of the writer fail, after which the cache holds the old row |
| SettingsCache.CrossedRunLeavesStaleEntry | core/models.py:369-372 | For any two values, a run in which nothing fails and every writer finishes, after which the cache holds the old row |
| DefaultUserAgent.CachedAgentAgrees | core/models.py:467-530 | In every run the cached User-Agent is the one the committed settings and rows stand for unless a writer of either has not finished invalidating, although the loader reads through the group cache |
| DefaultUserAgent.ConfiguredAgentIsUsed | core/models.py:467-497 | With no writer pending the cached string is the configured row's if there is one and it is not empty, and in every other case the fallback |
| DefaultUserAgent.AgentCanBeRefreshed | core/models.py:498-530 | From every state, whoever is reading or writing, a run without further commits ends with no writer pending and both caches holding what is committed |
| DefaultUserAgent.StaleAgentHasPendingWriter | core/signals.py:11-21 | A stale User-Agent with no row writer pending points at a settings writer with an invalidation to do |
| AgentCache.StaleAgentExplained | core/models.py:356-375 | With every command a step of its own: a stale User-Agent was outdated by a commit, and each writer that outdates it has an invalidation missing, or was crossed by the fill of the string, or by the fill of the settings entry it was loaded from |
| AgentCache.ConfiguredAgentIsUsed | core/models.py:467-530 | A cached string that no commit outdates is the configured row's if there is one and it is not empty, and in every other case the fallback |
| AgentCache.FilledAgentIsRead | core/models.py:467-497 | What a loader reads for the cache is the string of the row that its settings name, or in every other case the fallback |
| AgentCache.SettingsFoundAreRecent | core/models.py:434 | In every run the settings a loader takes from the settings cache were put there less than 300 seconds before |
| AgentCache.StaleAgentIffMissed | core/models.py:356-375 | In every run that brings nothing overwritten back, the string is stale exactly when a writer that outdates it has an invalidation missing or was crossed by the fill of the string or of the settings entry, and once all writers are done exactly when one was crossed |
| AgentCache.StaleThroughTheSettings | core/models.py:467-530 | A run in which nothing fails, every writer finishes and the string's own guard is never crossed, after which the string is stale |
| AgentCache.RunKeepsInv | core/models.py:498-530 | The invariant connecting version read, settings read, row read, recheck and fill of a loader with both invalidations holds in every run |
| SingleFlight.OneBuilderPerKey | apps/api/schema_views.py:142-153 | In every run at most one request per key is between registration and pop |
| SingleFlight.BodiesAreBuilt | apps/api/schema_views.py:134-179 | Every 200 body is the result of some build for that key, in this process or in another that shares the cache |
| SingleFlight.WaitersArePromised | apps/api/schema_views.py:147-160 | A waiting request's event is set or owned by a request that has yet to set it |
| SingleFlight.OwnerCanAlwaysMove | apps/api/schema_views.py:172-189 | Nothing another request does can block the owner of an event |
| SingleFlight.OwnedEventIsSet | apps/api/schema_views.py:172-189 | After at most six steps of its owner the event is set, whether the build returns or raises, whatever others do meanwhile |
| SingleFlight.WakesAfterOwner | apps/api/schema_views.py:155-189 | In every run a waiter wakes only after the request that owns its event has set it |
| SingleFlight.AnswersTellWhy | apps/api/schema_views.py:155-189 | In every run a request is told of the timeout exactly if its own wait timed out, and of the failure exactly if its build raised or it woke and found a result neither cached nor stored; a hit is answered with a body |
| SingleFlight.FailureMeansNothingStored | apps/api/schema_views.py:161-170 | A waiter reads a stored result, unless none was stored since the results were last cleared |
| SingleFlight.FailureIsTold | apps/api/schema_views.py:155-189 | With nothing stored, cached or being built for the key, a request that comes later is answered with the failure or the timeout in every run in which no build of the key returns |
| SingleFlight.ServedUnbuiltIffStored | apps/api/schema_views.py:155-189 | In every reachable state with nothing cached or being built for the key, a later request can be answered with a body without a build of the key exactly when an earlier result is still stored |
| SingleFlight.WaiterOutlivesFailedBuild | apps/api/schema_views.py:161-170 | With a stored result and nothing cached, a build can fail and its waiter answer with the earlier result |
| SingleFlight.DroppedResultIsReached | apps/api/schema_views.py:172-189 | A run from the start reaches a state with any given result stored and nothing cached or being built |
| TaskLock.MarginSuffices | core/utils.py:296-307 | In every run of any number of clients whose renewals are punctual enough, at most one holds, the key is live and it is the holder's own |
| TaskLock.RenewedForLong | core/utils.py:350-367 | With any gap below the lifetime a holder whose renewals succeed keeps its lock for any time, a whole lifetime being left after each |
| TaskLock.ExclusiveIffMargin | core/utils.py:350-367 | Renewals at most `gap` apart with at most `failures` failures in a row keep the lock exclusive in all runs exactly when (failures + 1) * gap is below the lifetime |
| TaskLock.DefaultsTolerateOneFailure | core/utils.py:341-344 | An interval of 120 seconds survives one failure with a delay below 30 seconds, and not two failures |
| TaskLock.ReleaseTakesOwnLock | core/utils.py:309-315 | In such a run the unconditional delete removes the releaser's own lock and nobody is left holding |
| TaskLock.HeldMeansRefused | core/utils.py:301-307 | In such a run nobody acquires a held lock |
| TaskLock.ReleaseIsOwnIffMargin | core/utils.py:309-315 | In all punctual runs every release that finds a live key deletes the releaser's own lock, exactly when (failures + 1) × gap is below the lifetime |
| TaskLock.LateReleaseDeletesAnothersLock | core/utils.py:309-315 | Wherever the margin is missing, a punctual run from the start after which a holder's release deletes the lock of another that goes on holding |
| TaskLock.RegularNeverLapses | core/utils.py:350-367 | A renewer with regular turns never finds its key expired |
| TaskLock.Server.AcquireTaskLock | core/utils.py:296-307 | Acquired exactly when no live key exists; a live key is untouched |
| TaskLock.Server.RenewLoop | core/utils.py:350-367 | The loop gives up exactly when the key lapses before some turn that reaches it, never changes whose key it is, and leaves it to expire a lifetime after the last turn that reached it, or as it was if none did |
| TokenLock.PersistentLock.Acquire | dispatcharr/persistent_lock.py:33-43 | Succeeds exactly when no live entry exists; the token is replaced in either case |
| TokenLock.PersistentLock.Refresh | dispatcharr/persistent_lock.py:45-55 | Uninterrupted, it extends exactly a lock held with the current token and then clears the flag |
| TokenLock.PersistentLock.Release | dispatcharr/persistent_lock.py:57-72 | Removes exactly a live entry with the current token; without a token nothing is sent |
| TokenLock.OneHolder | dispatcharr/persistent_lock.py:33-43 | In every run at most one client's token is in Redis |
| TokenLock.OnlyItsOwnerRemovesALock | dispatcharr/persistent_lock.py:57-72 | In every run, with no timing assumption, a live entry is removed or replaced only by a release of the client that set it |
| TokenLock.ReleaseLeavesOthersLocks | dispatcharr/persistent_lock.py:62-70 | A release leaves the lock of every other client as it is |
| TokenLock.AcquiredIffFree | dispatcharr/persistent_lock.py:37-41 | A client holds the lock after acquiring exactly when the key was absent or expired |
| TokenLock.LeasesExclude | dispatcharr/persistent_lock.py:33-55 | With one timeout for all, a client inside its lease holds the lock, so two never are |
| TokenLock.LateRefreshMeansLapsedLease | dispatcharr/persistent_lock.py:50-53 | A refresh that extends another client's lock does so only after its own lease ended, and takes the lock from nobody |
| TokenLock.LeasesExcludeIffOneTimeout | dispatcharr/persistent_lock.py:33-55 | For any set of positive timeouts, no two clients are inside their leases in any run drawn from it exactly when no two timeouts of the set differ |
| TokenLock.LateRefreshProlongs | dispatcharr/persistent_lock.py:50-53 | With one timeout for all, some run lets a late refresh make another client's lock outlast the lease that client asked for, exactly when the timeout is above one second |
| TokenLock.ShorterLateRefreshCutsALease | dispatcharr/persistent_lock.py:50-53 | For any two timeouts, a run from the start after which the late refresh with the shorter one ends another client's lease early |
| TokenLock.FlagMeansAcquiredSinceRefresh | dispatcharr/persistent_lock.py:33-72 | In every run has_lock is True exactly when the client has acquired successfully and has not refreshed successfully since |
| TokenLock.RefreshFoundOwnLock | dispatcharr/persistent_lock.py:50-52 | In every run a refresh goes on to extend the key exactly if its read found the client's own token in a live entry |
| TokenLock.SuccessfulRefreshClearsFlag | dispatcharr/persistent_lock.py:51-54 | For every timeout a run after which the client holds the lock it has just refreshed, and has_lock is False |
| TokenLock.ReleaseLeavesFlag | dispatcharr/persistent_lock.py:57-72 | For every timeout a run after which the lock is released, and has_lock is True |
| TokenLock.SecondAcquireOrphansTheLock | dispatcharr/persistent_lock.py:37-39 | Acquiring while holding leaves a lock its client can no longer release |
| Reorder.Lineup.Reorder | apps/channels/api_views.py:2324-2370 | The outcome in every case (unknown channel, unknown target, null number, already there, moved) and the new number of every channel |
| Reorder.DesiredMeans | apps/channels/api_views.py:2324-2333 | The number to insert at is the whole number just above the target's, a fraction being cut towards zero, and 1 without a target or behind one that has no number |
| Reorder.DistinctIffNoClash | apps/channels/api_views.py:2350-2366 | Distinct numbers, fractions included, stay distinct exactly when no number left in place is one step from a number shifted across the gap and a move of at most one lands free |
| Reorder.PlacedExactly | apps/channels/api_views.py:2350-2366 | The moved channel ends behind exactly the channels numbered below the desired number, except when a move of at most one place meets a number sharing the whole part |
| Reorder.ReorderedIsSlide | apps/channels/api_views.py:2324-2366 | On whole distinct numbers the float arithmetic is an integer shift |
| Reorder.SlideKeepsDistinct | apps/channels/api_views.py:2350-2366 | Whole distinct numbers stay distinct |
| Reorder.OthersKeepTheirOrder | apps/channels/api_views.py:2350-2366 | All other channels keep their relative order |
| Reorder.ImmediatelyAfterTarget | apps/channels/api_views.py:2325-2333 | The channels before the moved one are exactly those that were numbered up to the target, or up to 0 without one |
| Reorder.SameNumbersIffSpanUsed | apps/channels/api_views.py:2316-2319 | The set of numbers in use is preserved exactly when no number between the two positions is unused |
| Reorder.ReorderIsIdempotent | apps/channels/api_views.py:2340-2366 | Repeating a move changes nothing |
| Reorder.MovingBackRestores | apps/channels/api_views.py:2350-2366 | Moving back behind the former predecessor restores every number |
| Reorder.FractionalMoveCollides | apps/channels/api_views.py:2358-2366 | Moving 2.5 behind 2 numbers both 2 |
| Reorder.FractionalMoveLandsBefore | apps/channels/api_views.py:2332-2333 | Moving 2.5 behind 2.2 puts it before 2.2 |
| StreamOrder.Channel.SetStreams | apps/channels/api_views.py:1461-1489 | Refused exactly when an unlinked stream is listed twice; otherwise the links are the listed streams at their last positions, kept rows keep their ids, and nothing is written exactly when nothing changes unless a stream is listed twice |
| StreamOrder.ReadsBackAsRequested | apps/channels/api_views.py:1476-1489 | The streams read in link order are the requested list, each at its last place |
| CronText.ParsePrint | core/scheduling.py:35-59 | A cron expression printed from five words parses back to them |
| CronText.ParseNormalises | core/scheduling.py:48-59 | Every accepted text means the same as its words with single blanks |
| CronText.WordsOfSpread | core/scheduling.py:48-49 | Splitting finds the words whatever white space surrounds and separates them |
| Schedules.Oldest | core/scheduling.py:16-32 | The lookup finds the lowest id with the value, or nothing exactly when no row has it |
| Schedules.UpdateServes | core/scheduling.py:89-164 | The saved task has the requested fields and runs on an existing row with the wanted schedule |
| Schedules.UpdateServesAsRequested | core/scheduling.py:105-152 | The schedule of the saved task is the five words of the cron text in their places with the timezone, or the requested hours cut to a whole number and at least 1 |
| Schedules.UpdateKeepsSound | core/scheduling.py:96-164 | Every task still refers to existing rows, and to exactly one schedule |
| Schedules.UpdateLeavesOthers | core/scheduling.py:207-224 | Other tasks and the rows they run on are unchanged, so no cleanup deletes a row in use |
| Schedules.UpdateOrphans | core/scheduling.py:132-164 | The unused rows afterwards are those from before, less the one taken into use |
| Schedules.UpdateIsIdempotent | core/scheduling.py:62-169 | The same call again changes nothing |
| Schedules.CleanIntervalFacts | core/scheduling.py:207-214 | The cleanup deletes the row exactly when nobody uses it, and takes no task along |
| Schedules.DeleteOrphans | core/scheduling.py:172-200 | Deleting a task changes nothing about which rows are unused |
| Schedules.DeleteUndoesCreate | core/scheduling.py:172-200 | Creating and deleting a task restores the tables, except for an unused row the creation had picked up |
| Schedules.RunKeepsSound | core/scheduling.py:62-200 | After any run of calls every task refers to exactly one existing schedule |
| Schedules.RowsAreExactlyTheUsed | core/scheduling.py:62-224 | With no unused row to begin with, after any run the rows are exactly those in use |
| Schedules.Scheduler.CreateOrUpdatePeriodicTask | core/scheduling.py:62-169 | The branches in place: both schedules, both cleanups, and a bad cron text that changes nothing |
| Schedules.Scheduler.DeletePeriodicTask | core/scheduling.py:172-200 | Whether the task was there, and the tables without it and without rows only it used |
| Splitting.SplitJoin | dispatcharr/utils.py:137-163 | Splitting a joined list of parts without the separator gives the parts back |
| Splitting.JoinSplit | dispatcharr/utils.py:137-163 | Joining a split text gives the text back |
| Redaction.NetlocKeepsOnlyTheHost | dispatcharr/utils.py:124-129 | Everything before the last at-sign becomes the mask and the host stays |
| Redaction.FilledExactly | dispatcharr/utils.py:138-140 | The positions the rules look at are exactly those of the non-empty segments |
| Redaction.PrefixWords | dispatcharr/utils.py:106 | The prefixes are the four words live, movie, series and timeshift, in any letter case |
| Redaction.WordMasksTwo | dispatcharr/utils.py:146-151 | Wherever one of the four words stands in a path and is not masked itself, as the first of them never is, the two non-empty segments that follow come out as the mask |
| Redaction.WithoutWords | dispatcharr/utils.py:132-163 | A path without these words is masked exactly if it has three non-empty segments of which the last is a stream id, and then in the other two |
| Redaction.PrefixedRouteIsMasked | dispatcharr/utils.py:146-151 | /prefix/user/password/id comes out as /prefix/\*\*\*/\*\*\*/id for each of the four words, whatever user and password are |
| Redaction.RootRouteIsMasked | dispatcharr/utils.py:153-161 | /user/password/id comes out as /\*\*\*/\*\*\*/id |
| Redaction.StreamIdExactly | dispatcharr/utils.py:119-121 | A stream id is digits, or digits, a dot and letters or digits |
| Redaction.SegmentsKeepTheirPlaces | dispatcharr/utils.py:137-163 | Segments keep their number and places, empty ones stay empty, any other is kept or masked |
| Redaction.SurvivingPrefixesAreMasked | dispatcharr/utils.py:146-151 | Both segments behind every prefix the result still shows are masked whenever two follow |
| Redaction.OnlyCredentialsAreMasked | dispatcharr/utils.py:146-161 | A segment changes only behind a surviving prefix or on the bare three-segment route |
| Redaction.PathIdentityIffUntouched | dispatcharr/utils.py:132-163 | The path is unchanged exactly when no rule has anything left to mask |
| Redaction.PathIdempotent | dispatcharr/utils.py:132-163 | Masking a path twice is masking it once |
| Redaction.MaskPath | dispatcharr/utils.py:132-163 | The loops with their flag and early returns compute the masked path |
| Redaction.QueryKeepsItsShape | dispatcharr/utils.py:166-181 | Parameters keep number, order and names; exactly the sensitive ones with a value show the mask |
| Redaction.CredentialParametersAreMasked | dispatcharr/utils.py:166-181 | Whatever percent-decoding does, exactly the parameters whose name, as written or decoded, is password, username, token or api_key in any letter case show the mask |
| Redaction.QueryIdempotent | dispatcharr/utils.py:166-181 | Masking a query twice is masking it once |
| Redaction.QueryIdentityIffMasked | dispatcharr/utils.py:166-181 | The query is unchanged exactly when every sensitive parameter already shows the mask |
| Redaction.MaskQuery | dispatcharr/utils.py:166-181 | The loop with its flag computes the masked query |
| Redaction.RedactUrl | dispatcharr/utils.py:205-218 | The URL is returned as given exactly when no component changes, and otherwise rebuilt from the masked components |
| Redaction.UrlIdempotent | dispatcharr/utils.py:184-218 | Masking the components twice is masking them once |
| Redaction.UrlUnchangedIffClean | dispatcharr/utils.py:193-195 | A URL is unchanged exactly when its user information, path, query and fragment have nothing to mask |

## Left out

- Celery, Redis and database clients, transactions as such, WebSocket messages, logging and progress reports: only their effect on tables, keys and expiry is modelled.
- Rehash: the hash function (`apps/channels/models.py:163-189`) is a given `key` per row, since nothing depends on how it is computed.
- Rehash: `skip_locked` and rows deleted by others during a run; the loop is the only writer. The locking prologue (`core/tasks.py:477-520`) and the notifications are not modelled.
- StreamRehash.RehashRun.MergeStreamRelationships: requires a target that exists unless the source has no links, because a link to a missing stream violates a foreign key; the loop never gets there (`AbsentTakesNothing`).
- StreamRehash.RehashRun.Rehash: on tables that are not Consistent only the exactness of the Safe condition is stated, since what is left then depends on stale hashes; `RehashExamples.NonDuplicateDeleted` shows what can happen.
- RehashOutcome.LinksConserved: stated on Safe tables; where a row is merged with itself its links and those merged into it before are lost, and `RehashOutcome.ChannelLosesClassExactly` says which channels lose the class.
- Compact numbering: `group_override` is a number or absent, so the string forms and their parse warnings are not modelled; account locks are a fixed set of busy accounts during one call.
- NaturalSort.KeyLessIsStrictTotal: about natural keys; the sorts of compact numbering use them for all names, so a name that is not plain, for which the source raises or mixes kinds, is not modelled there.
- CompactNumbering.ChannelTable.SortVisible: selection of the first remaining channel stands for the library sort; the order it yields is unique.
- CompactNumbering.ChannelTable.AssignCompactNumbersForChannels: relations are served one by one in any order, not account by account, since the lock of an account only decides whether its relations are served.
- Bulk edit: serializer validation, override upserts and EPG dispatch (`apps/channels/api_views.py:1281-1460`) are not modelled, only hide, unhide and the stream order.
- SettingsCache.StaleEntryExplained: a version is the number of the step that wrote it, so equal nanosecond clock readings are not modelled; a commit precedes its invalidation.
- SettingsCache.StaleIffCrossed: needs that no value is written twice, since a row that returns to an earlier value makes an old entry right again; without that the explanation of `SettingsCache.StaleEntryExplained` remains.
- DefaultUserAgent.CachedAgentAgrees: each invalidation and each recheck-and-fill is one step, as the property needs; `AgentCache.StaleAgentExplained` is the statement for single commands.
- DefaultUserAgent.StaleAgentHasPendingWriter: for the same one-step invalidations.
- AgentCache.StaleAgentExplained: expiry of the string is an eviction that can happen at any time.
- AgentCache.StaleAgentIffMissed: settings, rows and the string of the committed pair must be ones that did not occur before, so a write that leaves the default User-Agent as it was is not in these runs; without that the explanation of `AgentCache.StaleAgentExplained` remains.
- SingleFlight: a build that outlasts the pool's wait (`apps/api/schema_views.py:54`) ends the builder's own request in an exception that nothing catches; the model answers it like a failed build. Registration, event and waiters are the same.
- SingleFlight.OwnedEventIsSet: counts the owner's own steps; that the scheduler lets it take them is assumed. The wait timeout is a step that can happen at any time.
- SingleFlight.BodiesAreBuilt: the requests of one process; what other processes do is that they store schemas they have built in the shared cache and that entries disappear.
- TaskLock.Server.RenewLoop: nobody else touches the key during the loop; interference is covered by the transition system. Time is in whole seconds and the lifetime is the 300 seconds that every call site uses.
- TokenLock.PersistentLock.Refresh: one uninterrupted step in the class; the transition system splits it into its two commands. The client is taken to decode responses to text; with a client that returns bytes the comparison in `dispatcharr/persistent_lock.py:51` is never true.
- TokenLock.LeasesExcludeIffOneTimeout: timeouts are positive, since Redis refuses an expiry of zero; time is in whole seconds.
- TokenLock.LateRefreshMeansLapsedLease: for one timeout, where leases mean something; for different ones see `TokenLock.ShorterLateRefreshCutsALease`.
- Schedules: two concurrent inserts of the same schedule row; a duplicate can be in the tables from the start, and the lookup then takes the oldest.
- CronText.ParsePrint: white space is the ASCII white space that `str.split` knows.
- Redaction: `urlsplit`, `urlunsplit` and percent-decoding belong to libraries; a URL is its five components, and the decoding of a parameter name is a parameter of the model. Digits and letter case are ASCII.
- Redaction.UrlIdempotent: about the components; that a rebuilt URL splits into the same components is a property of the library.
- Header masking, network access checks, image and relay proxies, DVR, backups, version lookups, the Go relay and the front end: input, output or one-branch logic.
