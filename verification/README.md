# A verified model of the Icinga alert forwarder

The forwarder receives Grafana webhooks, creates missing Icinga2 services on the
fly, forwards check results, and keeps retrying the ones that Icinga2 did not
accept. This project models the parts of it whose correctness depends on all
interleavings, all runs or all inputs, and proves what they guarantee.

| file | component | form |
|---|---|---|
| `AutoCreate.dfy` | request goroutines sharing the cache, the two semaphores and `queued` | transition system, one step per atomic section |
| `AutoCreateSlots.dfy`, `AutoCreateHistory.dfy`, `AutoCreateStories.dfy`, `AutoCreateObservations.dfy`, `AutoCreateExclusive.dfy`, `AutoCreateRivals.dfy`, `AutoCreateProgress.dfy` | accounting, justification of sends, what each request does and is told, exclusive creation and its exact conditions, absence of deadlock | lemmas over reachable states |
| `RateLimiter.dfy` | the limiter object; every section performs one step of the transition system | class |
| `ServiceCache.dfy` | the TTL cache, its keys, listings and freezes | class over a timed map |
| `RetryQueue.dfy` | the queue's slice, compaction and backoff | class and in-place array code |
| `RetryRuns.dfy`, `RetryConservation.dfy`, `RetryDrops.dfy`, `RetryPasses.dfy`, `RetryOwnership.dfy`, `RetryIdentity.dfy`, `RetryShutdown.dfy`, `RetrySchedule.dfy`, `RetryScheduleLimits.dfy` | Enqueue, processor passes, flushes, Drain and restarts interleaved at lock boundaries | transition system and lemmas over runs |
| `TokenBucket.dfy`, `TokenBucketLimits.dfy` | the ingress limiter over real arithmetic | class, runs |
| `HistoryLog.dfy`, `HistoryQuery.dfy`, `HistoryStats.dfy` | the JSONL log: counter, rotation, ring-buffer queries, statistics | class, loops |
| `Utf8.dfy`, `ServiceName.dfy` | UTF-8 (sections 3 and 4 of RFC 3629), sanitising and truncating names | functions, one loop |
| `ConfigDocument.dfy`, `ConfigStore.dfy`, `ConfigRaces.dfy` | the configuration document; encryption, masking and import on shared slices; concurrent updates | values; heap with arrays; transition system |
| `Common.dfy` | options, bytes, byte order | |

## Conventions

- The `log` of the auto-create protocol, the `ticket` numbers, `names`
  and ticket sets of the retry queue, and `all` of a ring are bookkeeping for the
  statements; no modelled operation looks at them.
- Clocks, API replies, nonces, the SHA-256 suffix and the AES-GCM cipher are
  parameters. The cipher is assumed to invert (`Cipher.Inverse`), the suffix to
  be nine ASCII bytes.
- `Reachable`, `Run` and `FreshIDs` quantify over every sequence of actions from
  a fresh process, with any number of requests, flushes and restarts.

## Where the code does not keep a promise

Each of these is proved, with the exact condition where there is one.

- Creation is not exclusive per key in general. Without test
  creates, no creation is repeated before the earlier one was removed or expired
  exactly if a limiter lets in one creating thread or one work request at a time
  (`ExclusiveIff`). With test creates around, what a work request
  begins is separated exactly if there is one mutate slot, or no room for work
  requests at all (`WorkExclusiveIff`). Test creates do not look at the cache
  again under the slot, so they repeat creations even with one slot
  (`TestCreateRepeats`, `TestExclusiveIff`).
- The backoff converts a float to a Duration without a range check
  (queue/queue.go:319). What a platform makes of a product that overflows, and
  with a base of zero of the NaN after 1024 refusals, decides whether the
  schedule holds in every run (`AlwaysSpacedIff`); with the defaults the 31st
  failure leaves the range (`DefaultBackoffBreaks`).
- An item can be removed without its own send being accepted exactly if two pushed items
  share an ID, whatever the size of the queue (`OwnsRemovalsIff`).
- Flush does not save and draining an empty queue leaves the old file behind: an
  item that Icinga2 accepted and that was removed can be queued again after a
  restart (`AcceptedItemReturns`). `DrainRestartIff` says which items return;
  only without a file can none (`NothingReturnsIff`).
- The window bound of the token bucket and the invisibility of its eviction hold
  exactly if burst <= rate * (ttl + 1 ns) (`WindowBoundIff`, `UnobservableIff`);
  for the whole rates that the program passes (main.go:164) that is
  burst <= rate * ttl (`WholeRatesIgnoreTheTick`).
- The Retry-After header can be one truncated nanosecond short
  (`HeaderEnoughIff`, `HeaderFallsShort`); it is always honest exactly if the rate
  is at least one per second or a token takes a whole number of nanoseconds
  (`AlwaysHonouredIff`). The program itself passes an integer rate (main.go:164),
  so only other callers of `New` can meet this.
- Changing the history path does not recount the lines (`PathChangeCountsIff`);
  `PathChangeIsBounded` says how far the file can then exceed its limit.
- Two overlapping updates of the configuration can leave the older one on disk;
  the file follows memory in all interleavings exactly if updates do not overlap
  (`FollowsIff`).
- `AllEntries` and `GetFreezeInfo` differ at the instant a freeze ends
  (`FreezeViewsAgreeIff`), and composite keys sort like (host, service) pairs
  exactly for hosts above byte 0x1f (`SortsFaithfullyIff`).
- Importing a masked configuration restores it exactly if targets that share an
  ID agree on their keys (`MaskImportIff`).

Where comments and code disagree the code is modelled: `Enqueue` never returns
an error when it drops an item (queue/queue.go:99-123), `maskConfig` leaves user
passwords alone although it speaks of all secrets (handler/settings.go:78-89),
and `Append` does rotate inline (history/logger.go:94-123).

## Model

| member | source | states |
|---|---|---|
| `AutoCreateHistory.PendingHasCreator` | handler/work_mode.go:94-143 | In every interleaving of work and test requests, resync, prune, admin removal, eviction and clock ticks, a Pending entry implies a thread between its SetPending and its Register or Remove for that key. |
| `AutoCreateHistory.EveryForwardIsJustified` | handler/work_mode.go:208-225 | Each SendCheckResult of every run is preceded for its key by a positive create reply, "already exists", a conflict or a managed listing, or by the same thread's failed create or slot timeout. |
| `AutoCreateHistory.SenderIsJustified` | handler/work_mode.go:208-225 | The justification is already in the past when the thread is about to make the call, not only when it returns. |
| `AutoCreateStories.RequestsTellTheirStory` | handler/work_mode.go:71-143 | In every run the events of a finished request form a complete story of its kind: for work requests turned away, given up, or looked (waiting while Pending, up to 10 s), created and settled as the reply demands, checked, sent and queued; for test creates and deletions likewise. |
| `AutoCreateStories.WorkEndsOnce` | handler/work_mode.go:190-246 | Every finished work request was turned away by the limiter, found its service frozen, or was sent: exactly one of these, exactly once. What was not frozen at the check was sent; what was refused, and only that, was queued. |
| `AutoCreateObservations.ObservationsAreTrue` | handler/work_mode.go:71-83 | In every run a cache look sees what the last write of the key within the TTL implies, a freeze check what the last freeze or unfreeze said, and a request is turned away exactly if the queue is full. |
| `AutoCreateObservations.HistoryCounts` | icinga/ratelimiter.go:49-75 | The limiter's queue count and the frozen services are those that the history implies. |
| `AutoCreateObservations.Surroundings` | main.go:727-731 | Resync registers, prune and admin remove, freezes begin and end, expiry evicts; each for its own key only. |
| `AutoCreateHistory.SoundStep` | handler/work_mode.go:71-143 | Every atomic step keeps the invariant that ties the cache to the last write of each key, flights to threads, registrations to evidence, and the counters to the threads. |
| `AutoCreateExclusive.RecheckClears` | handler/work_mode.go:112-118 | Where creating threads exclude each other, the second needsCreate never sees Pending, and not finding the service means that every earlier creation of the key was settled. |
| `AutoCreateExclusive.ExclusiveSeparates` | handler/work_mode.go:100-143 | Where they do, between any creation and any earlier one of its key lies a removal, or a registration that was left alone for longer than the TTL; over all runs, for all creations or for those begun by work requests. |
| `AutoCreateRivals.WorkCreationsAreSeparated` | handler/work_mode.go:100-143 | With one mutate slot this holds for every creation begun by a work request, in every run, test creates included. |
| `AutoCreateRivals.TwoCreators` | handler/work_mode.go:112-122 | Without a limiter, or with two mutate slots and room for both, there is a run in which two requests of any kinds create the same key back to back. |
| `AutoCreateRivals.TestCreateRepeats` | handler/test_mode.go:39-71 | Even with one slot, a test create that waited for it repeats a creation that has just succeeded. |
| `AutoCreateRivals.ExclusiveIff` | handler/work_mode.go:100-122 | For every configuration: without test creates, creations of one key are separated in all runs if and only if there is a limiter with at most one mutate slot, one status slot or one place in the queue. |
| `AutoCreateRivals.WorkExclusiveIff` | handler/work_mode.go:100-122 | For every configuration: with test creates, those begun by work requests are separated in all runs if and only if there is a limiter with at most one mutate slot, or without status slots or places in the queue. |
| `AutoCreateRivals.TestExclusiveIff` | handler/test_mode.go:53-71 | For every configuration: with test creates, all creations are separated in all runs if and only if there is a limiter without mutate slots, or with one and a negative TTL. |
| `AutoCreateSlots.LimiterAccounting` | icinga/ratelimiter.go:33-75 | In every reachable state queued is the number of threads waiting, holding, mid-cancel or mid-release; slots in use are bounded by queued and by capacity; creators in flight are bounded by the mutate capacity. |
| `AutoCreateSlots.ReleaseNeverBlocks` | icinga/ratelimiter.go:42-75 | A release always finds its own token, for both semaphores. |
| `AutoCreateSlots.AccountedStep` | icinga/ratelimiter.go:33-75 | Every step, by whichever thread, keeps the accounting invariant. |
| `AutoCreateProgress.NoDeadlock` | handler/work_mode.go:190-208 | If each semaphore has a slot, all requests can finish from every reachable state without any timeout firing, in at most twenty steps each: the nested status-then-mutate acquisition cannot deadlock. |
| `AutoCreateProgress.SomebodyAdvances` | handler/work_mode.go:71-83 | If each semaphore has a slot, then while a request is unfinished some request can take a step that brings it closer to its end; polling on Pending cannot block everybody. |
| `AutoCreateProgress.StridesAreBounded` | handler/work_mode.go:71-143 | In every run, with all timeouts and failures, the requests take at most twenty steps each beside the rounds of the wait loop. |
| `RateLimiter.Limiter.EnterQueue` | icinga/ratelimiter.go:49-67 | Acquiring: each atomic section of the object (with TakeStatusSlot, LeaveQueue and TakeMutateSlot) changes its counters exactly as the protocol's step of the thread that runs it, and admits exactly when the protocol does. |
| `RateLimiter.Limiter.ReturnStatusSlot` | icinga/ratelimiter.go:42-75 | Releasing: in accounted states the receive finds a token and is the releasing thread's step (with ReturnMutateSlot and Uncount). |
| `ServiceCache.SplitRecoversPair` | cache/services.go:77-88 | Splitting a composite key gives back host and service if and only if the host has no separator byte. |
| `ServiceCache.KeyOrderIsPairOrder` | cache/services.go:225-262 | For hosts above 0x1f, comparing composite keys is comparing (host, service) pairs. |
| `ServiceCache.SortsFaithfullyIff` | cache/services.go:225-262 | A host sorts faithfully against all hosts above 0x1f if and only if all its own bytes are above 0x1f. |
| `ServiceCache.EvictionUnobservable` | cache/services.go:265-278 | In every run with a non-decreasing clock, leaving out all evictions changes no answer. |
| `ServiceCache.VisibleThroughTTL` | cache/services.go:92-104 | A written entry is seen from its writing to the end of its TTL, inclusive, and no other key is affected. |
| `ServiceCache.ViewIsLookup` | cache/services.go:140-152 | The timed map holds exactly the unexpired entries with their states, and GetState looks it up. |
| `ServiceCache.FreezeLasts` | cache/services.go:156-160 | A freeze lasts up to and including its instant, or for ever, and for its own service only. |
| `ServiceCache.RowShowsPair` | cache/services.go:225-262 | The listed row of a registered pair shows its host, service, state and freeze. |
| `ServiceCache.FreezeViewsAgreeIff` | cache/services.go:176-189 | The listing and GetFreezeInfo agree on Frozen except exactly at the instant of expiry. |
| `ServiceCache.ListingUnique` | cache/services.go:225-262 | Two key-sorted listings with the same rows are equal, so the contract of AllEntries determines its result. |
| `ServiceCache.Cache.GetState` | cache/services.go:92-104 | The answer is the timed map's, NotFound for absent and expired keys. |
| `ServiceCache.Cache.SetState` | cache/services.go:112-130 | Register, SetPending and SetPendingDelete overwrite one key of the timed map and restart its clock. |
| `ServiceCache.Cache.Remove` | cache/services.go:133-137 | The key disappears from the timed map at every time; nothing else changes. |
| `ServiceCache.Cache.All` | cache/services.go:140-152 | The loop builds the timed map. |
| `ServiceCache.Cache.Len` | cache/services.go:281-293 | The count is the size of the timed map. |
| `ServiceCache.Cache.EvictExpired` | cache/services.go:265-278 | Exactly the expired entries go, and the returned number is how many. |
| `ServiceCache.Cache.GetFreezeInfo` | cache/services.go:176-189 | Frozen until strictly after the instant; the expiry is reported only while frozen. |
| `ServiceCache.Cache.AllEntries` | cache/services.go:225-262 | One row per live entry, with its split key and freeze, in key order. |
| `RetryConservation.Conservation` | queue/queue.go:101-123 | At every moment of every run, enqueued + restored = depth + totalDropped + removed on success; the queue is in enqueue order, at most max(MaxSize, restored) long, and its head has the minimal EnqueuedAt. |
| `RetryConservation.ConservedStep` | queue/queue.go:225-303 | Each locked section keeps queued, removed and dropped items disjoint and complete. |
| `RetryDrops.DroppedAreOldest` | queue/queue.go:105-111 | In every run, whatever was dropped is older than whatever is still queued, and nothing is dropped before more items were enqueued or restored than fit. |
| `RetryPasses.FlushSendsEverything` | queue/queue.go:147-184 | From every state, a flush without refusals empties the queue and counts every item. |
| `RetryPasses.ProcessorSendsWhatIsDue` | queue/queue.go:225-278 | From every state with distinct IDs, a pass of the processor without refusals leaves exactly the items that are not due. |
| `RetryPasses.CountersAreExact` | queue/queue.go:256-271 | In every run totalRetried counts the accepted sends, and totalFailed the refused ones of the processor, not those of flushes. |
| `RetryOwnership.RemovalsAreOwn` | queue/queue.go:158-182 | With distinct IDs an item leaves on success only if its own send was accepted, and removals never exceed totalRetried. |
| `RetryIdentity.SharedIDRemovesUnsent` | queue/queue.go:288-303 | For every list of pushed IDs with a repetition and every queue size there is a run that pushes exactly these, sends and accepts only the earlier item, and removes the later one. |
| `RetryIdentity.OwnsRemovalsIff` | queue/queue.go:158-182 | All runs that push a given list of IDs remove only items whose own send was accepted if and only if the IDs are pairwise distinct. |
| `RetryOwnership.DrainedItemsSurvive` | queue/queue.go:187-202 | Whatever passes are still running after Drain, every drained item is queued again after a restart, unless its send was accepted or it was dropped on overflow. |
| `RetryShutdown.DrainRestartIff` | queue/queue.go:187-202 | In every run, Drain and New queue exactly those removed items again that are on file, and not dropped, when the queue is empty; none if and only if the queue is not empty or only dropped items are on file; and the same list if and only if there is something to save or nothing on file. |
| `RetryShutdown.AcceptedItemReturns` | queue/queue.go:180-195 | With distinct IDs: Enqueue, a refused processor pass that saves, an accepted Flush, then the shutdown queue an accepted and removed item again. |
| `RetryShutdown.NothingReturnsIff` | queue/queue.go:187-202 | No run queues a removed item again if and only if the queue is not kept on disk. |
| `RetryShutdown.OnlyTheProcessorSaves` | queue/queue.go:280-285 | In every run the file changes only when the processor saves after a pass, or at a Drain that finds something to save. |
| `RetrySchedule.ItemsAreSpaced` | queue/queue.go:305-316 | Every queued item of every run keeps NextRetry >= EnqueuedAt + the sum of the capped exponential delays, with flushes, drops and restarts interleaved, as long as no overflow or NaN cuts its backoff short. |
| `RetrySchedule.AutomaticRetriesAreSpaced` | queue/queue.go:225-236 | So the processor never takes an item for its n-th retry before the sum of the first n + 1 delays has passed. |
| `RetryScheduleLimits.OverflowBreaksSchedule` | queue/queue.go:318-324 | If an overflow falls below the cap, there is a run that schedules an item too early. |
| `RetryScheduleLimits.NaNBreaksSchedule` | queue/queue.go:318-324 | With a base of zero, and if NaN converts to a negative Duration, so does the run with 1024 refusals. |
| `RetryScheduleLimits.AlwaysSpacedIff` | queue/queue.go:318-324 | For a positive cap, or a base that is negative or at most the cap: every item of every run keeps the schedule if and only if base is negative, or it is zero and NaN converts to at least zero, or it is positive and an overflow converts to at least the cap. |
| `RetryQueue.BackoffCorrectIff` | queue/queue.go:318-324 | The backoff is min(base * 2^attempts, max) if and only if the product does not underflow, an overflow converts to at least the cap, and NaN converts to no delay. |
| `RetryQueue.BackoffSufficesIff` | queue/queue.go:318-324 | It is at least that if and only if an overflow converts to at least the cap, and NaN to no less than no delay. |
| `RetryQueue.DefaultBackoffBreaks` | queue/queue.go:318-324 | With 5 s and 300 s, and a conversion to the smallest Duration, 30 attempts are capped right and 31 are not. |
| `RetryQueue.Compact` | queue/queue.go:292-298 | Overwriting in place while reading equals filtering by ID, in order. |
| `RetryQueue.Queue.RemoveByIDs` | queue/queue.go:288-303 | The slice becomes the filtered list and the freed tail is cleared. |
| `RetryQueue.WithoutIff` | queue/queue.go:292-298 | A removal leaves exactly the items whose ID is not listed. |
| `RetryQueue.ReadyIff` | queue/queue.go:229-237 | A snapshot takes exactly the items whose time has come. |
| `RetryQueue.Queue.Enqueue` | queue/queue.go:101-123 | A full queue loses exactly its first item and counts it, a queue with room loses none; the new item goes to the end with zero attempts and base delay, in the same array or a new one. |
| `RetryQueue.Queue.IncrementAttempt` | queue/queue.go:305-316 | Only the first item with the ID changes: one more attempt and a new retry time. |
| `RetryQueue.Queue.SnapshotReady` | queue/queue.go:229-237 | The snapshot is the due items in queue order. |
| `RetryQueue.Queue.GetStats` | queue/queue.go:126-144 | Depth, limit, counters, the processing flag and the EnqueuedAt of the head (minimal by Conservation). |
| `TokenBucket.Budget` | ratelimit/limiter.go:47-75 | Tokens are conserved over every run: admitted plus left at the end is at most level at the start plus accrued. |
| `TokenBucket.WindowIsBounded` | ratelimit/limiter.go:47-75 | For every key, trace and window [s, t], at most burst + rate * (t - s) requests are admitted, if a bucket refills before it can be evicted. |
| `TokenBucketLimits.WindowBoundIff` | ratelimit/limiter.go:100-109 | With a clock of whole nanoseconds, that bound holds for all runs if and only if burst <= rate * (ttl + 1 ns). |
| `TokenBucket.EvictionIsUnobservable` | ratelimit/limiter.go:100-109 | Under that condition the answers, waits included, equal those of a limiter that never evicts. |
| `TokenBucketLimits.UnobservableIff` | ratelimit/limiter.go:100-109 | And only under that condition. |
| `TokenBucketLimits.WholeRatesIgnoreTheTick` | ratelimit/limiter.go:32-42 | For whole rates below 10^9 and a TTL in whole seconds, the condition is burst <= rate * ttl. |
| `TokenBucketLimits.CheatAdmitsTwice` | ratelimit/limiter.go:100-109 | Spending the burst, idling just past the TTL and spending it again admits 2 * burst. |
| `TokenBucketLimits.AdmittedAfterNeed` | ratelimit/limiter.go:62-74 | After a denial, a client alone on its key is admitted once it waited for the unrounded time and, without an eviction, not before. |
| `TokenBucketLimits.WaitTruncates` | ratelimit/limiter.go:72-74 | The returned Duration falls short of the needed time by less than one nanosecond. |
| `TokenBucketLimits.HeaderEnoughIff` | handler/webhook.go:72-79 | The Retry-After seconds suffice unless the need exceeds a whole number of seconds, at least one, by less than a nanosecond. |
| `TokenBucketLimits.HeaderIsLeast` | handler/webhook.go:72-79 | The header is at least one second, and one second less would be too short otherwise. |
| `TokenBucketLimits.OneSecondIsEnough` | handler/webhook.go:72-79 | With a rate of at least one per second the header is 1, and waiting it out leads to admission. |
| `TokenBucketLimits.HeaderFallsShort` | handler/webhook.go:72-79 | With a rate of 0.3 and a burst of 1, a client is told to wait two seconds, does, and is denied again. |
| `TokenBucketLimits.AlwaysHonouredIff` | handler/webhook.go:72-79 | With a clock of whole nanoseconds: after every history, waiting for the advertised seconds leads to admission, in all runs, if and only if the rate is at least one per second or 10^9 / rate is whole. |
| `TokenBucket.Limiter.Allow` | ratelimit/limiter.go:47-75 | Answer and new bucket as in the runs above; unknown keys start full. |
| `TokenBucket.Limiter.EvictIdle` | ratelimit/limiter.go:100-109 | Exactly the buckets idle for longer than the TTL go. |
| `HistoryLog.RotationInvariant` | history/logger.go:96-137 | Every run of Append, Clear, rotation and same-path UpdateConfig keeps the counter equal to the line count, the file a suffix of what was written since the last Clear and, once within it, the bound maxEntries + (appendCount mod 100). |
| `HistoryLog.StepFacts` | history/logger.go:284-303 | Each operation keeps these, and a rotation or reconfiguration establishes the bound. |
| `HistoryLog.RotatedFacts` | history/logger.go:291-402 | With a right counter, rotation leaves exactly the last Min(lines, limit) lines. |
| `HistoryLog.AppendAdds` | history/logger.go:96-123 | The new line goes behind the old ones, which all stay, except at every hundredth append, where as many of the last lines stay as the limit allows. |
| `HistoryLog.EnoughIsKept` | history/logger.go:96-137 | In every run that keeps the path the file holds at least as many of the lines written since the last Clear as the least limit in force since then. |
| `HistoryLog.NothingLostBelowLimit` | history/logger.go:96-137 | From a freshly opened log, all lines written since the last Clear are there as long as that limit is not exceeded. |
| `HistoryLog.PathChangeCountsIff` | history/logger.go:411-433 | After UpdateConfig the counter is right if and only if it exceeded the new limit (and the file exists, or the limit is not negative) or happens to be the new file's length. |
| `HistoryLog.PathChangeCanMiss` | history/logger.go:424-429 | From a freshly opened log, a longer file under the new path can stay untrimmed and miscounted. |
| `HistoryLog.PathChangeIsBounded` | history/logger.go:411-433 | After any change of path and any further run, the lines unknown to the counter stay as many or vanish, and the file has at most the limit, plus these, plus (appendCount mod 100) lines. |
| `HistoryLog.Logger.Append` | history/logger.go:96-123 | The line is added and both counters move; every hundredth append rotates. |
| `HistoryLog.Logger.Clear` | history/logger.go:126-137 | The file and both counters are reset, or nothing changes if there is no file. |
| `HistoryLog.Logger.RotateLockedInline` | history/logger.go:291-402 | The skipping loop leaves the last maxEntries lines and their number. |
| `HistoryLog.Logger.UpdateConfig` | history/logger.go:411-433 | New path and limit, append counter reset, one rotation with the old line counter. |
| `HistoryQuery.Query` | history/logger.go:151-224 | The result is the newest min(limit, 10000) matching entries, newest first, all of them without a positive limit; every result meets each condition that is set, and without a limit every such entry is there. |
| `HistoryQuery.NewestComesFirst` | history/logger.go:209-223 | Without a limit, a new line that meets the filter comes first and changes nothing else. |
| `HistoryQuery.LimitCuts` | history/logger.go:155-167 | A limit cuts that answer after min(limit, 10000) entries. |
| `HistoryQuery.OwnFilterFinds` | history/logger.go:170-187 | The filter made from an entry's own fields finds it, and otherwise only entries that agree with it. |
| `HistoryQuery.QueryRing` | history/logger.go:151-224 | The ring buffer, unrolled, equals the newest matching entries of the whole file. |
| `HistoryQuery.Reverse` | history/logger.go:151-224 | Swapping from both ends reverses the array. |
| `HistoryQuery.RotationShortensToPrefix` | history/logger.go:291-402 | Losing older lines cuts every query's answer to a prefix. |
| `HistoryStats.GetStats` | history/logger.go:436-536 | Totals, all six breakdowns, last sightings, errors, durations, the newest 20 entries and the newest 10 failed ones are those of the whole log. |
| `HistoryStats.TallyMeans` | history/logger.go:464-487 | Each count is the number of log entries that count under that key, and only occurring keys are listed. |
| `HistoryStats.BreakdownsCount` | history/logger.go:464-490 | The six breakdowns and the error count, said of the fields of the entries. |
| `HistoryStats.RecentErrorsIff` | history/logger.go:495-533 | Recent errors are refused entries or entries with an error text; all of them are there unless ten are; likewise twenty recent entries. |
| `HistoryStats.TallySum` | history/logger.go:464-487 | Each breakdown adds up to the number of entries that count for it. |
| `HistoryStats.BreakdownsAddUp` | history/logger.go:464-474 | TotalEntries is the sum of ByMode, of ByAction and of BySource. |
| `HistoryStats.LatestIsMax` | history/logger.go:481-486 | The last sighting of a source and address is the greatest of its timestamps. |
| `Utf8.DecodeEncode` | models/grafana.go:109-123 | Encoding runes gives well-formed UTF-8, and decoding returns the runes. |
| `Utf8.EncodeDecode` | models/grafana.go:109-123 | Every well-formed byte string is the encoding of its decoding. |
| `Utf8.SplitAtStart` | models/grafana.go:118-121 | A rune start splits well-formed text into two well-formed parts. |
| `ServiceName.CutIsClose` | models/grafana.go:117-121 | The back-off ends on a rune boundary at most three bytes back. |
| `ServiceName.TruncateServiceName` | models/grafana.go:111-123 | For every well-formed name the result is well-formed and at most 200 bytes; short names are unchanged. |
| `ServiceName.KeptIsTrimmedCut` | models/grafana.go:117-122 | What is kept of a long name is its first 191 bytes, at most three fewer so as not to split a rune, without white space at its ends. |
| `ServiceName.LongNamesCollideIff` | models/grafana.go:109-123 | Two long names become equal if and only if their hash suffixes and their cut and trimmed fronts agree. |
| `ServiceName.AlertsCollideIff` | models/grafana.go:81-91 | Two alerts with long names get the same service name if and only if the digests of their full names agree, and what is kept of these. |
| `ServiceName.SanitizedRunes` | models/grafana.go:96-107 | No '!', no ASCII control character and no white space but the plain space survives. |
| `ServiceName.SanitizeIdempotent` | models/grafana.go:96-107 | Sanitising twice is sanitising once. |
| `ServiceName.SanitizeFixesIff` | models/grafana.go:96-107 | The texts left alone are exactly those without forbidden runes, outer spaces or double spaces. |
| `ServiceName.SanitizeTidy` | models/grafana.go:96-107 | In otherwise tidy text every '!' becomes '_' and nothing else changes. |
| `ServiceName.SanitizeGap` | models/grafana.go:96-107 | Any run of control characters and white space becomes one space between what is left of both sides, and nothing at an end. |
| `ServiceName.Name` | models/grafana.go:81-91 | The service name is well-formed and safe: the sanitised alertname, or with a summary "alertname - summary"; over 200 bytes, what is kept of that and the digest of all of it, at most 200 bytes. |
| `ConfigStore.DeepCopy` | configstore/store.go:257-277 | The copy reads the same and shares no slice with the original. |
| `ConfigStore.EncryptTargets` | configstore/store.go:202-209 | The nested loop over slices in place leaves keys that all are sealed and decrypt to the old ones. |
| `ConfigStore.Store.Save` | configstore/store.go:178-254 | The file decrypts to the configuration in memory with a new UpdatedAt and holds no secret in the clear; memory is unchanged. |
| `ConfigStore.Store.Load` | configstore/store.go:134-175 | Succeeds if and only if every secret decrypts, and then memory means what the file means; otherwise memory is unchanged. |
| `ConfigStore.SaveThenLoad` | configstore/store.go:134-217 | Save then Load succeeds and restores every field except UpdatedAt, for any numbers of targets, keys and users. |
| `ConfigDocument.DecryptsUnique` | configstore/store.go:134-175 | A stored document means at most one configuration. |
| `ConfigStore.Store.Get` | configstore/store.go:257-277 | A fresh configuration equal to the stored one, the zero one if there is none. |
| `ConfigStore.Store.GetMasked` | handler/settings.go:79-104 | The answer shows no Icinga2 password and no key, and everything else; the store is unchanged, although masking writes through slices. |
| `ConfigDocument.MaskedAlikeIff` | handler/settings.go:79-89 | Two configurations are masked alike if and only if they differ in nothing but the texts of their Icinga2 passwords and keys. |
| `ConfigDocument.HiddenIsUnique` | handler/settings.go:79-89 | Hiding the secrets and keeping everything else determines the answer. |
| `ConfigStore.MaskConfig` | handler/settings.go:79-89 | In place, the Icinga2 password and every API key become "***"; the result hides both and equals the original otherwise. |
| `ConfigStore.Store.Update` | configstore/store.go:303-313 | Alone, it replaces the configuration, keeps the creation time, and the file follows. |
| `ConfigRaces.OlderCopyWins` | configstore/store.go:303-313 | Of two overlapping updates the older copy can be written last. |
| `ConfigRaces.FollowsIff` | configstore/store.go:178-191 | Whenever no update is under way the file holds the current configuration, in all interleavings, if and only if at most one update is under way at a time. |
| `ConfigStore.MergeConfig` | handler/settings.go:623-639 | In place, masked secrets are taken from the last current target with that ID and position. |
| `ConfigDocument.ImportTakesWhatIsNew` | handler/settings.go:623-639 | An import takes every new password and key, and everything that is not secret, as it is. |
| `ConfigDocument.ImportRestoresWhatIsMasked` | handler/settings.go:628-639 | It replaces a masked key by the key in its place in the last current target with the same ID; without one it stays masked. |
| `ConfigStore.Store.Import` | handler/settings.go:606-645 | Rejects without any change exactly the imports without version, targets or host names; otherwise merges, updates and saves. |
| `ConfigDocument.MaskImportIff` | handler/settings.go:623-641 | Importing the masked form over the same configuration gives it back if and only if targets sharing an ID agree on their common keys. |
| `ConfigStore.MaskThenImport` | handler/settings.go:79-89 | Through the store: masking the result of Get and importing it restores every secret and every field but UpdatedAt and Version. |

## Left out

- HTTP, JSON, TLS and the Icinga2 client: an API call is a reply (created, already exists, conflict, other error) or a success flag; the alert texts and statuses that handleWorkMode composes are not modelled.
- File-system failures, temporary files and renames, and the 1 MB scanner limit: a file is a sequence of lines or a document, and writing it succeeds.
- Rounding of float64 in the token bucket and in the backoff product above 2^53: the bucket is over reals, the product over integers; infinity, NaN and the conversions out of range are modelled.
- A nil ingress limiter, which admits everything, and a nil retry queue, which drops failed results.
- The time between needsCreate's first GetState and its reading of the deadline: they are one step; the end of a freeze is an environment step.
- A panic inside CreateService, which would leave a key Pending.
- RetryScheduleLimits.AlwaysSpacedIff: not for a cap of zero or less below a base of zero or more, where the code retries at once and the intended delays are not delays any more.
- RetryConservation.Conservation: requires MaxSize >= 1, because Enqueue indexes the first item of a full queue; the sums count from the last restart, as the counters do.
- The limit of ten concurrent sends in a pass, which only forbids some of the modelled interleavings.
- ServiceName.Name: no length bound for a bare alertname, because the code truncates only names with a summary.
- HistoryStats.GetStats: the maps by source and address are keyed by pairs instead of nested, and removing the port from an address is a parameter.
- ConfigStore.Store.Save: notification lists of a target are values, because no operation modelled here writes through them; concurrent saves are modelled in ConfigRaces, by the numbers of the configurations.
- MigrateFromEnv, ToConfig, SetUsers, GetUsers and HandlePatchSettings: field-by-field copies.
- AllFrozen, Unfreeze and Exists of the cache: one-line variants of the modelled operations.
- Dashboard, login, audit log, metrics, RBAC, authentication, health checks, server-sent events and route wiring: they take no part in the protocols and round trips above.
