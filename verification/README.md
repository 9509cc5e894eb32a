# Verified model of the Dadata coordination and the organization cards

This project models, in Dafny, the parts of the application where several processes or several functions
have to agree: the Redis job queue and the full refresh on top of it, the limiters and budgets around the
external service, the writes to organization cards, and two self-contained algorithms. It proves what
those parts guarantee over every run and every input.

`dafny verify dfyconfig.toml` checks everything.

## How it is built

- **The job queue.** `JobStore` gives each Redis script as a function on the store, `RedisStore` has the
  scripts and loops as methods of a class `Redis`, proved equal to those functions. `ReadOrder` is the order of reading, `JobProtocol` puts
  processes around them: a run is any interleaving of commands of web processes, workers that crash anywhere,
  recovery passes and parents of full refreshes. `QueueInvariant` proves the global invariant step by step,
  `QueueGuarantees` and `Settlement` what follows for runs, `EnqueueGuarantees` and `QueueEffects` what requests,
  claims and recoveries do in terms of users, streams and times, `ChildWeights`, `FullRefresh`,
  `FullRefreshGuarantees`, `SecondAttempt` and `LeftoverChild` the progress of a parent over its attempts, and
  `Worker` the client of the protocol.
- **Limiters and budgets.** `Windows` relates window counts to spacing, `SlidingWindow` and `LoginLimiter` use
  it, `DailyBudget` and `DadataClient` model the persistent counter and the requests that reserve from it,
  `FullRefreshLock` the lock with its daily limit.
- **Organization cards.** `CardInn` is one save as far as the INN is concerned, `CardRequisites` what becomes of each
  requisite, `InnTransactions` the interleaving of saves, `Cards`, `ApplyDadata`, `ApplyGuarantees` and `ApplyEffects`
  the application of external data, `Refresh` and `RefreshSession` the optimistic refresh, `RefreshAll` the grouping
  and the direct loop, `Contacts`, `ContactGuarantees` and `ContactInputs` the reconciliation of contacts.
- **Algorithms.** `XlsxColumns`, `StatsSort` and `StatsOrder`. `Options` and `Text` are shared.

## Assumptions

- One Redis script is one atomic step. So are the claim script with the write of the entry that follows it
  (`src/app/services/dadata/runtime.py:520-544`), `requeue_job` (601-635), and one promotion (647-657, its
  failure included), which the code performs as several commands.
- In the runs of the queue protocol, the caller of `requeue_job` still holds the current claim. The code does not
  check it; the runs of `Settlement.RequeueHarmlessIff` and `SettledAtMostOnceIff` have requeues by anybody.
- A parent may initialise its progress any number of times. The model assumes that the loop of
  its attempt before has stopped by then, as the lock of the full refresh is there to ensure.
- Jobs and dedupe keys do not expire (24 hours in the code). The lapse of a slot in the active set of a user,
  the lease and the full-refresh lock do expire.
- Job ids, claim tokens and row ids are fresh. Time in the queue is a real number that never goes back; in
  the limiters it is a number of ticks, and where readings must not go back the theorem says so.
- The clock of the Redis server never goes back, and a key is gone once that clock has reached the end of its
  PEXPIRE. Readings of callers relate to it as each theorem of `SlidingWindow` says.
- `rowcount` is zero when the upsert of the daily counter changes nothing, since `src/app/database.py` opens
  its connections without the found-rows flag.
- A successful `SELECT ... FOR UPDATE` is a lock held to the end of the transaction, and a transaction that
  raises is rolled back by its caller.
- The dictionary has one requisite type named INN. White space and digits are those of ASCII; lower case is
  that of Latin and Cyrillic letters.
- `list.sort` is a stable sort; `StatsSort.AnyStableSortAgrees` shows that this determines its result.
- Answers of Redis, of the external service and of clocks are parameters.

## Findings

Places where the code does not give what a reader might expect. Each has a concrete case as a lemma, and,
where it depends on a condition, the exact condition.

- `requeue_job` names no claim token and can revive a finished job: `Settlement.UnfencedRequeueRevives`, exactly when
  by `RequeueHarmlessIff` and `SettledAtMostOnceIff`.
- A second initialisation of progress leaves the status counters of the first attempt (`SecondAttempt.Miscounts`)
  and its live children, one of which can stand in for a child of the second attempt: a refresh counts as completed
  with a child never settled, and more than one batch is live, although all four counters were zero
  (`LeftoverChild.CompletedWithLiveChild`, `TwoBatchesAreLive`). An attempt is right whatever happens in it exactly
  when it finds neither live children nor those counters: `SecondAttempt.AlwaysRightIff`.
- The slot of a job in the active set lapses 24 hours after the enqueue even if the job still runs:
  `QueueGuarantees.CapLapsesWithTtl`, exactly when by `CapIsExceededIff`.
- The sliding window counts wrongly when the clock reading of one caller is behind that of another: by a tick for
  every limit but one (`SlidingWindow.StaleClockBreaksBound`), and by more than a second for that too, since the key
  has expired by then (`LateReadingBreaksBound`); exactly then by `AnyClockIsBoundedIff` and `OrderedReadingsIff`.
- Login attempts that overlap may all be checked before any is recorded, and each raises the bound of five by one:
  `LoginLimiter.BoundOfFiveIff`.
- A negative daily reserve passes the configuration check and breaks the daily limit: `DailyBudget.LimitHoldsIff`.
- A full refresh that lost its lock may still count itself when it ends: `FullRefreshLock.LostLockBreaksDailyLimit`. It
  takes a mark that comes before the renewal task finds the lock lost, since the check of the lease before the mark
  (`src/app/services/dadata/sync.py:695`) asks that task. `LimitHoldsFromStartIff` says exactly which runs keep the limit.
- A save whose payload does not name an INN under its type may change the INN without taking its lock, be it by an
  input with an id and no type (`CardInn.UntypedInputEscapesLock`) or by an empty payload on a card whose column
  does not show its INN row (`CardInn.EmptyPayloadEscapesLock`); exactly then, by `ChangedInnIsLockedIff`.

Two remarks rather than findings. `_get_organization_for_update`
(`src/app/services/organization_card_write.py:324-331`) takes no lock, in spite of its name; `InnTransactions`
therefore lets the INN a save has read be out of date, and its theorems hold all the same. A settlement name of white
space would clear the stored settlement (`ApplyGuarantees.BlankSettlementIsLost`), but the mapper of the external
answer never produces one.

## Model

| member | source | states |
|---|---|---|
| QueueInvariant.StepKeeps | src/app/services/dadata/runtime.py:313-725 | Every command of every process keeps the global invariant: entries name existing jobs, leases match claims and claim tokens, dedupe keys match live jobs, active sets cover the charged jobs within the cap, no queued job is without a way to be read |
| QueueGuarantees.NoJobIsLost | src/app/services/dadata/runtime.py:470-725 | In every reachable state, with crashes anywhere, a job that is not settled is either running with a claim and in the lease set, or queued and waiting in the schedule or in an entry that nobody is about to acknowledge |
| QueueGuarantees.LiveJobCanStillFinish | src/app/services/dadata/runtime.py:470-725 | From every reachable state each live job can still be brought to any outcome by steps the code takes itself: reads in the order of priority, promotion of due jobs, recovery of expired leases and of entries idle for a lease, fresh claims and their finishes |
| QueueGuarantees.KeyNamesItsLiveJob | src/app/services/dadata/runtime.py:346-385 | Two live jobs never share a dedupe key, and a key points to a job exactly while that job is live |
| QueueGuarantees.EnqueueReturnsLiveJob | src/app/services/dadata/runtime.py:386-413 | An enqueue that is not refused returns a live job of its key, among whose subscribers the user of a lookup or single refresh is, and changes no other job |
| EnqueueGuarantees.EnqueueDoes | src/app/services/dadata/runtime.py:346-385 | A request under a stored key subscribes its user there and changes nothing else; one of a user who holds as many slots as the cap is refused and only lapsed slots of that user go; any other makes one job with what it asked for, its entry in the stream of its kind, its key, and for lookups and single refreshes its user as owner, subscriber and holder of a slot for 24 hours |
| EnqueueGuarantees.JobsComeFromRequests | src/app/services/dadata/runtime.py:313-345 | In every run each job has the kind, key, parent, weight, time and user of the request that created it, and every entry of the log is in the stream of the kind of its job |
| EnqueueGuarantees.CapCountsRequests | src/app/services/dadata/runtime.py:341-383 | In every run a user has at most as many unsettled jobs from lookups and single refreshes of the last 24 hours as the cap allows; a further one is refused exactly when there are that many and no unsettled job has its key; no other request is refused |
| EnqueueGuarantees.SubscribersAreAskers | src/app/services/dadata/runtime.py:341-366 | In every run the subscribers of a job are exactly the users whose lookup or single refresh was answered with it |
| QueueGuarantees.UserCapIsExact | src/app/services/dadata/runtime.py:373-383 | No user owns more than the cap of live jobs younger than the status TTL, and a lookup or single refresh of the user is refused exactly when its key is free and the user already owns that many; see EnqueueGuarantees.CapCountsRequests for the same in terms of requests |
| QueueGuarantees.UserCapBoundsAllLiveJobs | src/app/services/dadata/runtime.py:373-383 | The cap bounds all live jobs of a user if and only if those older than the status TTL fit beside the younger ones, so whenever there are none |
| QueueGuarantees.CapIsExceededIff | src/app/services/dadata/runtime.py:373-383 | A request under a free key creates a job if and only if fewer live jobs of its user than the cap are younger than the TTL; for a user with exactly as many live jobs as the cap, if and only if one of them has outlived it |
| QueueGuarantees.CapLapsesWithTtl | src/app/services/dadata/runtime.py:374-382 | A reachable state where a user has two live jobs under a cap of one: the slot of a job that keeps running lapses with the TTL of its enqueue |
| Settlement.SettledAtMostOnce | src/app/services/dadata/runtime.py:48-83 | Over every run a job is settled at most once, and once it is settled its record never changes again |
| Settlement.SupersededTokenIsPowerless | src/app/services/dadata/runtime.py:39-83 | From the moment a claim token is superseded, no heartbeat or finish with it ever changes the store again |
| Settlement.LiveLeaseIsNeverStolen | src/app/services/dadata/runtime.py:112-119 | If the heartbeats of a claimant land before its lease expires, its claim and lease survive every action of everybody else, and its finish then succeeds |
| QueueEffects.LeaseIsExact | src/app/services/dadata/runtime.py:112-119 | In every run the lease of a running job lasts 120 seconds from its claim or the last heartbeat of its holder, and a recovery takes the job back exactly when they are over |
| QueueEffects.SettledJobShowsItsReport | src/app/services/dadata/runtime.py:48-60 | In every run a job is settled exactly when a holder has reported an outcome, and shows the status, result and message of the first report for ever after |
| QueueEffects.EntriesAreAcknowledged | src/app/services/dadata/runtime.py:60-63 | In every run the entry a job was last claimed or recovered from is acknowledged whenever the job does not run |
| QueueEffects.ClaimDoes | src/app/services/dadata/runtime.py:507-544 | A claim takes exactly a queued job, under a token no job bears, for 120 seconds, and records its entry; otherwise only the acknowledgement is left to do |
| QueueEffects.FinishDoes | src/app/services/dadata/runtime.py:48-83 | The holder of a job ends it with any outcome: lease, entry, slot and key are released and the parent counts the weight under that status and in `processed`; a finish by anybody else changes nothing |
| QueueEffects.RecoveryOfEntryDoes | src/app/services/dadata/runtime.py:85-149 | The recovery of an idle entry leaves a running job with a live lease alone, acknowledges the entry of a settled job, and puts any other job back in the stream of its kind, unclaimed, with that entry acknowledged |
| QueueEffects.RecoveryOfLeaseDoes | src/app/services/dadata/runtime.py:112-149 | The recovery of a lease returns exactly a running job whose lease is over to the stream of its kind, and changes no job or entry otherwise |
| QueueEffects.PromotionDoes | src/app/services/dadata/runtime.py:638-658 | A promoted job gets one entry in the stream of its kind and leaves the schedule; when its entry cannot be added it is due a second later instead |
| QueueEffects.ChangesAreStamped | src/app/services/dadata/runtime.py:433-436 | Every action that changes a record sets its time of change, but for a further subscriber |
| QueueEffects.TotalIsOfTheAttempt | src/app/services/dadata/runtime.py:449-454 | In every run the total of a parent is that of the groups of its latest attempt, whatever its children did |
| Settlement.RequeueHarmlessIff | src/app/services/dadata/runtime.py:601-635 | Over every run in which anybody may requeue at any time: no requeue disturbs a settlement or the claim of somebody else if and only if each finds its job missing, or live and claimed by nobody but the caller |
| Settlement.GuardedSettledAtMostOnce | src/app/services/dadata/runtime.py:601-635 | While every requeue of such a run meets that guard, the global invariant is kept, every job is settled at most once, and a settled record never changes |
| Settlement.SettledAtMostOnceIff | src/app/services/dadata/runtime.py:601-635 | After a requeue the job is settled at most once, all told and in every continuation, if and only if it was live; a settled one is settled again by steps the workers take anyway |
| Settlement.UnfencedRequeueRevives | src/app/services/dadata/runtime.py:601-635 | A reachable state in which the requeue brings a finished job back to life |
| FullRefreshGuarantees.ProgressIsConserved | src/app/services/dadata/runtime.py:65-72 | Every status counter is the summed weight of the children settled with that status; `processed` is the sum of the counters in a first attempt, and in a later attempt that found no live child it is what they gained since it began |
| FullRefreshGuarantees.AtMostOneBatchIsLive | src/app/services/dadata/sync.py:645-668 | At every moment of a first attempt, and of any other that found no live child when it began, at most one batch of the children of the parent is not settled |
| FullRefreshGuarantees.PollIsExact | src/app/services/dadata/sync.py:663-668 | In a first attempt, and in any other that found no live child: the poll of the parent succeeds exactly when every child enqueued so far is settled, and the counter is then exactly what was enqueued |
| FullRefreshGuarantees.NextBatchBeginsIff | src/app/services/dadata/sync.py:645-668 | After a poll of such an attempt the parent goes on to the next batch exactly when no child is live and a group is left |
| FullRefreshGuarantees.SummaryIsExact | src/app/services/dadata/sync.py:669-705 | When the wait loops of a first attempt, or of one that began clean, are over: processed equals the total, updated + skipped + failed equals the total, and the refresh counts as completed exactly when no child of the attempt failed or was rate limited |
| FullRefreshGuarantees.SummaryIsExactIff | src/app/services/dadata/sync.py:669-692 | When an attempt that found no live child is over, its summary is exact if and only if it found no success, missing or skipped organization, and no rate-limited one that a failure of its own could be blamed on |
| FullRefreshGuarantees.FirstAttemptFindsNothing | src/app/services/dadata/sync.py:643-645 | A first attempt finds no live child and no counter, and every child of its parent is its own |
| SecondAttempt.AlwaysRightIff | src/app/services/dadata/sync.py:643-692 | Seen when a parent begins, for the first time or again: its batch bound and its summary are right for all groups and in every continuation of that attempt if and only if earlier attempts left no live child and no success, missing, skipped or rate-limited organization in the counters |
| SecondAttempt.LeftoverSpoilsWait | src/app/services/dadata/sync.py:661-683 | A live child of an earlier attempt can end in the next one, be counted there, and end its wait while a child of its own is live |
| LeftoverChild.TwoBatchesAreLive | src/app/services/dadata/sync.py:645-660 | A reachable second attempt that found all four counters zero and has two batches of one live at once |
| LeftoverChild.CompletedWithLiveChild | src/app/services/dadata/sync.py:661-706 | A reachable second attempt that found all four counters zero, is over and counts as completed, although a child of it was never settled |
| SecondAttempt.Miscounts | src/app/services/dadata/runtime.py:449-454 | Organizations that succeed in both attempts make the parent report as many failures below zero, and a failed refresh |
| FullRefresh.StepKeepsRefresh | src/app/services/dadata/sync.py:643-706 | Every action keeps the refresh invariant, through any number of attempts of each parent: conservation, child keys under their parent, each session at its place in its groups, and for an attempt that found no live child its own weights |
| ReadOrder.NextEntryIsMostUrgent | src/app/services/dadata/runtime.py:481-500 | The entry read next is waiting, no waiting entry is of a more urgent stream, and none of the same stream is older; nothing is read only when nothing waits |
| RedisStore.PromotedExactlyOnce | src/app/services/dadata/runtime.py:638-658 | A promotion pass adds exactly one entry for each due job that is still scheduled and queued, however often it is listed |
| RedisStore.SecondPassPromotesNothing | src/app/services/dadata/runtime.py:638-658 | A second worker with the same list of due jobs promotes nothing |
| RedisStore.Redis.EnqueueJob | src/app/services/dadata/runtime.py:346-385 | The enqueue script: existing job, refusal and creation, as the store function over which the theorems are proved; what that does to users, streams and slots is EnqueueGuarantees.EnqueueDoes |
| RedisStore.Redis.ReadNext | src/app/services/dadata/runtime.py:474-500 | Reading delivers the most urgent waiting entry and changes nothing else |
| RedisStore.Redis.ClaimEntry | src/app/services/dadata/runtime.py:507-544 | The claim script together with the write of the entry: it succeeds exactly for a queued job |
| RedisStore.Redis.HeartbeatJob | src/app/services/dadata/runtime.py:39-46 | The heartbeat script moves the lease of the current claim only |
| RedisStore.Redis.FinishJob | src/app/services/dadata/runtime.py:48-83 | The finish script: record, lease, acknowledgement, progress, slot and dedupe key in one step, and whether it succeeded |
| RedisStore.Redis.RequeueJob | src/app/services/dadata/runtime.py:601-635 | The requeue: record, lease, acknowledgement, and a schedule or stream entry |
| RedisStore.RangeByScore | src/app/services/dadata/runtime.py:638-642 | The jobs whose time has come, in the order of their times and up to the limit; none is passed over for a later one |
| RedisStore.Redis.PromoteScheduledJobs | src/app/services/dadata/runtime.py:638-658 | A pass is the fold of single promotions over the due jobs and counts the entries it adds; where adding an entry fails, the job goes back to the schedule a second later and the pass ends |
| RedisStore.Redis.RecoverJob | src/app/services/dadata/runtime.py:85-149 | The recovery script in all its branches, and whether it recovered |
| RedisStore.Redis.RecoverStaleJobs | src/app/services/dadata/runtime.py:688-725 | A recovery pass is the fold of recoveries over the claimed entries and then over the leases that had expired at its start, and returns how many it recovered |
| RedisStore.RecoveredAreCounted | src/app/services/dadata/runtime.py:688-725 | A recovery pass over claimed entries returns the number of entries it adds to the streams |
| RedisStore.ExpiredAreCounted | src/app/services/dadata/runtime.py:722-724 | So does the pass over expired leases |
| RedisStore.ClaimedAreHandled | src/app/services/dadata/runtime.py:695-721 | After a pass none of its entries is pending but those of jobs that run on a live lease |
| RedisStore.StaleAreRecovered | src/app/services/dadata/runtime.py:722-724 | After a pass none of its jobs runs on an expired lease |
| RedisStore.Redis.InitializeProgress | src/app/services/dadata/runtime.py:449-454 | Initialisation resets `total` and `processed` and leaves the status counters |
| Worker.ProcessEndsTheClaim | src/app/scripts/dadata_worker.py:114-170 | The worker that holds its claim ends it: settled with the status of its outcome, scheduled in the future with one retry more and within the limit, or, when cancelled, back in its stream with its retries as they were |
| Worker.WorkerRecords | src/app/scripts/dadata_worker.py:81-170 | Each answer, the exception and the cancellation have their record and place: the status, result and message kept; for a rate limit with retries left, the job queued with one more retry and due after 2, 4, 8, 16, 32 and then 60 seconds or what the answer asks for if that is longer; for a cancellation, one entry more in its stream |
| Worker.ProcessStaysReachable | src/app/scripts/dadata_worker.py:114-170 | What the worker leaves behind is a reachable state of the protocol again, so every theorem about reachable states covers it |
| Worker.RetriesNeverExceedTheLimit | src/app/scripts/dadata_worker.py:122-134 | Over every run, crashes and recoveries included, a job is retried at most the configured number of times |
| Worker.ProcessJob | src/app/scripts/dadata_worker.py:114-170 | The branches on the outcome, the exception and the cancellation end in the store the specification gives |
| Worker.ClaimNextDoes | src/app/services/dadata/runtime.py:470-546 | The oldest entry of the most urgent stream is read; its job is taken for two minutes if it is queued, and otherwise the entry is acknowledged; nothing happens only when nothing waits |
| Worker.ClaimNextJob | src/app/services/dadata/runtime.py:470-546 | A claim that returns a job holds it with a live lease; one that returns nothing changed no job |
| Windows.SpacedIffWindowBound | src/app/services/dadata/runtime.py:751-760 | For an ordered history, every half-open window holds at most `limit` events if and only if events `limit` apart are a window apart |
| SlidingWindow.EveryWindowIsBounded | src/app/services/dadata/runtime.py:751-777 | With readings in order, none more than a second further behind the server than another: every half-open window holds at most `limit` grants, for any interleaving and equal timestamps, although the key expires |
| SlidingWindow.OrderedReadingsIff | src/app/services/dadata/runtime.py:751-777 | With readings in order every window is bounded in every run if and only if no reading can be more than a second further behind the server than another: the key expires a window and a second after the last grant, by the clock of the server |
| SlidingWindow.LateReadingBreaksBound | src/app/services/dadata/runtime.py:756-773 | One tick more: the key has expired, and a late reading puts one grant too many into a window, for every limit |
| SlidingWindow.RefusedOnlyWhenFull | src/app/services/dadata/runtime.py:751-760 | For readings in order: an attempt is granted if and only if fewer than `limit` grants were ever made or the one `limit` back is a window old |
| SlidingWindow.AnyClockIsBoundedIff | src/app/services/dadata/runtime.py:751-777 | For readings in any order every window is bounded in every run if and only if all are equally far behind the server, or the limit is one and none can be more than a second further behind than another |
| SlidingWindow.StaleClockBreaksBound | src/app/services/dadata/runtime.py:761-773 | For every limit above one, readings of which the last goes back by a tick put one grant too many into a window |
| SlidingWindow.RedisLimiter.TryAcquire | src/app/services/dadata/runtime.py:751-760 | The script on the sorted set and its expiry: the key is what the list of all evaluations leaves, whatever the readings, and the grants are those that list gives |
| SlidingWindow.HistoryIsBounded | src/app/services/dadata/runtime.py:786-796 | The grants that the in-memory limiter has recorded are within the limit in every half-open window |
| SlidingWindow.MemoryLimiter.TryAcquire | src/app/services/dadata/runtime.py:788-796 | The in-memory limiter meets the same specification |
| LoginLimiter.OverlapBoundsFailures | src/app/services/auth.py:204-233 | For attempts of a key that interleave, at most n of them between check and decision: since the last success every half-open window of fifteen minutes holds at most 4 + n failures, across any number of blocks |
| LoginLimiter.OverlapBoundIsReached | src/app/services/auth.py:204-226 | For every n some run reaches exactly that many |
| LoginLimiter.BoundOfFiveIff | src/app/services/auth.py:204-226 | Five failures a window hold for every run if and only if attempts of a key never overlap |
| LoginLimiter.RefusedOnlyAfterFive | src/app/services/auth.py:204-226 | In every run an attempt is refused only within fifteen minutes after a failure that was the fifth, since the last success, in the fifteen minutes it ended |
| LoginLimiter.FailuresPerWindowAreBounded | src/app/services/auth.py:204-233 | Attempts one at a time: at most five failures a window |
| LoginLimiter.Limiter.IsLoginAttemptAllowed | src/app/services/auth.py:204-213 | The check answers and drops an expired block, and touches no other key |
| LoginLimiter.Limiter.RecordFailedLoginAttempt | src/app/services/auth.py:216-226 | A failure purges the deque, is added, and blocks at the fifth; no other key is touched |
| LoginLimiter.Limiter.ClearFailedLoginAttempts | src/app/services/auth.py:229-233 | A success forgets everything about its key and nothing about others |
| DailyBudget.RowCountsReservations | src/app/services/dadata/runtime.py:188-207 | The row of a day counts exactly the reservations that succeeded on it, for every interleaving in which no caller is more than ninety days behind the purge |
| DailyBudget.BudgetIsKept | src/app/services/dadata/runtime.py:180-211 | On every day bulk reservations stay within the limit less the reserve, and all together within the limit or that share, for every such interleaving |
| DailyBudget.ManualReserveIsAvailable | src/app/services/dadata/runtime.py:183-199 | While fewer manual reservations than the reserve have succeeded on a day, the next manual one succeeds |
| DailyBudget.ReservesIff | src/app/services/dadata/runtime.py:183-199 | For every such interleaving a reservation succeeds exactly when it is the first of its day or fewer succeeded on it than the limit, less the reserve for bulk work |
| DailyBudget.OldRowsGo | src/app/services/dadata/runtime.py:203-208 | A reservation deletes exactly the rows more than ninety days old |
| DailyBudget.LimitHoldsIff | src/app/config.py:61-85 | The daily limit holds for every history if and only if the reserve is not negative; a negative reserve passes the configuration check |
| DadataClient.Client.ReserveDailyRequest | src/app/services/dadata/runtime.py:188-209 | The upsert reserves as specified and the table stays the fold of its history |
| DadataClient.Client.PostPartyRequest | src/app/services/dadata/client.py:76-109 | A request is posted only after a reservation succeeded, and never without one |
| DadataClient.Client.RequestWithRetries | src/app/services/dadata/client.py:123-155 | The answer is that of the first attempt that is refused or answered below 500, or of the last; every attempt before was posted on a reservation of its own and got no answer or one from 500 on; an attempt is refused exactly for bulk work without Redis, on a full day, or without a client, and the reservations made are those of the attempts |
| DadataClient.PostsStayWithinBudget | src/app/services/dadata/client.py:95-109 | For callers that interleave between reservation and post: the posts for a day never exceed the reservations for it, and with a reserve that is not negative never the daily limit |
| FullRefreshLock.AtMostOneHolder | src/app/services/dadata/runtime.py:826-834 | While no holder loses its lock, at most one refresh is inside, and it holds the lock |
| FullRefreshLock.RenewedLockIsKept | src/app/services/dadata/runtime.py:854-893 | A holder whose renewals land before the expiry keeps its lock in every run, whatever the others acquire, renew or release |
| FullRefreshLock.DailyLimitIsKept | src/app/services/dadata/runtime.py:826-834 | On every UTC day at most one refresh beyond the limit completes, and only a manual one right after a scheduled one; refreshes that cross midnight included |
| FullRefreshLock.MarkKeepsBoundIff | src/app/services/dadata/runtime.py:898-915 | One more completion keeps a day within its bound if and only if the guard of the lock script holds for it |
| FullRefreshLock.LimitHoldsFromStartIff | src/app/services/dadata/runtime.py:826-915 | When locks may be lost, the daily limit holds throughout a run if and only if every completion is marked at a moment when that guard holds |
| FullRefreshLock.LostLockBreaksDailyLimit | src/app/services/dadata/sync.py:695-696 | A holder whose lock expired, and whose renewal task has not found out yet, still counts itself: two manual refreshes complete on a day with limit one; once the task has found out, the mark is refused |
| FullRefreshLock.AttemptGetsInIff | src/app/services/dadata/runtime.py:826-834 | In every run, lost locks or not, an attempt gets in exactly when nobody inside holds the lock and fewer refreshes than the limit were completed today, or it is a manual override right after a scheduled one; it then holds the lock for the TTL, and otherwise nothing changes |
| FullRefreshLock.LockKeys.AcquireLock | src/app/services/dadata/runtime.py:826-834 | The lock script acquires exactly when the lock is free and the day has room or a manual override |
| FullRefreshLock.LockKeys.RenewLock | src/app/services/dadata/runtime.py:854-870 | Renewal extends the own lock only and says whether it did |
| FullRefreshLock.LockKeys.ReleaseLock | src/app/services/dadata/runtime.py:886-893 | Release frees the own lock only |
| FullRefreshLock.LockKeys.MarkFullRefreshDone | src/app/services/dadata/runtime.py:898-915 | A completed refresh is counted on its day, with its origin as the last one |
| InnTransactions.SavesKeepInnUnique | src/app/services/organization_card_write.py:719-827 | For every interleaving of saves that carry their rows and payloads, with lock and new INN as the card code computes them, where each edit names its INN under its type and no row twice, or types every row it rewrites on a card whose rows agree with the column: no INN is carried more often than once or than at the start |
| InnTransactions.UnchangedInnIsNeverRefused | src/app/services/organization_card_write.py:752-802 | A save whose payload keeps the INN of the column takes no lock, and whatever saves happen in between, its next step can be taken at once and changes no column, however many others carry the INN |
| InnTransactions.InnStaysUnique | src/app/services/organization_card_write.py:719-802 | The same for any saves that lock the INN they change to, until they commit or roll back |
| InnTransactions.LoneSaveStores | src/app/services/organization_card_write.py:719-827 | A save with nobody beside it passes its check exactly when its INN is none, its own, or carried by no other organization; it then stores the INN its rows give and leaves no lock |
| InnTransactions.CheckPassesIff | src/app/services/organization_card_write.py:777-787 | In every state the check of a save passes unless another organization carries the INN it changes to |
| InnTransactions.StepKeeps | src/app/services/organization_card_write.py:771-802 | Every step keeps: a checked save that changes the INN holds its lock row, and nobody else carries the INN |
| InnTransactions.CommitKeepsBoundIff | src/app/services/organization_card_write.py:777-787 | A commit keeps the number of carriers within bounds if and only if it changes nothing, or writes an INN nobody carries or that the card carries already |
| InnTransactions.UnlockedSavesDuplicate | src/app/services/organization_card_write.py:790-801 | Two saves without the lock both see a free INN and both take it |
| InnTransactions.TypedSavesAreDisciplined | src/app/services/organization_card_write.py:819-827 | For a card whose column agrees with its rows and a payload that types every row it rewrites, the save locks the INN it changes to |
| InnTransactions.NamingSavesAreDisciplined | src/app/services/organization_card_write.py:719-745 | The same for a payload that names the INN under its type and no row twice, whatever the rows held |
| InnTransactions.CreatesAreDisciplined | src/app/services/organization_card_write.py:810-830 | A create locks the INN of its payload |
| CardRequisites.RowsFollowThePayload | src/app/services/organization_card_write.py:592-641 | After a save a loaded row that the payload names with a text stands in its place with the trimmed text and the type named or else its own, one named blank is gone, one not named is unchanged; beyond those there is one new row for each input without id and with a text, in payload order |
| CardRequisites.RequisitesRefusedIff | src/app/services/organization_card_write.py:600-634 | A payload is refused exactly for its first input with a fault, as too long, vanished or without a type |
| CardRequisites.SaveIff | src/app/services/organization_card_write.py:719-787 | Every result of a save has its condition: the INN of the payload, then the requisites, then the INN of the rows they leave; an accepted save stores those rows and that INN |
| CardRequisites.LockIff | src/app/services/organization_card_write.py:819-827 | A save locks exactly the one INN its payload names, if that is an INN and not the one of the column |
| CardInn.SaveKeepsSound | src/app/services/organization_card_write.py:592-641 | A save also leaves no blank INN row, so column and row stay in agreement |
| CardInn.ChangedInnIsLocked | src/app/services/organization_card_write.py:819-827 | A changed INN is the one whose lock the save took, under the premises of TypedSavesAreDisciplined |
| CardInn.NamedInnIsStored | src/app/services/organization_card_write.py:719-787 | A payload that names the INN and no row twice makes exactly that INN the column, or the save fails |
| CardInn.ChangedInnIsLockedIff | src/app/services/organization_card_write.py:719-827 | A save that changes the INN holds its lock if and only if that INN is the one the payload names; for payloads that name no row twice, if and only if the payload names an INN under its type at all |
| CardInn.UntypedInputEscapesLock | src/app/services/organization_card_write.py:616-628 | An input that rewrites the INN row without naming its type changes the INN with no lock taken |
| CardInn.EmptyPayloadEscapesLock | src/app/services/organization_card_write.py:748-787 | An empty payload makes an INN row that the column did not show the column, with no lock taken |
| CardInn.Card.SaveRequisites | src/app/services/organization_card_write.py:592-641 | The loop over the requisites and the read-back of the INN on the rows in place; what becomes of each row and when each error arises is CardRequisites.RowsFollowThePayload and SaveIff |
| ApplyEffects.CardFollowsTheData | src/app/services/dadata/sync.py:303-375 | External data are refused exactly when the settlement name is over 255 characters or names several; otherwise each text, requisite, the column, the settlement and the e-mail is what the data make of it, by its place on the card, new rows have fresh ids, and a field is reported exactly when its place reads differently |
| ApplyGuarantees.SecondApplicationDoesNothing | src/app/services/dadata/sync.py:303-375 | Applying the same data twice reports no field the second time and leaves card, settlements and ids as they are |
| ApplyGuarantees.GivenValuesAreShown | src/app/services/dadata/sync.py:313-364 | Every given value stands in its own place afterwards: four texts, five requisites by the name of their type, the INN column and the e-mail |
| ApplyGuarantees.GivenSettlementIsChosen | src/app/services/organization_card_write.py:334-358 | A given settlement name is the name of the settlement of the card, letter case apart, and no settlement is lost |
| ApplyGuarantees.NothingIsCleared | src/app/services/dadata/sync.py:323-364 | Absent and blank values clear nothing: texts, rows and contacts are what they were or hold a given value, in their old places |
| ApplyGuarantees.NamesStayInGroups | src/app/services/dadata/sync.py:317-322 | When several cards share the INN their names are left alone |
| ApplyGuarantees.SettlementIsLostIff | src/app/services/dadata/sync.py:357-361 | A stored settlement is lost if and only if the given name is not empty and blank |
| ApplyGuarantees.ReportsIffChanged | src/app/services/dadata/sync.py:310-364 | Some field is reported if and only if the card changed |
| ApplyGuarantees.ApplyKeepsSound | src/app/services/dadata/sync.py:352-355 | Afterwards the INN column is the trimmed INN requisite, and there is one such row |
| Cards.FindType | src/app/services/dadata/sync.py:71-88 | The type found is the first, by priority and id, that bears one of the names; none is found only if none bears one |
| RefreshSession.Session.UpsertRequisite | src/app/services/dadata/sync.py:91-122 | Adds or rewrites one row in place, and says whether it did |
| RefreshSession.Session.UpsertEmailContact | src/app/services/dadata/sync.py:125-169 | Rewrites the first e-mail of the organization or adds an entity with one |
| RefreshSession.Session.ApplyData | src/app/services/dadata/sync.py:303-375 | The loops over the fields change the tables and report as specified; an error leaves the tables as the rollback does |
| Refresh.RefreshIsSafe | src/app/services/dadata/sync.py:507-560 | Whatever the table is when the lookup returns, a refresh writes only to cards whose INN column is still the requested one, changes no INN column, and writes nothing unless it reports an update |
| Refresh.RefreshUpdatesIff | src/app/services/dadata/sync.py:500-560 | A refresh updates if and only if the party found bears the requested INN and the column of the organization still holds it; it then applies the data to every card of that INN, counts them, and sets names only when there is one |
| Refresh.StatusIff | src/app/services/dadata/sync.py:474-560 | Each status after the lookup has its condition: rate limited, failed, not found, skipped and updated, by what came back and what the tables hold by then |
| Refresh.PrepareIff | src/app/services/dadata/sync.py:437-472 | Before the lookup: the INN asked for, and exactly when a refresh fails or is skipped without asking |
| Refresh.RefreshRaisesIff | src/app/services/dadata/sync.py:550-560 | A refresh raises exactly when it has data to apply and their settlement name is too long or ambiguous, whatever the cards and their number |
| Refresh.RefreshReportsIff | src/app/services/dadata/sync.py:550-572 | The fields reported are exactly those that read differently now on some card of the INN |
| Refresh.GroupCheckIsNeeded | src/app/services/dadata/sync.py:543-549 | A column that normalises to the requested INN without being it passes the first check and is skipped by the second |
| Refresh.PreparedInnIsInn | src/app/services/dadata/sync.py:437-463 | The INN asked for has ten digits, is what the column normalises to, and is the one requested |
| Refresh.SecondRefreshDoesNothing | src/app/services/dadata/sync.py:550-560 | Refreshing a whole group again with the same answer changes no table and reports no field |
| Refresh.RefreshKeepsSound | src/app/services/dadata/sync.py:552-560 | Every card whose column and INN requisite agree still agrees after a refresh, inside the group and outside |
| RefreshSession.Session.FinishRefresh | src/app/services/dadata/sync.py:507-572 | The checks after the lookup and the loop over the group, on the tables in place; the condition of each outcome is Refresh.StatusIff and RefreshRaisesIff |
| RefreshAll.FetchGroups | src/app/services/dadata/sync.py:584-601 | The dictionary built in the loop is the specified grouping |
| RefreshAll.GroupsArePartition | src/app/services/dadata/sync.py:584-601 | Every valid INN has exactly one group, and it lists its organizations in the order of their ids |
| RefreshAll.GroupsLoseNobody | src/app/services/dadata/sync.py:624-625 | The total is the number of organizations with a valid INN |
| RefreshAll.GroupsStartARefresh | src/app/services/dadata/sync.py:643-657 | The groups satisfy what the parent protocol needs: distinct INNs, no empty group, and the same total |
| RefreshAll.GroupIsWhatRefreshLocks | src/app/services/dadata/sync.py:532-542 | With clean columns a group is exactly the set of cards a refresh of its INN locks |
| RefreshAll.RefreshDirectly | src/app/services/dadata/sync.py:707-803 | The direct loop counts the groups up to the first that hit the limit, whatever the batches, and raises exactly when a group alone in its batch raises |
| RefreshAll.TallyFollowsAnswers | src/app/services/dadata/sync.py:767-803 | Organizations count as updated, as skipped or as failed by the answer of their group: not found counts as skipped, exceptions and limits as failed |
| RefreshAll.AloneIff | src/app/services/dadata/sync.py:721-747 | A group runs in the caller, its exception uncaught, exactly when batches hold one group or it is the last and begins a batch |
| RefreshAll.CompletedIff | src/app/services/dadata/sync.py:767-803 | Updated, failed and skipped sum to processed, which is at most the total, and nothing failed and all were processed exactly when every group was updated, missing or skipped |
| ContactInputs.RowsAreThePayload | src/app/services/organization_card_write.py:404-557 | After a save the rows of the organization are exactly those the lines of the payload that are not empty are for, and each holds the type and the trimmed value of the last line for it |
| ContactInputs.PreparedIff | src/app/services/organization_card_write.py:404-459 | Exactly when a line is refused as too long, without type or without value, when it is skipped as empty, and otherwise the entry it becomes, field by field |
| ContactInputs.ListRefusedIff | src/app/services/organization_card_write.py:404-459 | A payload is refused for its first line with a fault, with that error, and otherwise prepared |
| ContactInputs.SyncRefusedIff | src/app/services/organization_card_write.py:462-550 | A save is refused exactly for its first line with a fault, else for a type that does not exist, else for the first entry whose row is gone, whose row belongs to somebody else, or whose person is gone at its turn |
| ContactGuarantees.RowsAreTheList | src/app/services/organization_card_write.py:500-557 | After a save the rows are exactly those the prepared list names plus one new row for each entry without a row id, and each row holds what the last entry for it says; over the payload itself this is ContactInputs.RowsAreThePayload |
| ContactGuarantees.RowsAddUp | src/app/services/organization_card_write.py:500-557 | The number of rows is the number of entries without an id plus the number of distinct listed ids that are not ids of those new rows |
| ContactGuarantees.EntitiesAreTheList | src/app/services/organization_card_write.py:503-571 | Rows keep their entity, entries go to the entity they name, new entries to a new one, and no entity is left without rows |
| ContactGuarantees.ClientKeysShareEntities | src/app/services/organization_card_write.py:523-535 | Two entries without ids share an entity if and only if they carry the same client key |
| ContactGuarantees.LastEntryNamesTheEntity | src/app/services/organization_card_write.py:546-547 | An entity bears the name and post of the last entry that belongs to it |
| ContactGuarantees.OtherOrganizationsUntouched | src/app/services/organization_card_write.py:478-571 | Contacts of other organizations are neither changed, nor deleted, nor added to |
| ContactGuarantees.ResubmittingChangesNothing | src/app/services/organization_card_write.py:404-571 | Sending back what a save left, in any order, changes nothing |
| ContactGuarantees.RepeatingChangesNothing | src/app/services/organization_card_write.py:503-571 | The same for any tables without orphans, with rows repeated any number of times |
| Contacts.PrepareContacts | src/app/services/organization_card_write.py:404-459 | The loop prepares the entries or stops at the first error; which entries and which error is ContactInputs.PreparedIff and ListRefusedIff |
| Contacts.ContactTables.PlaceEntry | src/app/services/organization_card_write.py:503-550 | One entry: the row and entity it goes to, in place, or the error |
| Contacts.ContactTables.DeleteUnlisted | src/app/services/organization_card_write.py:552-557 | Deletes the rows of the organization that were not listed, and nothing else |
| Contacts.ContactTables.DeleteOrphans | src/app/services/organization_card_write.py:559-571 | Deletes the entities of the organization without rows, and nothing else |
| Contacts.ContactTables.SyncContacts | src/app/services/organization_card_write.py:462-571 | The whole reconciliation on the tables in place; an error leaves them as the rollback does, and arises exactly as in ContactInputs.SyncRefusedIff |
| XlsxColumns.ColumnLetter | src/app/services/xlsx_export.py:21-30 | The loop yields the bijective base-26 name of a positive index, and refuses others |
| XlsxColumns.DecodeOfName | src/app/services/xlsx_export.py:21-30 | Decoding the name of n gives n |
| XlsxColumns.NameOfDecode | src/app/services/xlsx_export.py:21-30 | Every non-empty string of letters is the name of the number it decodes to |
| XlsxColumns.ExactlyOneColumnPerName | src/app/services/xlsx_export.py:21-30 | Every non-empty string of letters is produced by exactly one index |
| XlsxColumns.NamesGrowWithIndex | src/app/services/xlsx_export.py:21-30 | One index is below another exactly when its name is shorter, or of the same length and smaller in the first letter that differs |
| StatsOrder.TableIsInOrder | src/app/services/distribution_stats.py:68-133 | Whatever the filter asks for, any two rows of the sorted table stand in the order of the column it names, ascending or descending, level rows in the default order of name, date, contract number and id; a column that is not shown is ignored |
| StatsSort.TwoPassesAreOneSort | src/app/services/distribution_stats.py:112-133 | Sorting by the default key and then stably by the custom key, up or down, is one stable sort by the pair: custom key in its direction, then default key ascending |
| StatsSort.StableSortIsStable | src/app/services/distribution_stats.py:117-131 | The sort is ordered, and rows that tie keep their order |
| StatsSort.AnyStableSortAgrees | src/app/services/distribution_stats.py:117-131 | Any ordered rearrangement that keeps ties in order is this sort |
| StatsSort.SortIsPermutation | src/app/services/distribution_stats.py:117-131 | Sorting loses and adds no row |
| StatsSort.PreparedRows.SortPreparedRows | src/app/services/distribution_stats.py:112-133 | The rows in place end up as the specified sorts make them; an unsupported key leaves the default order |
| StatsSort.ResolvedYearsAreShown | src/app/services/distribution_stats.py:38-58 | Both resolved ends are among the years shown, which are exactly the available years between them; given years that are available are the ends, in order |
| Text.NormalizeInnIsInn | src/app/services/dadata/normalization.py:12-23 | What normalisation accepts is ten digits, and ten digits are their own normal form |

## Left out

- HTTP routes, templates, validation schemas, sessions and password hashing: plumbing around libraries.
- SQL builders and migrations; tables are maps and sequences here.
- The requests, responses and timing of the external service, the mapping of its answer, metrics and logs.
- Texts of error messages, and the logo, document and study-field parts of an organization card: small loops of
  their own, on tables nothing modelled here reads. A save is modelled for its requisites with the INN, and for
  its contacts, apart from its plain text fields.
- Commands of `claim_next_job`, `requeue_job` and `promote_scheduled_jobs` that interleave with others between
  two Redis calls, and with them subscribers that such an interleaving can lose.
- Loss of a whole Redis key by its time to live, and the error paths for an unreachable Redis beyond their place in
  `DadataClient`.
- Entries without a job id and records that are not JSON: no enqueue of this program writes them.
- `_schedule_refresh_if_due`, the bound on refresh items running in one worker, and the exit of `run_worker`.
- Requisite rows of one card under two overlapping saves of that same card: `InnTransactions` follows the column, and
  each save sees the rows it has loaded. That those rows agree with the column is a premise on each save that needs
  it, kept by a save on its own (`CardInn.SaveKeepsSound`).
- Contacts of a card appear twice, per card in `Cards` and as whole tables in `Contacts`; the first holds only what
  the e-mail of an external answer needs.
- Truncation of texts by the width of a database column.
- FullRefreshLock.DailyLimitIsKept: assumes that renewals land before the lock expires; `LimitHoldsFromStartIff` is for runs where they may not.
- QueueGuarantees.UserCapIsExact: counts live jobs younger than the status TTL only, because the code forgets older ones; see `CapLapsesWithTtl`.
- RedisStore.Redis.RecoverStaleJobs: takes the entries that XAUTOCLAIM hands over as a parameter, because idle times of entries belong to the Redis server; `QueueGuarantees.CodeDoes` says when an entry can be among them.
- QueueGuarantees.LiveJobCanStillFinish: does not model that one pass of promotion or recovery looks at a hundred jobs or entries at most, because later passes look at the rest.
- LoginLimiter.FailuresPerWindowAreBounded: is for attempts in sequence, because the code checks and records in two steps; see `OverlapBoundsFailures` and `BoundOfFiveIff`.
