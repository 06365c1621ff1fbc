# Verified model of account handles, billing reconciliation, limiters, filters and cache

This project states in Dafny what five parts of the analytics service do, and proves what they
are for.

* **Account handles** (`HandleCache`, `CacheRuns`, `RecencyList`, `Promotions`, `CacheWalks`,
  `Manager`). One process keeps open databases in a cache under a cap: ranks number promotions,
  use counts pin handles, background scans borrow, an idle sweep and a tombstone watcher close. `HandleCache`
  says what each critical section does to the cache as a value, `Manager` implements those on
  mutable objects, and the other four prove what all interleavings keep.
* **Deletion** (`DeletionFence`, `Tombstones`). Permanent deletion across any number of
  processes: a durable marker, a guard lock, a lifetime lock, and processes that can die at
  every step.
* **Billing** (`Evidence`, `Mirror`, `Deliveries`, `Webhooks`, `AccountLeases`, `EventClaims`,
  `Checkout`, `Quiescence`). Webhooks arrive late, twice and out of order, and workers crash or lose their
  leases. Each SQL statement is one atomic step on a row; the payment provider is an environment
  that answers as it likes but honours idempotency keys.
* **Limiters** (`ApiLimiter`, `AuthLimiter`). Two fixed-window counters.
* **The Looker connector** (`Filters`, `FilterParser`, `ChunkedCache`). The filter printer
  against the grammar and against the API's real parser, and the chunked response cache.

`Common` and `Decimals` hold what several modules share.

Where the code does not do what its comments or callers suppose, the model keeps the code, a
lemma names an input that shows it, and another says exactly when it does:

* pending evidence created later than the payment it belongs to can hide that payment for good
  (`Deliveries.LaterPendingHidesPayment`, `Deliveries.RefusedExactlyWhen`,
  `Deliveries.OrderMattersExactlyWhen`);
* the stored day zero of a lapse depends on the order of delivery
  (`Deliveries.ClockDependsOnDeliveryOrder`, `Deliveries.ClockIsFirstFailureExactlyWhen`);
* forgetting a reversible change is not fenced by the lease, so a worker that lost the account
  can take away its successor's row, after the successor held the object again or before
  (`Quiescence.AStalledForgetLosesTheRecord`, `Quiescence.AForgetBeforeTheHoldLosesTheRecord`,
  `Quiescence.ForgettingKeepsTheRecordExactlyWhen`, `Quiescence.RunKeepsTheRecordExactlyWhen`);
* an event claim reads its clocks before its statement runs, so a worker stalled between the two
  reads, or after both, can take a stamp that an open claim already has
  (`EventClaims.StalledTakeoverSharesTheStamp`, `EventClaims.StalledRetakeSharesTheStamp`,
  `EventClaims.OneClaimantCanFinishExactlyWhen`);
* a checkout claim retired for its age or marked by a webhook, or a key the provider forgets,
  while a worker can still call the provider under that key, loses the session that call creates
  (`Checkout.RetiringForAgeCanLoseASession`, `Checkout.AWebhookCanLoseASession`,
  `Checkout.AForgottenKeyCanLoseASession`, `Checkout.LeavingWithoutTheSessionIsSafeExactlyWhen`);
* a handle somebody holds is closed when its account is refused, dropped or everything is closed
  (`CacheRuns.ARefusedWriteDropsAHeldHandle`, `CacheRuns.AHeldHandleLeavesExactlyWhen`);
* a promotion that stalls between drawing its tick and storing it can undo a later one
  (`Promotions.AStalledPromotionFallsBehind`, `Promotions.NoPromotionIsLostExactlyWhen`,
  `Promotions.WholeRunsLoseNothingExactlyWhen`, `Promotions.WholeRunsAreARecencyListExactlyWhen`);
* overlapping scans are noticed (`CacheWalks.OverlappingScansEvict`,
  `CacheWalks.ReleaseOfAnUnborrowedGuard`);
* an open that lands inside `CloseAll` is left without a watcher
  (`CacheRuns.AnOpenDuringCloseAllIsUnwatched`, `CacheRuns.WatchedExactlyWhen`);
* a request cost near the largest integer is allowed (`ApiLimiter.AHugeCostIsAllowed`,
  `ApiLimiter.AdmitsExactlyWhen`); no tool has such a cost, so only a direct call can pass one;
* a reader whose two calls come on either side of a write can find a mix of two answers or a part
  of one, whether they fall between the writes of one answer or straddle a whole one
  (`ChunkedCache.AStraddlingReaderFindsAMix`, `ChunkedCache.AReaderCanFindAMix`,
  `ChunkedCache.HitsAreNoBodyExactlyWhen`);
* a call that read its clock before a sweep and counts after it may be allowed twice
  (`ApiLimiter.ALateCallIsAllowedAgain`, `ApiLimiter.SweepsChangeNoDecisionExactlyWhen`);
* a report's or of two exclusions is pushed as one clause that excludes both, and said to be
  applied (`Filters.AnOrOfExclusionsLosesRecords`, `Filters.GroupsAreOrsExactlyWhen`);
* the API trims white space that belongs to a filter value
  (`FilterParser.ParserRoundTripExactlyWhen`).

## Assumptions

Advisory locks are reader-writer locks that a dying process releases, and a synced marker
survives. Clocks are parameters; where a result needs a non-decreasing clock, or calls taken in
the order they hold a lock, its contract says so. Tokens are fresh. Account ids are positive.
In `CacheRuns`, `RecencyList` and `CacheWalks` an acquisition from the cache is one step; the
draw and the store of its promotion are taken apart in `Promotions`. The provider forgets an
idempotency key only when the session it gave is over, both being a day after its first use
(internal/billing/service.go:1373-1377).

## Model

| member | source | states |
|---|---|---|
| `DeletionFence.DeletionIsFinal` | internal/accounts/accounts.go:1248-1318 | over every run of any number of processes that open through a manager, with crashes and power loss: once a deletion guard is held, no process has an open handle or a cached one for the account at that point or any later one, nobody is past the tombstone check, the tombstone stays durable, and a removed shard is never created again; the only database that can be open is the one a deletion guard reopens for its caller, and whoever has a guard holds both locks, so there is never a second |
| `DeletionFence.UseHoldsOffDeletion` | internal/accounts/accounts.go:450-566 | at every point of every run: a worker that holds the lifetime lock exclusively coexists with no open database, and one that holds the guard exclusively with no worker sharing it and no second such worker |
| `DeletionFence.StepKeeps` | internal/accounts/accounts.go:1016-1045 | every step of writers, managers, deleters and crashing processes keeps the lock discipline: locks are held exactly as program counters say, never both ways, every open database and lease shares the lifetime lock, cached handles are open, and nobody deletes without a durable tombstone |
| `DeletionFence.WriterKeeps` | internal/accounts/accounts.go:450-566 | every step of acquiring, opening (guard, tombstone check, lifetime lease, insertion), refusing, failing and releasing keeps that discipline |
| `DeletionFence.ManagerKeeps` | internal/accounts/accounts.go:602-642 | so do dropping a handle for any reason, a watcher pass, and closing a database before giving up its lifetime lock |
| `DeletionFence.DeleterKeeps` | internal/accounts/accounts.go:1248-1348 | so does every step of a deletion: marking, syncing, taking the guard and then the lifetime lock, forgetting, inspecting, removing, releasing, and failing after any of them |
| `DeletionFence.CrashKeeps` | internal/accounts/accounts.go:271-304 | so do process crashes, which release locks and close databases, and a power failure that may lose an unsynced tombstone |
| `DeletionFence.FencedIsSealed` | internal/accounts/accounts.go:1248-1280 | whoever holds both locks after its tombstone is durable has sealed the account: no lease, no open database, nobody between the tombstone check and a handle |
| `DeletionFence.StaysSealed` | internal/accounts/accounts.go:1016-1045 | no step of anybody unseals an account or brings its shard back, including steps after the locks are released and processes restarted |
| `DeletionFence.RunKeeps` | internal/accounts/accounts.go:450-566 | the discipline holds at every point of every run |
| `DeletionFence.ARefusedAccountStaysRefused` | internal/accounts/accounts.go:450-566 | under every step: a manager refuses an account until its process dies, and while it does nobody without a handle gets one through it; with a marker on disk nobody gets past either check |
| `DeletionFence.WhatWritersLeave` | internal/accounts/accounts.go:1016-1045 | the first check passes exactly without a marker; a writer that gives up has let go of the guard, of its manager and of its lease, and one that is refused leaves a manager that refuses |
| `DeletionFence.WhatManagersLeave` | internal/accounts/accounts.go:602-642 | a watcher that sees the marker refuses the account and keeps its handle exactly while somebody uses it; a handle is closed before it gives up the lifetime lock |
| `DeletionFence.WhatACrashLeaves` | internal/accounts/accounts.go:271-304 | a process that dies takes its workers, locks, databases and refusals with it, and nobody else's |
| `DeletionFence.DeletionWaitsExactlyForUse` | internal/accounts/accounts.go:1262-1280 | a deletion past its durable marker can take the guard exactly when nobody shares or holds it, and then the lifetime lock exactly when every handle has given it up |
| `DeletionFence.ADeletionFinishes` | internal/accounts/accounts.go:1248-1348 | with every use over, a deletion can run to its end: a durable marker, no shard, the account refused by its manager, and both locks free again |
| `DeletionFence.AWriterOpens` | internal/accounts/accounts.go:450-566 | an account that is not being deleted can be opened by any process that does not hold it, and its handle stays cached and open once the use is over |
| `Tombstones.NoOverlap` | internal/accounts/accounts.go:658-664 | any name with the marker prefix and the marker suffix is long enough for both, so cutting out what is between them never fails and gives the name back |
| `Tombstones.NameRoundTrip` | internal/accounts/accounts.go:1353-1364 | for every id a 64-bit integer can hold, reading back the padded file name gives the id |
| `Tombstones.MarksExactlyWhen` | internal/accounts/accounts.go:646-676 | a name marks an account if and only if it is the prefix, the digits of a positive id that fits in 64 bits, padded or not and with a plus sign or not, and the suffix |
| `Tombstones.PaddedToSix` | internal/accounts/accounts.go:1353-1364 | names are padded with zeros to six digits and no further |
| `Tombstones.LocksMarkNothing` | internal/accounts/accounts.go:1367-1369 | no advisory lock file is ever read as a marker |
| `Tombstones.TombstonedIds` | internal/accounts/accounts.go:646-676 | one pass over any directory finds exactly the positive ids its entries mark |
| `Tombstones.ScanFindsExactlyTheDeleted` | internal/accounts/accounts.go:646-676 | over a directory of markers and lock files, an id is found if and only if it is deleted |
| `Tombstones.ScanGuardDirectory` | internal/accounts/accounts.go:646-676 | so the scan returns exactly the set of deleted accounts |
| `HandleCache.EvictionMeetsTheCap` | internal/accounts/accounts.go:735-776 | eviction closes nothing at or under the cap, never goes below it, and ends at the cap or with every remaining handle in use |
| `HandleCache.EvictionIsDetermined` | internal/accounts/accounts.go:747-755 | where idle handles have different ranks there is exactly one set of victims, whatever order the map is walked in |
| `HandleCache.SweepSparesTheRecent` | internal/accounts/accounts.go:818-845 | an idle sweep closes every idle handle untouched since the cutoff and no handle in use, and when that already meets the cap it closes nothing else |
| `HandleCache.EvictingDone` | internal/accounts/accounts.go:735-776 | the loop may stop at the cap or when nothing idle is left, and has then closed exactly as many idle handles as needed, none promoted after one it kept |
| `HandleCache.EvictingStep` | internal/accounts/accounts.go:740-773 | taking the oldest idle handle keeps that true of what has been taken so far |
| `CacheRuns.RunKeeps` | internal/accounts/accounts.go:346-394 | over every interleaving of critical sections: a handle in the map is never closing, its use count is exactly the number of unreleased guards on it, ranks are distinct and bounded by the tick, and an unpromoted handle has only borrowed guards and at least one |
| `CacheRuns.StepKeeps` | internal/accounts/accounts.go:979-1011 | every single critical section keeps that |
| `CacheRuns.AHeldHandleLeavesExactlyWhen` | internal/accounts/accounts.go:780-793 | under every step, a handle in use leaves the map if and only if the step drops that very account, empties the map, or is an open of that account that finds its deletion marker before the account is refused; otherwise it stays the same handle |
| `CacheRuns.HeldHandlesAreClosedExactlyWhen` | internal/accounts/accounts.go:602-642 | over every run: a handle somebody still has a guard on is taken away if and only if one of those is asked for that account |
| `CacheRuns.ARefusedWriteDropsAHeldHandle` | internal/accounts/accounts.go:1031-1040 | the exception is real: refusing a write on a tombstoned account drops a handle somebody holds |
| `CacheRuns.DeletionIsNotStarved` | internal/accounts/accounts.go:602-642 | once a watcher pass has seen the tombstone of a cached account, the guards on its handle are only ever fewer, and the first pass to find none closes it for good |
| `CacheRuns.WatchedStep` | internal/accounts/accounts.go:1455-1464 | every step keeps a watcher running while anything is open, except the second half of closing everything, exactly when it finds the map not empty |
| `CacheRuns.WatchedExactlyWhen` | internal/accounts/accounts.go:1455-1464 | over every run: a watcher runs whenever anything is open, at every point, if and only if no second half of closing everything finds a handle in the map |
| `CacheRuns.StoppedHandlesWereOpenedSinceTheSwap` | internal/accounts/accounts.go:1455-1464 | every handle such a second half finds was opened after some first half emptied the map |
| `CacheRuns.AnOpenDuringCloseAllIsUnwatched` | internal/accounts/accounts.go:1455-1464 | a run of emptying the map, an open and stopping the watcher that ends with an open handle and no watcher |
| `CacheRuns.ShrinkingKeeps` | internal/accounts/accounts.go:818-845 | closing idle handles, for any reason, keeps the accounting of all the others |
| `CacheRuns.UseTimeIsTheLastUse` | internal/accounts/accounts.go:723-726 | over every run: the use time of a handle nobody is closing is the clock of the last acquisition of it by real traffic, cached or opening, and zero if there was none |
| `CacheRuns.IdleSweepClosesExactlyWhen` | internal/accounts/accounts.go:818-845 | over every run, told from the acquisitions alone: an idle sweep that evicts nothing closes an unheld handle if and only if the last acquisition of it by real traffic read a clock at or before the cutoff |
| `CacheRuns.IdleSweepSparesTheUsed` | internal/accounts/accounts.go:818-845 | with the clocks of a handle's acquisitions in order: if and only if no acquisition of it by real traffic since it was opened read a clock after the cutoff |
| `CacheRuns.CountersBalance` | internal/accounts/accounts.go:735-845 | over every run: the handles ever opened are the evictions, the idle closes and those taken out otherwise, together with those still in the map |
| `RecencyList.RankCounterIsARecencyList` | internal/accounts/accounts.go:723-776 | over every run in which each promotion is one step, the rank counter, eviction, sweeps and drops do exactly what a move-to-front list does whose back idle entries are dropped and whose in-use entries are pinned; Promotions.WholeRunsLoseNothingExactlyWhen and Promotions.WholeRunsAreARecencyListExactlyWhen carry it to runs in which promotions overlap |
| `RecencyList.StepTracks` | internal/accounts/accounts.go:723-776 | each critical section changes the promoted handles as the list rules say |
| `RecencyList.EvictOrderDrops` | internal/accounts/accounts.go:735-776 | evicting by smallest rank drops exactly the idle entries nearest the back of the list, after the handles no one promoted |
| `RecencyList.UnpromotedGoFirst` | internal/accounts/accounts.go:747-755 | unpromoted idle handles are evicted before any promoted one |
| `Promotions.WholeRunsLoseNothingExactlyWhen` | internal/accounts/accounts.go:723-776 | over every run of shared and exclusive sections, whatever promotions overlap: no promotion is ever lost if and only if no store overwrites its handle's last ticket, and then, whenever none is under way, the cache holds the handles the recency list says in the order it says |
| `Promotions.WholeRunsAreARecencyListExactlyWhen` | internal/accounts/accounts.go:723-776 | over every such run: the cache is as the recency list says at every moment with no promotion under way if and only if at no such moment a handle has been overtaken |
| `Promotions.OvertakenExactlyWhen` | internal/accounts/accounts.go:723-726 | in terms of the events: a handle is overtaken by another if and only if its last draw comes after the other's last draw and the ticket stored on it last is older than the one stored on the other last |
| `Promotions.NoPromotionIsLostExactlyWhen` | internal/accounts/accounts.go:723-726 | within one shared phase: at every point each handle has the rank it would have with one promotion at a time, or the ticket that gives it is still to be stored, if and only if no step stores a ticket over its handle's last one |
| `Promotions.QuietIsOneAtATime` | internal/accounts/accounts.go:979-1011 | if no step has, then whenever nothing is under way, as when the exclusive lock is held, ranks, tick and recency order are those of one promotion at a time in the order of the draws |
| `Promotions.OrderIsTheListsExactlyWhen` | internal/accounts/accounts.go:723-726 | whenever nothing is under way the ranks order the handles as the list does if and only if no handle ranks below one whose last promotion was drawn before its own |
| `Promotions.StepKeeps` | internal/accounts/accounts.go:723-726 | every draw and every store keeps ticks unique among handles and tickets, real ranks at or below the one-at-a-time ones, and a ticket for every handle that should have a rank and has none |
| `Promotions.AStalledPromotionFallsBehind` | internal/accounts/accounts.go:723-726 | a run of three promotions after which the account promoted last ranks below the other |
| `CacheWalks.AVisitIsUnnoticed` | internal/accounts/accounts.go:477-493 | from a cache at or under its cap with no release half done, acquiring and releasing any account as a scan, open or not and whatever the disk says, leaves the map, every rank and use time, the tick and the eviction counters as they were, and refuses the account from then on if and only if its deletion marker was found |
| `CacheWalks.AWalkIsInvisible` | internal/accounts/accounts.go:1139-1156 | so does any sequence of such visits; the accounts refused after it are those refused before and those whose marker a visit found |
| `CacheWalks.ReleaseOfAnUnborrowedGuard` | internal/accounts/accounts.go:1103-1123 | releasing a guard that is not borrowed leaves the map alone exactly when it is at or under the cap or holds nothing idle |
| `CacheWalks.OverlappingScansEvict` | internal/accounts/accounts.go:1103-1123 | two overlapping scans can evict an account real traffic is on |
| `AccountManager.Account.BeginUse` | internal/accounts/accounts.go:346-355 | a use is registered exactly when the handle is not closing |
| `AccountManager.Account.EndUse` | internal/accounts/accounts.go:368-374 | ends one use and never goes below none |
| `AccountManager.Account.MarkClosing` | internal/accounts/accounts.go:383-394 | claims a handle for closing exactly when nobody is using it |
| `AccountManager.Account.Close` | internal/accounts/accounts.go:333-340 | marks and closes a handle whoever is using it |
| `AccountManager.LostSize` | internal/accounts/accounts.go:818-845 | the handles a sweep closed are as many as the map has lost |
| `AccountManager.Manager.Promote` | internal/accounts/accounts.go:723-726 | one handle gets the next rank and the time read, and nothing else changes; what that use time decides over runs is `CacheRuns.IdleSweepClosesExactlyWhen` |
| `AccountManager.Manager.TakeLocked` | internal/accounts/accounts.go:780-793 | takes a handle out and claims it exactly when it is there and idle |
| `AccountManager.Manager.Oldest` | internal/accounts/accounts.go:740-756 | finds an idle handle of least rank, or reports that there is none |
| `AccountManager.Manager.ChooseLocked` | internal/accounts/accounts.go:735-776 | brings the map to what eviction to the cap allows, counts evictions and overshoots, and returns exactly the handles the map lost, all claimed and idle |
| `AccountManager.Manager.EvictLoop` | internal/accounts/accounts.go:735-776 | the loop alone: what it leaves, how many it took, and whether the cap is still passed |
| `AccountManager.Manager.CloseIdle` | internal/accounts/accounts.go:818-845 | closes the idle handles untouched for the configured timeout, or for an hour when none is configured, and no handle in use; a handle touched since only if the configured cap, or 500, handles are left; ends within that cap or with every handle in use; returns how many handles left the map, and exactly those are closed |
| `AccountManager.Manager.TakeIdleSince` | internal/accounts/accounts.go:825-838 | takes exactly the idle handles untouched since the cutoff |
| `AccountManager.Manager.CloseTombstoned` | internal/accounts/accounts.go:602-642 | refuses every tombstoned account it holds and closes exactly those of them nobody is using |
| `AccountManager.Manager.Evict` | internal/accounts/accounts.go:1126-1132 | evicts to the cap and closes exactly the handles that left the map |
| `AccountManager.Manager.PutBack` | internal/accounts/accounts.go:1139-1156 | closes a scan handle exactly when it is still unpromoted and idle |
| `AccountManager.Manager.AcquireCached` | internal/accounts/accounts.go:979-1011 | serves a handle already held unless the account is refused, registers the use, promotes or borrows |
| `AccountManager.Manager.OpenGuarded` | internal/accounts/accounts.go:450-566 | every branch of opening under the guard: refused, lock failure, marker found, held handle, failed open, new handle with eviction only when promoted |
| `AccountManager.Manager.OpenFresh` | internal/accounts/accounts.go:542-563 | a new handle is inserted already in use; only a promoted one makes room for itself |
| `AccountManager.Manager.Refuse` | internal/accounts/accounts.go:464-474 | a tombstoned account is dropped, closed whoever uses it, and refused from then on |
| `AccountManager.Manager.Close` | internal/accounts/accounts.go:1189-1200 | drops and closes one account on demand |
| `AccountManager.Manager.CloseAll` | internal/accounts/accounts.go:1455-1479 | empties the map, stops the watcher and closes every handle that was open |
| `AccountManager.BeginWrite` | internal/accounts/accounts.go:1016-1045 | grants a guard exactly when the id is valid and no tombstone is found under the shared lock, and otherwise refuses or fails without one |
| `AccountManager.WriteGuard.Open` | internal/accounts/accounts.go:1061-1075 | opens under the guard and keeps the handle and whether it was borrowed |
| `AccountManager.WriteGuard.Release` | internal/accounts/accounts.go:1079-1123 | ends the use and settles the cache, as put-back or eviction; a second release changes nothing |
| `AccountManager.Lease.Release` | internal/accounts/accounts.go:966-974 | releases its guard once |
| `AccountManager.Acquire` | internal/accounts/accounts.go:944-962 | the cached path if it can serve, else guard, check and open, with the outcome each gives |
| `AccountManager.WhatAnAcquisitionGives` | internal/accounts/accounts.go:944-1045 | how an acquisition ends, exactly: a handle held and not refused is given out; a marker found at either look, a refused account or a closing handle is a deletion; what cannot be looked at is a failure and changes nothing; only an account with no marker at either look is opened, and what is given out is in the map, in use |
| `AccountManager.AcquireUncached` | internal/accounts/accounts.go:949-961 | the slow path, whose guard is given back when the open fails |
| `Evidence.AfterIsAnOrder` | internal/billing/service.go:652-680 | on evidence with a state, the comparison is a strict weak order: lexicographic on ended, source time, event time and rank; pieces it does not tell apart have the same state and the same failure time |
| `Evidence.LaterMeans` | internal/billing/service.go:652-680 | of two ends the later is that of the later invoice or session, then the one told later, then the payment, and evidence without such a time goes by when it was told; an end is later than anything pending |
| `Evidence.LatestPaymentUpdate` | internal/billing/service.go:630-646 | returns something offered that nothing offered comes after, or nothing if nothing was offered |
| `Evidence.LatestIsDetermined` | internal/billing/service.go:630-646 | permuting or repeating stored evidence does not change what the latest update says |
| `Evidence.FirstFailureInCurrentLapse` | internal/billing/service.go:549-582 | the filter, stable sort and fold return exactly the earliest dated failure among the failures that come after every payment, or the unset time |
| `Evidence.FirstFailureIsDetermined` | internal/billing/service.go:549-582 | so permuting or repeating stored evidence does not change it |
| `Evidence.LapseIsCurrent` | internal/billing/service.go:565-579 | after an ascending sort, the tail behind the last payment holds exactly the failures that come after every payment |
| `Evidence.InsertKeepsOrder` | internal/billing/service.go:561-563 | inserting behind everything a piece is not before keeps the order ascending |
| `Evidence.EvidenceTypesCarryState` | internal/billing/webhook.go:189-257 | exactly the event types read back from the log say something about payment, and only a checkout completed unpaid is undecided; which type says what is `Webhooks.AFirstEventIsMirrored` |
| `Evidence.ProviderInvoiceUpdate` | internal/billing/service.go:487-516 | paid is what a settled invoice of the subscription says, dated when it was settled; failed what an invoice still owed after an attempt says; nothing when there is neither; and no such invoice says anything later |
| `Evidence.StoredPaymentUpdates` | internal/billing/service.go:602-626 | reads back from the stored events exactly what those of the evidence types say, and every piece says something |
| `Mirror.Store.SaveReconciled` | internal/billing/store.go:541-588 | the row is replaced exactly when there is none or the guard accepts the new one, and the answer says which |
| `Mirror.Store.Reconcile` | internal/billing/service.go:157-352 | resolves evidence for every subscription, prefers entitled ones, selects one, computes state, watermark and lapse clock, and saves under the guard; whatever it writes names a reported subscription with that one's own status, or paused, or says that there is none; an event about an unreported subscription writes nothing, and false means nothing was written |
| `Mirror.Store.Receive` | internal/billing/webhook.go:134-183 | an event of a type that is not acted on writes nothing; any other reconciles with what the stored events say, and evidence only about a reported subscription |
| `Mirror.ComputedIsReported` | internal/billing/service.go:258-305 | what a reconcile computes names a subscription the provider reports and shows its status or its pause, whatever the row said before; without subscriptions it is pending only if the trigger is, and failed otherwise |
| `Mirror.ANewSubscriptionStartsAfresh` | internal/billing/service.go:279-287 | when the row is about a subscription no longer reported, nothing but the watermark is carried over: not its state, its evidence or its lapse clock |
| `Mirror.ResolveAll` | internal/billing/service.go:220-241 | each subscription gets the latest of its invoices, the trigger, the row and the log; the entitled ones are exactly those paying with paid evidence |
| `Mirror.SelectSubscription` | internal/stripe/api.go:651-662 | the subscription no other one outranks by display rank, creation, period end and id is chosen by one pass |
| `Mirror.SelectIsGreatest` | internal/stripe/api.go:651-692 | no subscription outranks the chosen one, and when ids are distinct it outranks every other |
| `Mirror.TheSelectedSubscription` | internal/stripe/api.go:651-692 | the chosen subscription is a live one if any is reported, active or trialing and not paused, else one that is not over; of those alike the one created last, then the one whose period ends last, then the one with the greatest id |
| `Mirror.SelectIgnoresOrder` | internal/stripe/api.go:651-692 | however the provider orders its list the choice ranks the same, and when ids are distinct it is the same |
| `Mirror.StateExactlyWhen` | internal/billing/service.go:285-327 | the row says paid if and only if the greatest evidence for the selected subscription does, never because the provider calls it active; and failed if and only if that evidence does, or there is none and it is neither paying nor settling; paid clears the clock and a pause shows |
| `Mirror.APaidSubscriptionIsMirrored` | internal/billing/service.go:220-249 | an account with any paying subscription whose greatest evidence is paid is mirrored as paid by one of those, and an account without subscriptions never is |
| `Mirror.ResolvedCoversTheRow` | internal/billing/service.go:226-236 | the evidence a reconcile settles on is never earlier than what the row already stands for |
| `Deliveries.AcceptsUnlessBelow` | internal/billing/store.go:567-574 | for one subscription the guard refuses exactly the rows whose stamp is lexicographically below the stored one |
| `Deliveries.UpsertKeepsTheMaximum` | internal/billing/store.go:541-588 | under any interleaving of writers the stored stamp never goes down and is the greatest of what was there and what was offered |
| `Deliveries.UpsertOrderDoesNotMatter` | internal/billing/store.go:541-588 | any two orders of the same writes end with the same stamp |
| `Deliveries.DeliverOne` | internal/billing/service.go:157-352 | with pending never later than an end and positive creation stamps, one more delivery is never refused and leaves the state and watermark of the greatest evidence |
| `Deliveries.DeliveryOrderDoesNotMatter` | internal/billing/service.go:220-303 | under those assumptions, any order and repetition of the same payment events ends with the same stored state and watermark, those of the greatest evidence |
| `Deliveries.RefusedExactlyWhen` | internal/billing/store.go:567-574 | for a paying subscription the newest evidence is refused if and only if the event is no newer than the row's, the row is pending, and the evidence that ends the payment was created before the pending one |
| `Deliveries.OrderMattersExactlyWhen` | internal/billing/store.go:541-588 | dated evidence about one paying subscription ends at the greatest evidence in every order of delivery, with any repetition, if and only if the invoice is settled, or some event of an end is later than every pending one, or no pending evidence was created after the greatest |
| `Deliveries.DeliveredStands` | internal/billing/service.go:157-352 | over every run of dated deliveries the row says what the greatest evidence says, or says pending of a payment some evidence ends and was created after that evidence |
| `Deliveries.LaterPendingHidesPayment` | internal/billing/service.go:657-661 | a concrete pair of events that ends pending or paid depending on which is delivered first, and stays that way on redelivery |
| `Deliveries.ClockIsFirstFailureExactlyWhen` | internal/billing/service.go:329-341 | after any number of deliveries, the stored clock of a failed row is the first failure its evidence tells of if and only if no row since the last that was not failed saw an earlier one; it is never unset and never later |
| `Deliveries.ClockIsTheEarliestSeen` | internal/billing/service.go:329-341 | over every run of deliveries, the clock is the earliest first failure any row of the same lapse has seen, and unset while the row is not failed |
| `Deliveries.ClockDependsOnDeliveryOrder` | internal/billing/service.go:338-340 | three concrete events whose two orders of delivery agree on state and watermark and differ on the clock |
| `Webhooks.AFirstEventIsMirrored` | internal/billing/webhook.go:189-242 | the first evidence about a subscription that pays, from event to row: a settled invoice or checkout makes it paid; a failed or unfinalised invoice or a failed checkout makes it failed, since the event's own time or else the invoice's; a completed checkout waits unless nothing was owed; a change of the subscription proves nothing |
| `Webhooks.TheLastEndDecides` | internal/billing/webhook.go:189-242 | in whatever order and however often the events of a subscription arrive, the row ends paid or failed as the one event of an end says that none comes after, by invoice time, then event time, and then payment over failure |
| `Webhooks.AnInvoiceSaysWhatItsEventSays` | internal/billing/service.go:498-506 | an invoice read from the provider leaves the row as the event about it does, paid or failed and of the same invoice time, so an event that never arrives is made up for |
| `Webhooks.AnUnreportedSubscriptionChangesNothing` | internal/billing/service.go:212-214 | evidence about a subscription that is not reported, or about none, leaves the row as it is |
| `AccountLeases.LeaseTable.Acquire` | internal/billing/store.go:235-268 | an attempt takes the row exactly when there is none or it has expired by the attempt's clock, for five minutes |
| `AccountLeases.AccountLease.Renew` | internal/billing/store.go:139-168 | extends the row exactly when the statement is reached, the row is still this token's and has not expired and the heartbeat has not found the lease lost, and passes exactly when that is also answered |
| `AccountLeases.AccountLease.Heartbeat` | internal/billing/store.go:172-195 | any failed beat, an unreachable or silent database included, makes the lease lost for good |
| `AccountLeases.AccountLease.Release` | internal/billing/store.go:198-215 | removes only its own row, once |
| `AccountLeases.NoCheckPassesAgain` | internal/billing/store.go:139-168 | over whole runs with fresh tokens and arbitrary clocks: once another worker has passed a check after ours, ours never passes again |
| `AccountLeases.ReleaseTouchesOnlyItsOwn` | internal/billing/store.go:198-215 | a release at any point of any run leaves another worker's row as it is |
| `AccountLeases.RunKeeps` | internal/billing/store.go:220-279 | the row always belongs to the last token that acquired it |
| `AccountLeases.AttemptPassesExactlyWhen` | internal/billing/store.go:220-279 | over every run, told from the events alone: a fresh token's attempt passes if and only if nobody has passed a check yet, or the row was released or cascaded since the last that passed, or the attempt's clock is a lease or more after that one's |
| `AccountLeases.RenewalPassesExactlyWhen` | internal/billing/store.go:139-168 | so does a renewal if and only if its own token passed the last check, the row was not released or cascaded since, and less than a lease has gone by |
| `EventClaims.EventLog.ClaimEvent` | internal/billing/store.go:900-945 | a delivery is claimed exactly when it is new, unhandled, failed, or processing since a lease ago; otherwise it is reported in progress or a duplicate |
| `EventClaims.EventLog.FinishEvent` | internal/billing/store.go:949-973 | the outcome is recorded exactly when the row is still processing under this claim's start stamp |
| `EventClaims.EventLog.Handle` | internal/billing/webhook.go:90-128 | claim, decide, finish: what each delivery leaves in the log and answers its sender |
| `EventClaims.OneClaimantCanFinishExactlyWhen` | internal/billing/store.go:900-973 | over every run, whatever times the machines read, ahead or behind: at most one claim could be finished at every point if and only if no granted claim took the start stamp of a claim still open |
| `EventClaims.PromptClaimsTakeTheirOwnStamps` | internal/billing/store.go:901-917 | so it is enough that no machine is ahead of a common clock and every claim statement runs within a lease of reading its stamp |
| `EventClaims.ReclaimedNeverFinishes` | internal/billing/store.go:949-973 | in runs with stamps of their own, a worker whose claim was taken over can never record anything again |
| `EventClaims.RecordedForGood` | internal/billing/store.go:915-917 | an event recorded as applied or ignored stays exactly as recorded and nobody can finish it again, whatever the clocks do |
| `EventClaims.ADeliveryIsClaimedExactlyWhen` | internal/billing/store.go:900-945 | over every run whose grants take stamps of their own, told from the events alone: a delivery is given the claim if and only if none was yet, or the worker last given it reported a failure, or has not reported and took its stamp a lease or more before |
| `EventClaims.StalledTakeoverSharesTheStamp` | internal/billing/store.go:901-902 | a run in which a worker that stalls for a lease between its two clock reads takes over with the same stamp, so that either of two may finish |
| `EventClaims.StalledRetakeSharesTheStamp` | internal/billing/store.go:901-917 | a run in which a worker that reads both clocks at once and stalls before its statement claims a failed event with the stamp of an older open claim, so that either of two may finish |
| `Checkout.NoSessionIsLost` | internal/billing/service.go:1281-1481 | over every interleaving, lost lease and crash, with a provider that forgets keys: every session a customer could still pay is queued for cleanup, the row's own, recoverable under the row's key, or belongs to a key whose claim was retired without it or marked by a webhook, or that the provider forgot while the claim was still to be recovered or somebody could still call with it |
| `Checkout.OrdinaryRunsLoseNothing` | internal/billing/service.go:1281-1481 | without such retirements, webhooks and forgotten keys, every such session that is not queued is the row's own or recoverable, and there is at most one |
| `Checkout.StaleWorkersLeaveTheRowAlone` | internal/billing/store.go:705-744 | the claim row is changed only by a worker holding its token, replaced only once it has expired, or marked by a webhook |
| `Checkout.CrashedCreationIsRecovered` | internal/billing/service.go:1404-1457 | after a crash between creating and recording a session, and while the provider still knows its key, the next worker to look, call and save attaches exactly that session and creates no other, whether or not it then goes on to retire it for another plan |
| `Checkout.RetiringForAgeCanLoseASession` | internal/billing/service.go:1373-1382 | a run past the window in which a stalled worker creates a session no row, queue or key leads to |
| `Checkout.AWebhookCanLoseASession` | internal/billing/service.go:1373-1382 | a run in which a webhook marks the claim before a stalled worker's call does the same, with every other step an ordinary one |
| `Checkout.AForgottenKeyCanLoseASession` | internal/billing/service.go:1373-1377 | a run in which the provider forgets a key whose session has ended while a stalled worker can still call with it, with every other step an ordinary one |
| `Checkout.LeavingWithoutTheSessionIsSafeExactlyWhen` | internal/billing/service.go:1373-1382 | once the row's claim is neither recoverable nor has its session, every session of its key stays queued, the row's own or recoverable in every continuation, the provider forgetting keys included, if and only if no worker can still call with that key, past its lease check or able to pass it, and every session of it a customer could still pay is queued |
| `Checkout.LeavingCreating` | internal/billing/store.go:796-839 | a claim stops being recoverable only by getting its session or by being left without it, and the latter exactly at a retirement without a session or a webhook |
| `Checkout.StepKeeps` | internal/billing/service.go:1122-1212 | every step of looking, retiring, cleaning, claiming, calling, saving and giving up keeps every session accounted for and every worker's knowledge true |
| `Checkout.CleaningLeavesNothingPayable` | internal/billing/service.go:1122-1212 | over every run, whatever the others do meanwhile: a worker that gets through the cleaning loop leaves nothing payable of the sessions there were when it listed them |
| `Checkout.TakenOffTheQueueIsOver` | internal/billing/store.go:784-794 | a session leaves the cleanup queue only when it is over, and is then no longer in it |
| `Checkout.ASessionGotIsRecorded` | internal/billing/store.go:705-744 | a worker that got a session leaves it as the open session of the claim it called for, if that is still there, and queues it for cleanup otherwise |
| `Checkout.WhatStatementsLeave` | internal/billing/service.go:1315-1403 | complete is said only of a claim whose session is over; expired ends only the claim the worker means, and its worker goes on only then; a new claim starts without a session, exactly where there is none or an expired one |
| `Checkout.WhatLateSessionsLeave` | internal/billing/service.go:1404-1481 | a session that came too late for its claim is ended if it is still payable; one attached for another plan is retired, one for the plan asked for is handed out |
| `Checkout.ExcusedExactlyWhen` | internal/billing/service.go:1373-1382 | a key is excused exactly when its claim is retired without a session, or marked by a webhook without one, or the provider forgets it while it is in play |
| `Checkout.WhatCleaningLeaves` | internal/billing/service.go:1122-1212 | a listed session is queued before it is looked at, ended exactly if it is payable then, and the loop stops if it was paid or ended in between |
| `Checkout.CheckoutStore.NewCheckoutClaim` | internal/billing/store.go:642-694 | a claim is created exactly when there is none or it is expired |
| `Checkout.CheckoutStore.SaveCheckoutSession` | internal/billing/store.go:705-744 | attaches the session to the claim with this token, or else queues it for cleanup, in one transaction |
| `Checkout.CheckoutStore.MarkCheckoutClaimStatus` | internal/billing/store.go:815-839 | changes only the claim with this token |
| `Checkout.CheckoutStore.MarkCheckoutStatus` | internal/billing/store.go:796-809 | marks whatever claim is there |
| `Checkout.CheckoutStore.RetireCheckoutClaim` | internal/billing/service.go:1261-1275 | queues the claim's session and expires the claim only if it is still current, with the lease renewed before each: lost before the first nothing changes, lost before the second the session stays queued and the claim as it was |
| `Quiescence.Account.Quiesce` | internal/billing/service.go:836-872 | the log grows by writing the row and then holding the object, or only by the first if the provider refuses, and the state is what that comes to |
| `Quiescence.Account.RestoreQuiescence` | internal/billing/service.go:974-1030 | success leaves no row and nothing recorded held back; a failure part of the way leaves a row for everything still held back; by the log, every row is forgotten right after its object was undone |
| `Quiescence.HeldObjectsAreRecorded` | internal/billing/service.go:836-872 | over every run of any number of workers in which every forget is safe, every object this code holds back has its row, whoever crashed or lost the account |
| `Quiescence.RestoreLeavesNothingHeld` | internal/billing/service.go:974-1030 | in such runs a restore finished by the owner leaves nothing held back |
| `Quiescence.ForgettingKeepsTheRecordExactlyWhen` | internal/billing/store.go:342-359 | after a forget the record is kept in every continuation with safe forgets if and only if the forget was safe: the object is not held again and the account's owner is not between remembering and holding it |
| `Quiescence.RunKeepsTheRecordExactlyWhen` | internal/billing/store.go:342-359 | over every run at all: every held object has its row at every point if and only if every forget was harmless, finding its object not held and leaving a row to whoever held it again later |
| `Quiescence.WhatForgettingLeaves` | internal/billing/store.go:342-359 | a forget takes away its row and nothing else, and a worker that finds it gone already stops |
| `Quiescence.OwnersForgetSafely` | internal/billing/service.go:1012-1026 | a forget by the worker that owns the account is always safe |
| `Quiescence.AStalledForgetLosesTheRecord` | internal/billing/store.go:342-359 | a run in which a worker that lost its lease forgets an object its successor holds back |
| `Quiescence.AForgetBeforeTheHoldLosesTheRecord` | internal/billing/service.go:841-847 | a run in which the stalled worker forgets the object while nobody holds it, between its successor's remembering and holding it |
| `ApiLimiter.Limiter.AllowN` | internal/apikeys/ratelimit.go:115-157 | against the key's own limit when it has one, else the default, and worth its cost or one: allowed exactly when the hour's count and that are within the limit, counted then and only then, with what remains and when the hour ends; other keys are left alone |
| `ApiLimiter.Limiter.Sweep` | internal/apikeys/ratelimit.go:162-173 | drops exactly the buckets whose window has passed |
| `ApiLimiter.DecisionTellsTheTruth` | internal/apikeys/ratelimit.go:115-157 | until the reset a later call is allowed if and only if it costs no more than what the decision said remained, and from then on if and only if it costs no more than the limit |
| `ApiLimiter.AtMostTwiceTheLimit` | internal/apikeys/ratelimit.go:115-157 | with a fixed limit, a non-decreasing clock and costs that do not wrap, any stretch one window long allows at most twice the limit |
| `ApiLimiter.OneBucketAllowsTheLimit` | internal/apikeys/ratelimit.go:141-150 | the cost allowed since a bucket opened is exactly its count, at most the limit |
| `ApiLimiter.SweepsChangeNoDecision` | internal/apikeys/ratelimit.go:162-173 | with clocks in order, sweeps anywhere in a run change no decision |
| `ApiLimiter.SweepsChangeNoDecisionExactlyWhen` | internal/apikeys/ratelimit.go:130-173 | for any run, whatever clocks were read before taking the lock: sweeping changes no decision if and only if no call read its clock before the end of a bucket some sweep has dropped by then, unless that bucket is just like the one the call starts |
| `ApiLimiter.ALateCallIsAllowedAgain` | internal/apikeys/ratelimit.go:130-173 | a run in which such a call is allowed a second time within the hour |
| `ApiLimiter.AdmitsExactlyWhen` | internal/apikeys/ratelimit.go:146 | the machine comparison means what it says if and only if the sum does not exceed the largest integer |
| `ApiLimiter.SumsWrap` | internal/apikeys/ratelimit.go:146-150 | machine addition gives what is congruent to the sum and fits in 64 bits |
| `ApiLimiter.AHugeCostIsAllowed` | internal/apikeys/ratelimit.go:146-150 | a concrete cost that wraps, is allowed and leaves a negative count; only a direct caller can pass one, since the costs of tools are constants of the source |
| `AuthLimiter.Limiter.Allow` | internal/auth/ratelimit.go:108-124 | sweeps when due, counts every attempt, refused ones too, and allows a new bucket's first |
| `AuthLimiter.Limiter.Reset` | internal/auth/ratelimit.go:129-134 | forgets one key |
| `AuthLimiter.Limiter.Sweep` | internal/auth/ratelimit.go:140-156 | at most once an interval, drops exactly the buckets older than the longest window |
| `AuthLimiter.SweepIsUnobservable` | internal/auth/ratelimit.go:140-156 | for any run with windows up to a nanosecond more than the longest and a non-decreasing clock, the limiter answers as one that never drops a bucket, whenever it last swept |
| `AuthLimiter.SweepCutsLongerWindows` | internal/auth/ratelimit.go:149-154 | any longer window is cut short by the sweep |
| `AuthLimiter.AnAttemptPassesExactlyWhen` | internal/auth/ratelimit.go:108-124 | over every run, resets included, told from the events alone: an attempt passes if and only if it begins a stretch of its own, after a reset or a window or more after the last one began, or is within the limit among the attempts of its stretch |
| `AuthLimiter.AStretchPassesExactly` | internal/auth/ratelimit.go:108-124 | of the attempts in a stretch exactly as many pass as the limit allows, and one if it allows none |
| `AuthLimiter.AtMostTwiceTheLimit` | internal/auth/ratelimit.go:108-124 | without resets any stretch one window long allows at most twice the limit, or two when the limit is below one |
| `AuthLimiter.ZeroLimitStillAllowsOne` | internal/auth/ratelimit.go:115-119 | a limit of zero lets the first attempt of a window through and no second |
| `Filters.EscapeFilterValue` | ecosystem/looker-studio-connector/Params.js:238-252 | a backslash before exactly the characters of the syntax |
| `Filters.TranslateFilterGroup` | ecosystem/looker-studio-connector/Params.js:260-303 | a group is printed exactly when its conditions are all on one field the API knows, with one operator of the three it has, included or excluded alike, and ask for some value; as the field's dimension, the operator's own token and every value |
| `Filters.TranslateFilters` | ecosystem/looker-studio-connector/Params.js:310-335 | prints the clauses of the groups that can be pushed, and says applied exactly when that was all of them; then what the grammar reads back keeps exactly the records the report keeps |
| `Filters.GrammarRoundTrip` | ecosystem/looker-studio-connector/Params.js:69-74 | splitting on unescaped semicolons, the first unescaped operator, unescaped bars and stripping escapes recovers every printed filter, for all values |
| `Filters.CutsExactlyWhen` | ecosystem/looker-studio-connector/Params.js:69-73 | on any text at all, printed or not: a clause is cut at the first unescaped character of an operator, and only if an operator begins there |
| `Filters.PrintIsInjective` | ecosystem/looker-studio-connector/Params.js:260-335 | different filters are never printed alike |
| `Filters.TranslatedFiltersReadBack` | ecosystem/looker-studio-connector/Params.js:310-335 | what was pushed is read back group by group |
| `Filters.AppliedFiltersKeepTheReport` | ecosystem/looker-studio-connector/Params.js:310-335 | when every group is pushed, what is read back keeps a record if and only if the report does: an inclusion what equals or contains one of its values, an exclusion what does not |
| `Filters.PushedKeepTheReport` | ecosystem/looker-studio-connector/Params.js:60-67 | when only some are, the clauses keep exactly the records those groups keep |
| `Filters.GroupsAreOrsExactlyWhen` | ecosystem/looker-studio-connector/Params.js:254-299 | a report joins a group's conditions by or: the clause agrees with that if and only if the group includes, or each value that one condition excludes is excluded by every other |
| `Filters.AnOrOfExclusionsLosesRecords` | ecosystem/looker-studio-connector/Params.js:278-299 | the or of two exclusions on one field, pushed as one clause, drops records that the report keeps |
| `Filters.SplitJoin` | internal/publicapi/params.go:546-572 | splitting undoes joining for parts without an unescaped separator |
| `Filters.UnescapeEscape` | internal/publicapi/params.go:591-606 | stripping escapes undoes escaping |
| `FilterParser.ParsePrinted` | internal/publicapi/params.go:412-457 | trying the operators in the parser's order on a printed clause finds its own operator and its exact values |
| `FilterParser.PrintedMeans` | internal/publicapi/params.go:412-457 | what a printed clause is taken to mean: no value, the goal under equality only, an unknown dimension, a pattern for an asterisk under equality, else the clause itself |
| `FilterParser.CutsAtTheFirst` | internal/publicapi/params.go:574-588 | on any text at all: it is cut at the first place a scan that steps over escaped characters comes to and the token begins, and not cut exactly when there is none |
| `FilterParser.BlankFilters` | internal/publicapi/params.go:382-409 | a text asks for nothing exactly when it is blank, and is refused as empty exactly when it is not blank and all its clauses are |
| `FilterParser.ParserReadsPrinted` | internal/publicapi/params.go:382-409 | the whole parser on any printed filter: every clause as printed, except that its last value loses the white space at its end |
| `FilterParser.ParserRoundTripExactlyWhen` | internal/publicapi/params.go:382-457 | the API reads a printed filter back as meant if and only if every clause has a known dimension other than the goal, no asterisk under equality, not the single empty value, and no white space at the end of its last value |
| `FilterParser.TrailingSpaceIsLost` | internal/publicapi/params.go:392 | a concrete value that does not come back |
| `FilterParser.TheApiKeepsTheReport` | internal/publicapi/params.go:382-457 | the API's own parser, on a report all of whose clauses it reads back as meant, keeps exactly the records the report keeps |
| `ChunkedCache.ScriptCache.ReadCache` | ecosystem/looker-studio-connector/Cache.js:70-108 | with nobody in between: a hit is the head itself, or every chunk its manifest counts; anything missing is a miss |
| `ChunkedCache.ScriptCache.FinishRead` | ecosystem/looker-studio-connector/Cache.js:77-107 | what a reader makes of the head it got, whatever the chunks are by then: the head itself, every chunk it counts, or a miss |
| `ChunkedCache.ScriptCache.StoreChunks` | ecosystem/looker-studio-connector/Cache.js:127-135 | the first of the two writes of a long answer puts every chunk and nothing else |
| `ChunkedCache.ScriptCache.WriteCache` | ecosystem/looker-studio-connector/Cache.js:116-139 | a body of up to 25000 characters in one entry, one of up to 200000 in chunks and then the manifest over them, and nothing for one that is longer |
| `ChunkedCache.ParsesExactly` | ecosystem/looker-studio-connector/Cache.js:81 | what is read off any text for the number of chunks: the digits after blanks and an optional sign, as far as they go, and nothing where there are none |
| `ChunkedCache.ReadsAllOrNothing` | ecosystem/looker-studio-connector/Cache.js:70-108 | what survives for a key reads as a miss or as the whole body stored last |
| `ChunkedCache.ReadInTheWindow` | ecosystem/looker-studio-connector/Cache.js:133-136 | a reader between the two writes, whatever has been evicted, finds nothing, or a short old body itself, or of a long one as many chunks as it had, the new body's first; and finds that when nothing is missing |
| `ChunkedCache.MixedExactlyWhen` | ecosystem/looker-studio-connector/Cache.js:133-136 | that is neither the old body nor the new one if and only if both are long, their chunks differ in number, and neither is the other's first whole chunks |
| `ChunkedCache.AReaderCanFindAMix` | ecosystem/looker-studio-connector/Cache.js:133-136 | storing a concrete answer of two chunks over one of three, a reader in between gets a hit that is neither |
| `ChunkedCache.TheWindowOpens` | ecosystem/looker-studio-connector/Cache.js:133-136 | the first write leaves exactly that state behind, whatever had survived of the old body |
| `ChunkedCache.TheWindowStays` | ecosystem/looker-studio-connector/Cache.js:64-69 | losing any entries at any time keeps it one, so what a reader finds in it holds at every moment before the second write |
| `ChunkedCache.AStraddlingRead` | ecosystem/looker-studio-connector/Cache.js:70-139 | over every run of single calls by any number of writers under keys that are not each other's chunk names, with any losses, and a reader whose two calls fall anywhere in it: it finds nothing, or the short body whose head it got, or of a long one as many chunks as that has, each of the last body put by then that has such a chunk |
| `ChunkedCache.WithoutLossAReadHits` | ecosystem/looker-studio-connector/Cache.js:116-139 | and it finds something if nothing was lost and a head had been put |
| `ChunkedCache.HitsAreNoBodyExactlyWhen` | ecosystem/looker-studio-connector/Cache.js:70-139 | such a hit is neither the body whose head was found nor the last one put if and only if the head is a long body's, the two differ in their number of chunks, the last does not go on where the body ends, and the body is not the last one followed by the chunks left beneath it; a hit is the body if that is short or was itself put last |
| `ChunkedCache.BeneathIsItsOwn` | ecosystem/looker-studio-connector/Cache.js:70-139 | where the chunks beneath are the body's own, as after a single later write, the last of those conditions says that the body does not go on where the last one ends |
| `ChunkedCache.AStraddlingReaderFindsAMix` | ecosystem/looker-studio-connector/Cache.js:70-139 | for any two long bodies that differ in their first character and their number of chunks: a reader that gets the head of one and its chunks after the other was stored whole finds neither |
| `ChunkedCache.HitsAreTheLastBody` | ecosystem/looker-studio-connector/Cache.js:70-139 | over any run of whole writes, whole reads and evictions under keys that are not each other's chunk names, a hit is the body most recently stored, and without evictions it is always a hit |
| `ChunkedCache.ReadsBackExactlyWhen` | ecosystem/looker-studio-connector/Cache.js:36-40 | in an empty cache a stored body reads back if and only if it is long or does not start with the manifest marker |
| `ChunkedCache.NamesAreInjective` | ecosystem/looker-studio-connector/Cache.js:87-89 | different keys or indices never share a chunk name |
| `ChunkedCache.SameLengthIsApart` | ecosystem/looker-studio-connector/Cache.js:87-89 | keys of one length are never each other's chunk names |

## Left out

- DeletionFence.DeletionIsFinal: the processes are those that open through a manager; the migration command (internal/cli/db.go:179) opens shards without either lock and is not one of them.
- Opening, closing, migrating and checkpointing SQLite databases, and the dimension cache: a database is open or not.
- The per-account coordination lock that serialises opens of different processes (accounts.go:271-304): without it there are only more interleavings, and the fence does not need it.
- AccountManager.WriteGuard.Open: asks for a guard that holds no handle yet; opening twice through one guard would overwrite the first.
- The watcher's clock, its failure counter and its callback: a pass is a step, with the ids it found.
- The manager's lock is modelled as the boundary of a step; that map reads under the shared lock do not race is not.
- AccountManager.Manager.CloseAll: one caller with no other activity; its race with opens is `CacheRuns.WatchedExactlyWhen`.
- Promotions.WholeRunsAreARecencyListExactlyWhen: ranks only, as is Promotions.QuietIsOneAtATime; the use time a promotion stores after its rank, and so which handles an idle sweep takes when promotions overlap, is not modelled.
- Deletion of control rows and files beyond the shard, and the deletion manifest.
- SQL text, transactions and constraints other than the conditions written in each statement.
- Columns of the mirror that do not decide access (customer, plan, price, period end, email), Slack notices, and the lifecycle signals a reconcile sends.
- The branch of a reconcile for accounts under deletion (service.go:165-181), settlement recovery (service.go:1034-1105) and customer discovery: provider answers are parameters.
- Mirror.Store.Reconcile: subscriptions are taken to have distinct ids, as the provider gives them.
- Mirror.Store.Receive: an event that has been routed to an account and names a customer; any other is ignored before this (webhook.go:150-162).
- Webhooks.TheLastEndDecides: one paying subscription whose invoices say nothing and a fixed provider snapshot, events with positive stamps and no waiting checkout newer than an end; what is lost without that is `Deliveries.OrderMattersExactlyWhen`.
- Filters.AppliedFiltersKeepTheReport: for dimension names without characters of the syntax, which is all the API has; values are compared as they are, as the API does by default.
- Mirror.ResolveAll: ids are distinct here too, where one id given twice would leave one entry in the result.
- Deliveries.DeliveryOrderDoesNotMatter: one paying subscription and a fixed provider snapshot; events whose handler failed, which are not evidence until redelivered, are not delivered at all.
- Deliveries.RefusedExactlyWhen: for evidence with positive creation stamps, as the provider gives it.
- The lease handed out without a token once deletion has begun (store.go:250-252): it is not fenced, and no result covers it.
- AccountLeases.LeaseTable.Acquire: one attempt; the polling loop around it and the in-process lock are not modelled.
- EventClaims.EventLog.Handle: nobody else works on the event while its handler runs; when others do is the run model's part.
- Binding a team to an event log row, and payloads.
- Plans, prices and customers in checkout: whether a claim is for the same plan is the environment's choice, so a worker may resume or retire either way.
- Checkout.NoSessionIsLost: three kinds of keys are excused; `Checkout.RetiringForAgeCanLoseASession`, `Checkout.AWebhookCanLoseASession` and `Checkout.AForgottenKeyCanLoseASession` show that each excuse is needed, and `Checkout.LeavingWithoutTheSessionIsSafeExactlyWhen` when the first two are not. Of the lease checks only the one before a call is modelled, the others being choices of the worker.
- Checkout.CrashedCreationIsRecovered: the look, the call and the save follow each other; what may come between them is covered by `Checkout.NoSessionIsLost`.
- Irreversible finalisation of a deletion (voiding and deleting invoices) and the loop that waits for provider state to settle.
- Quiescence.HeldObjectsAreRecorded: assumes that each lease check and the provider call after it are one step, and that forgets are safe; what unsafe ones do is `Quiescence.RunKeepsTheRecordExactlyWhen`.
- ApiLimiter.AtMostTwiceTheLimit: for clocks in the order of the lock, as is ApiLimiter.OneBucketAllowsTheLimit; what sweeping does under any clocks is `ApiLimiter.SweepsChangeNoDecisionExactlyWhen`.
- AuthLimiter.SweepIsUnobservable: calls are taken in the order they hold the lock, with a non-decreasing clock.
- Saturation of very long durations, and `RetryAfter`.
- Bytes of UTF-8: characters stand for them, since every separator is a single byte.
- The pattern a wildcard filter is compiled to (params.go:501-543): it is only known to be a wildcard.
- Time to live in the response cache: expiry is one of the evictions that may happen at any time.
- ChunkedCache.HitsAreTheLastBody: reads and writes are taken whole and one after another; what single calls find is `ChunkedCache.AStraddlingRead`.
- Hash quality of cache keys: keys in use are taken not to be each other's chunk names.
- HTTP handlers, signatures, JSON, templates, cookies and the other packages of the repository.
