# A verified model of the gateway's protocols

This project models the parts of an API gateway in which money, quotas, keys and
permissions depend on more than one step: locks, callbacks, pollers, caches, scanners and
sessions. Everything is stated for all inputs, all runs or all interleavings, and proved.

| file | what it models |
|---|---|
| `Basics.dfy` | options, bytes, truncation and the epsilon comparison |
| `OrderLock.dfy` | the reference-counted mutex per order, as threads with program counters over shared memory |
| `Fulfilment.dfy` | the payment callbacks that read, check, save and credit an order under that lock |
| `TokenMode.dfy` | what a top-up requested in tokens is credited, through two truncations |
| `Midjourney.dfy` | pollers with stale snapshots, compare-and-set on the status, refund of failed tasks |
| `VideoLedger.dfy` | polls that re-price and refund a video task, with every write that can fail |
| `RateLimiter.dfy` | the bounded queue per key and its background purge, against unbounded counting |
| `Text.dfy` | splitting, joining and trimming, and when they undo each other |
| `UpstreamModels.dfy` | detection and application of upstream model changes |
| `KeysetScan.dfy` | the scan over enabled channels in batches |
| `MultiKey.dfy`, `MultiKeyChannel.dfy` | channels with several keys: position maps against a list of records, paging, appending |
| `RatioSync.dfy` | the price comparison: built, then pruned, against its declarative meaning |
| `ModelsDev.dfy` | the choice among providers with an epsilon comparison |
| `OpusScanner.dfy` | the Ogg page scanner that finds the length of a recording |
| `BodyStorage.dfy`, `CacheCounters.dfy` | request bodies in memory or on disk, and the global counters |
| `StepUp.dfy` | session markers of the step-up verification, against the history of events |

Code that updates state is modelled by classes and loops proved against functions on
values; runs and interleavings are lists of actions, or sequences of states, over those
functions. Prices are real numbers. The clock, the database, the network, the disk and the
regular-expression matcher are parameters; a database write succeeds or fails as a parameter
says.

`dafny verify dfyconfig.toml` checks the project.

## Where the code does less than one would expect

For each of these a lemma, or the contract of a method, says exactly when the code meets the
property.

- A limiter window more than one second longer than a positive expiration is forgotten by a
  purge, a limit of zero lets the first request through, and a negative limit makes every
  request panic (`RateLimiter.MeetsSpecificationIff`).
- A Midjourney task can be refunded twice unless every failure comes with a reason or as
  finished and a reason below 100% comes with a failure (`Midjourney.RefundedAtMostOnceIff`);
  under the same condition exactly the failures stored are refunded
  (`Midjourney.RefundsEveryFailureIff`). A task whose channel is gone fails without a refund
  (`Midjourney.LostChannelRefundsNothing`). A task
  can be refunded after a success exactly when a success is reported below 100% without a
  reason, or a failure is and there are successes at all (`Midjourney.NoRefundAfterSuccessIff`).
- A top-up in tokens can lose a whole unit or more when the fraction of the quota per unit is
  neither zero nor one over a whole number (`TokenMode.WithinOneUnitIff`).
- An upstream model whose name holds a comma falls apart when it is added and is detected
  again for ever (`UpstreamModels.DetectApplyCommuteIff`).
- Deleting keys does what it says exactly when the rest reads back as the same keys
  (`MultiKey.DeleteRefinesIff`, `MultiKey.DeleteDisabledRefinesIff`). An empty key that becomes
  the first is lost as well (`MultiKey.DeletingTakesEmptyNeighbour`). Deleting all automatically
  disabled keys when no other is left deletes none and enables all, because an empty key text
  is not written (`MultiKey.DeletingAllRevivesAll`).
- A key that is enabled again automatically keeps its time and reason
  (`MultiKey.AutoEnableIff`).
- In append mode the existing keys are lost when the key text looks like an array but is not
  valid JSON (`MultiKeyChannel.ExistingKeysIff`, `MultiKeyChannel.AppendedIs`).
- An item without any difference can stay in the price comparison; `RatioSync.BuildDifferences`
  says exactly when. It happens with a null (`RatioSync.NullLeavesHollowItem`), with a value
  spelled like the mark for "same" (`RatioSync.MarkLeavesHollowItem`) and with two channels of
  one name (`RatioSync.SharedNameLeavesHollowItem`).
- The documented policy of the models.dev import is the cheapest priced offer; the code keeps
  it in all feeds with given prices, whatever the providers are called, exactly when no other
  price lies less than epsilon above the lowest (`ModelsDev.KeepsCheapestIff`).
- With the largest 64-bit number as the body limit, one more than the limit wraps around and
  the body is stored empty (`BodyStorage.WholeOrRefusedIff`). The gateway itself passes whole
  megabytes (common/gin.go:60-69), so only a direct call reaches that limit.
- A read into an empty buffer at the end of a body is answered differently by the two kinds of
  storage, and that is the only difference (`BodyStorage.AnswersAgreeIff`).
- The limit on disk usage holds in all runs exactly when disk storages are created one at a time
  and write no more than was checked, or there is no room for any (`CacheCounters.LimitHoldsIff`).
  A compressed body can write more: it is checked with its compressed length
  (middleware/gzip.go:44-67, common/gin.go:66-69).
- A video task leaks quota when its row is not saved after a charge, when the refund is not
  written, when its channel is gone, when a failed task is reported as not failed, or when a
  poll overwrites a row that holds another amount than the task it loaded
  (`VideoLedger.ConservesIff`). With all writes working, two polls that load a task before either
  saves refund it twice or charge it twice (`VideoLedger.StaleFailureRefundsTwice`,
  `VideoLedger.StaleRepricingChargesTwice`); over all runs the books of a task with an amount to
  refund balance exactly when every poll works on the current row
  (`VideoLedger.BalancesWithinIff`).
- The minute in which a passkey check can be used is measured when its marker is read. In all
  histories the verification is recorded less than 60 seconds and some slack after the check
  exactly when recording never lags the reading by more than the slack
  (`StepUp.RecordedWithinIff`); within the minute itself, only if the clock does not tick.

The Opus length is the largest granule position over 48000; the pre-skip of section 4 of
RFC 7845 is not subtracted by the code, and so not here.

## Model

| member | source | states |
|---|---|---|
| `OrderLock.NextKeepsInv` | controller/topup.go:282-311 | every shared-memory step of every thread keeps the invariant: createLock has one owner, table entries are distinct live mutexes, counts are the registered threads, a locked mutex has one holder, an uncounted entry is being dealt with |
| `OrderLock.AlwaysInv` | controller/topup.go:271-311 | the invariant holds in every state of every interleaving, for any number of threads and orders |
| `OrderLock.MutualExclusion` | controller/topup.go:282-311 | at most one thread is between LockOrder and UnlockOrder for an order |
| `OrderLock.EntryCountsUsers` | controller/topup.go:282-311 | an entry's count is the number of threads registered and not yet deregistered for its order, and an order without an entry has none |
| `OrderLock.UnlockFindsOwnMutex` | controller/topup.go:297-301 | the unguarded load in UnlockOrder finds the very mutex the thread locked, and it is still locked when unlocked |
| `OrderLock.NoDeadlock` | controller/topup.go:282-311 | while a call is in flight some call can take a step, and the owner of createLock always can, so nobody waits for an order while holding it |
| `OrderLock.NoLeak` | controller/topup.go:297-311 | once all threads are idle the table is empty and nothing is locked or counted |
| `OrderLock.CallsInFlightFinish` | controller/topup.go:282-311 | without new calls the calls in flight end after a bounded number of steps, with an empty table |
| `Fulfilment.OrdersNext` | controller/topup.go:376-411 | every step of every callback keeps the order invariants: who may credit, what was credited, what each user was paid, and that settled rows stay |
| `Fulfilment.AccessPaysOnce` | controller/topup.go:384-405 | a database access either moves no money or pays one order that was not paid before |
| `Fulfilment.AlwaysInv` | controller/topup.go:376-411 | those invariants hold in every state of every interleaving of the five callbacks |
| `Fulfilment.LeavesPendingOnce` | controller/topup_stripe.go:222-290 | a row that has left pending never changes again, in any interleaving of EpayNotify, fulfillOrder, sessionAsyncPaymentFailed, sessionExpired and AdminCompleteTopUp |
| `Fulfilment.CreditedAtMostOnce` | model/topup.go:109-164 | an order is credited at most once, and only after it has become successful in this run |
| `Fulfilment.QuotaAtQuiescence` | controller/topup.go:376-411 | with no callback in flight a user's quota is the initial one plus what each of the user's newly successful orders is worth, Money (for Stripe) or Amount times QuotaPerUnit, except those whose credit write failed |
| `Fulfilment.CallbackOutcome` | controller/topup.go:376-411 | a callback whose accesses go through settles exactly the pending orders of its provider: status and method as promised, nothing else of the row, one credit of the truncated amount (dollars for Stripe) times QuotaPerUnit to that user for the payments, none for the rest; any other order it leaves alone |
| `Fulfilment.EpaySettles` | controller/topup.go:389-405 | EpayNotify in its three accesses: success, the method actually used, the credit |
| `Fulfilment.StripeOrAdminSettles` | model/topup.go:109-164 | the same for a Stripe payment, failure and expiry and for completion by an administrator |
| `Fulfilment.CallbackSettles` | controller/topup.go:376-411 | whatever other threads do between its accesses, a callback that goes through ends with its order settled as promised and, for a payment, credited once; and the order stays so |
| `Fulfilment.CallbacksProgress` | controller/topup.go:376-411 | while a callback is in flight one of them can take a step |
| `TokenMode.NeverMoreThanRequested` | controller/topup.go:245-250 | a top-up in tokens never credits more tokens than were asked for |
| `TokenMode.UnitFractionLosesLess` | controller/topup.go:245-250 | with a fraction of zero or one over a whole number it credits less than one unit below the request |
| `TokenMode.OtherwiseSomeLosesOne` | controller/topup.go:245-250 | with any other fraction some request loses a whole unit or more |
| `TokenMode.WithinOneUnitIff` | controller/topup.go:376-411 | every request is credited to within one unit exactly when the fraction of QuotaPerUnit is zero or one over a whole number |
| `Midjourney.TaskObject.Absorb` | controller/midjourney.go:153-232 | the fields overwritten by an answer, the decision to write and the decision to refund are those of the value model |
| `Midjourney.SkippedAnswerIsOld` | controller/midjourney.go:241-294 | an answer that is skipped as old would have changed nothing but serialised properties and buttons, and owes an unfinished task no refund |
| `Midjourney.WrittenIff` | controller/midjourney.go:241-294 | an answer for an unfinished task is written exactly when it changes more than the serialised properties and buttons |
| `Midjourney.AnswerIsTaken` | controller/midjourney.go:159-210 | what a poll leaves of an unfinished task, written or skipped: after an hour a finished failure, before that the answer, finished when a reason is given |
| `Midjourney.FinishedIsNotLate` | controller/midjourney.go:159-164 | a finished task does not time out |
| `Midjourney.RunKeepsOnce` | controller/midjourney.go:153-232 | with clear failures any run of any pollers refunds at most once, and no stale snapshot can win after the failure |
| `Midjourney.RunKeepsSuccess` | controller/midjourney.go:153-232 | when no success and no failure leaves the task unfinished, a row in either status is finished, no snapshot shows one, and no run refunds a task after a poller has made it successful |
| `Midjourney.NoneSucceeds` | controller/midjourney.go:153-232 | a channel that reports no success never has one written |
| `Midjourney.UnclearReasonRefundsTwice` | controller/midjourney.go:203-232 | a reason below 100% without a failure is refunded by two pollers |
| `Midjourney.UnclearFailureRefundsTwice` | controller/midjourney.go:203-232 | a failure without reason below 100% is refunded twice once it has timed out |
| `Midjourney.EarlySuccessIsRefunded` | controller/midjourney.go:153-232 | a success reported below 100% without a reason is refunded once it has timed out |
| `Midjourney.OpenFailureIsRefundedAfterSuccess` | controller/midjourney.go:86-232 | three pollers see a failure below 100% without a reason: after the first has stored a success and the second has found the channel gone, the third still wins and refunds |
| `Midjourney.RefundedAtMostOnceIff` | controller/midjourney.go:153-232 | no run over any number of pollers refunds twice exactly when the channel's failures are clear |
| `Midjourney.NoRefundAfterSuccessIff` | controller/midjourney.go:153-232 | for every channel, no run refunds after a success exactly when no success below 100% comes without a reason and, if it reports successes, no failure does |
| `Midjourney.BalanceAfterRun` | controller/midjourney.go:206-232 | after any run every amount owed or paid stems from the one refund the log may hold, and a refund that was decided is paid, failed to be written, or still owed |
| `Midjourney.RefundIsExact` | controller/midjourney.go:206-232 | after any run the user has nothing or exactly the task's quota back, and once nobody owes it is the quota exactly when a refund was decided and its write did not fail |
| `Midjourney.RunRefundsFailures` | controller/midjourney.go:203-232 | with clear failures, over any run, exactly the writes that store a failure of a task that cost something earn a refund |
| `Midjourney.UnclearIsMistaken` | controller/midjourney.go:203-232 | an unclear answer is stored as a failure without a refund, or refunded without a failure |
| `Midjourney.RefundsEveryFailureIff` | controller/midjourney.go:203-232 | over all runs exactly the failures stored are refunded exactly when the channel's failures are clear |
| `Midjourney.LostChannelRefundsNothing` | controller/midjourney.go:90-101 | the bulk update for a lost channel stores a finished failure, owes no refund, and no later pass sees the task |
| `Midjourney.PaymentIs` | model/user.go:914-929 | a payment adds what is owed, unless its write fails or the amount is negative |
| `Midjourney.FailureIsPaidBack` | controller/midjourney.go:206-232 | once nobody owes, the user has the quota back exactly when a poller has stored the failure and that payment did not fail; with working payments and no negative quota none fails |
| `VideoLedger.TaskObject.Reprice` | controller/task_video.go:164-238 | re-pricing moves the balance by the difference to the actual price and the task's amount with it, or neither when the write fails |
| `VideoLedger.TaskObject.Absorb` | controller/task_video.go:131-260 | the fields and the money after the status switch, and that a refund is called for exactly on a failure that is new and holds an amount |
| `VideoLedger.TaskObject.Update` | controller/task_video.go:122-276 | one poll of a task loaded at any time before leaves row and balance as the value model says, for every status, price and failing write, and errs exactly on unknown statuses |
| `VideoLedger.Store.Increase` | model/user.go:914-929 | adds to the balance unless the amount is negative or the write fails |
| `VideoLedger.Store.Decrease` | model/user.go:939-954 | takes from the balance unless the amount is negative or the write fails |
| `VideoLedger.ConservesIff` | controller/task_video.go:127-276 | what an event does to balance plus amount held, whatever it loaded: they stay exactly when it is none of four leaks and overwrites no row with another amount, or when the two cancel |
| `VideoLedger.RunDrifts` | controller/task_video.go:127-276 | over any run the books differ by exactly the sum of what leaks and of the differences overwritten |
| `VideoLedger.FinishedPrice` | controller/task_video.go:152-238 | a finished task is left with tokens times model ratio times group ratio, truncated, when all of these are known and the charge works, else with its old price; the balance moves by the difference |
| `VideoLedger.UnfinishedIsFree` | controller/task_video.go:131-140 | until a task is finished or fails a poll moves no money |
| `VideoLedger.PollShows` | controller/task_video.go:131-262 | the status, progress and reason that a saved poll shows |
| `VideoLedger.NoStatusIsFailure` | controller/task_video.go:121-125 | an answer without a status is a failure |
| `VideoLedger.TimesAreFirst` | controller/task_video.go:137-147 | over any run of saved polls of the current row the start and finish times are those of the first report of progress and of an end |
| `VideoLedger.OrderlyRunDoesNotLeak` | controller/task_video.go:127-276 | with working writes, no lost channel, no failed task reported as not failed, no negative prices and rows that still hold the amount loaded there is no leak |
| `VideoLedger.BooksBalance` | controller/task_video.go:127-276 | then balance plus amount held is constant over any run, so a task that ends failed has given back exactly what it was charged |
| `VideoLedger.StaleFailureRefundsTwice` | controller/task_video.go:246-276 | two polls that loaded a task before either saved its failure refund it twice, with every write working |
| `VideoLedger.StaleRepricingChargesTwice` | controller/task_video.go:164-238 | two polls that loaded a task before either saved its price charge the difference twice |
| `VideoLedger.BalancesWithinIff` | model/task.go:414-418 | over all orderly runs with snapshots of a given age the books balance exactly when the task has failed already, or that age is zero and the amount on the task is not negative |
| `VideoLedger.SaveLostChargesTwice` | controller/task_video.go:185-266 | a row that is not saved after a charge is charged again by the next poll |
| `RateLimiter.InMemoryRateLimiter.Request` | common/rate-limit.go:45-70 | the answer, the panics included, and the new queue of the key, all other keys untouched |
| `RateLimiter.InMemoryRateLimiter.ClearExpiredItems` | common/rate-limit.go:28-43 | a pass of the purge, which runs only for a positive expiration, drops exactly the keys whose last request is too old |
| `RateLimiter.AnswerIsSpecified` | common/rate-limit.go:45-70 | in a reachable state the queue answers as counting all accepted requests in the window would |
| `RateLimiter.RunKeepsInv` | common/rate-limit.go:28-70 | every run with purges at any time keeps the queue a suffix of the accepted requests that covers the window |
| `RateLimiter.ZeroLimitFirstRequest` | common/rate-limit.go:64-69 | with a limit of zero the first request is let through |
| `RateLimiter.NegativeLimitPanics` | common/rate-limit.go:64-69 | with a negative limit nothing is ever stored and every request panics |
| `RateLimiter.PurgeForgetsWindow` | common/rate-limit.go:28-43 | with a window more than a second longer than the expiration some run with a purge answers wrongly |
| `RateLimiter.MeetsSpecificationIff` | common/rate-limit.go:14-70 | all runs answer as the unbounded count exactly when the limit is at least one and either nothing is purged or the window is at most the expiration plus one second |
| `RateLimiter.AcceptsAsSpecified` | common/constants.go:221-248 | what is accepted depends on the requests alone: purges are unobservable |
| `RateLimiter.WindowsAreBounded` | common/rate-limit.go:45-70 | no window of that length, wherever it starts, ever holds more than the limit of accepted requests |
| `Text.SplitJoin` | model/channel.go:175-197 | splitting a joined list gives the list back exactly when no element holds the separator |
| `Text.TrimmedRoundTrip` | model/channel.go:175-197 | with the separator trimmed off the ends first, exactly when also, of several elements, neither the first nor the last is empty |
| `Text.TrimIsTidy` | controller/channel_upstream_update.go:93-98 | trimming ends without cut characters, is idempotent and keeps tidy text |
| `Text.TrimIs` | controller/channel_upstream_update.go:93-98 | trimming takes exactly the cut characters at either end |
| `Text.CleanedAt` | controller/channel_upstream_update.go:93-98 | each name that is left when trimmed stands behind those left before it, and there are no others |
| `UpstreamModels.NormalizeIsNormal` | controller/channel_upstream_update.go:93-98 | normalised names are trimmed, not empty and distinct |
| `UpstreamModels.NormalizeIs` | controller/channel_upstream_update.go:93-98 | the normalised list holds exactly the non-empty trimmed names of any list, in order of first occurrence |
| `UpstreamModels.NormalStays` | controller/channel_upstream_update.go:93-98 | a normal list is left as it is |
| `UpstreamModels.MergeModelNames` | controller/channel_upstream_update.go:100-114 | the loop with its set of seen names appends exactly the new names in order |
| `UpstreamModels.SubtractIs` | controller/channel_upstream_update.go:116-125 | subtraction keeps the normalised base in order without the normalised removed names, for any lists |
| `UpstreamModels.IntersectIs` | controller/channel_upstream_update.go:127-136 | intersection is exactly the names common to the normalised lists, normal, for any lists |
| `UpstreamModels.PendingIs` | controller/channel_upstream_update.go:172-231 | additions are the upstream names not local, not a mapping target and not ignored, removals the local names not mapped and gone upstream, each in order |
| `UpstreamModels.ChannelObject.Detect` | controller/channel_upstream_update.go:367-390 | what a successful fetch makes of the channel, with automatic application |
| `UpstreamModels.ModelsStay` | controller/channel_upstream_update.go:367-390 | a check changes the models only if allowed, asked for by the channel and with something to add; otherwise what it found stays pending |
| `UpstreamModels.ChannelObject.CheckAndPersist` | controller/channel_upstream_update.go:356-403 | the stored row after a check, with its early return, a failed fetch and a failed save, and what is reported |
| `UpstreamModels.Plan` | controller/channel_upstream_update.go:816-841 | the channel after applying a selection and what was taken over |
| `UpstreamModels.ChannelObject.Apply` | controller/channel_upstream_update.go:802-850 | the stored row after applying a selection, unchanged with nothing reported when the save fails |
| `UpstreamModels.AutoAddsAll` | controller/channel_upstream_update.go:356-403 | automatic application appends all pending additions behind the local names |
| `UpstreamModels.StoredNamesHaveNoComma` | model/channel.go:289-294 | names read from the stored text hold no comma |
| `UpstreamModels.StoredListComesBack` | model/channel.go:289-294 | a normal list without commas survives being stored as text |
| `UpstreamModels.AddsCommute` | controller/channel_upstream_update.go:802-850 | after applying, re-detection finds exactly the additions left, in order |
| `UpstreamModels.RemovesCommute` | controller/channel_upstream_update.go:802-850 | and exactly the removals left, in order |
| `UpstreamModels.CommaIsDetectedAgain` | controller/channel_upstream_update.go:802-850 | an applied addition with a comma is pending again |
| `UpstreamModels.DetectApplyCommuteIff` | controller/channel_upstream_update.go:802-850 | re-detection after applying any selection returns the stored remaining lists exactly when no selected addition holds a comma |
| `UpstreamModels.ApplyingAllLeavesNothing` | controller/channel_upstream_update.go:802-850 | applying everything leaves nothing pending, stored or detected |
| `UpstreamModels.AutoApplyCommutesIff` | controller/channel_upstream_update.go:356-403 | after automatic application re-detection agrees with what is stored, under the same condition |
| `KeysetScan.SelectIs` | controller/channel_upstream_update.go:856-867 | a query returns the enabled rows above the last id in ascending order |
| `KeysetScan.SelectAfter` | controller/channel_upstream_update.go:856-867 | querying above the id of the k-th row returns exactly the rows behind it |
| `KeysetScan.VisitBatch` | controller/channel_upstream_update.go:570-636 | a batch is visited in order until the budget is used up |
| `KeysetScan.ScanBatch` | controller/channel_upstream_update.go:560-643 | one turn visits the next rows in order and goes on exactly after a full batch, all of it visited |
| `KeysetScan.Scan` | controller/channel_upstream_update.go:556-644 | the scan ends and visits every enabled channel exactly once in ascending id order, whatever the batch size, cut short only by cancellation or a failed query |
| `MultiKey.DisableRefines` | controller/channel.go:1595-1637 | disabling a key changes the status of that record only and keeps the row valid |
| `MultiKey.EnableRefines` | controller/channel.go:1638-1679 | enabling a key clears that record only and keeps the row valid |
| `MultiKey.EnableAllRefines` | controller/channel.go:1680-1703 | enabling all clears all records |
| `MultiKey.DisableAllRefines` | controller/channel.go:1704-1750 | disabling all marks the enabled records as disabled by hand and leaves the others |
| `MultiKey.SavedIs` | model/channel.go:526-573 | a save keeps the old text for an empty one, counts the keys (an empty array as lines) and keeps exactly the status entries below that number |
| `MultiKey.ReparsesIff` | model/channel.go:175-197 | when a joined key text reads back as the same keys, in terms of the keys |
| `MultiKey.DeletionKeeps` | controller/channel.go:1751-1898 | if the kept keys read back, every kept record survives whole at its new position |
| `MultiKey.DeleteRefinesIff` | controller/channel.go:1751-1830 | deleting a key removes exactly its record if and only if the remaining keys read back |
| `MultiKey.DeletingTakesEmptyNeighbour` | controller/channel.go:1751-1830 | of three keys with an empty one in the middle, deleting the first leaves one: the joined text loses its leading line break |
| `MultiKey.DeleteDisabledRefinesIff` | controller/channel.go:1831-1898 | deleting disabled keys removes exactly the automatically disabled records if and only if the remaining keys read back |
| `MultiKey.DeletingAllRevivesAll` | model/channel.go:526-573 | when all keys are automatically disabled none is deleted and all come back enabled |
| `MultiKey.AutoDisableRefines` | model/channel.go:641-691 | automatic disabling changes exactly the record of the first matching key |
| `MultiKey.AutoEnableIff` | model/channel.go:641-691 | automatic enabling keeps the row valid exactly when the key has no time and reason |
| `MultiKey.StaleReasonShows` | model/channel.go:641-691 | a time and reason left behind show up again when the key is next disabled by hand |
| `MultiKey.ActionRefinesIff` | controller/channel.go:1595-1898 | on a valid row each action is the same action on the list of records exactly when the keys it leaves read back, and then the row stays valid |
| `MultiKey.RunRefines` | controller/channel.go:1595-1898 | every run in which what deletions leave reads back is the same run on the list of records, and keeps the size the number of keys, the maps in range and no leftovers on enabled keys |
| `MultiKey.GoodKeysReparse` | model/channel.go:175-197 | visible one-line keys that open no array always read back |
| `MultiKey.GoodKeysReadBackAlong` | controller/channel.go:1751-1898 | with such keys every run reads back that never deletes all keys at once, which the records alone tell |
| `MultiKeyChannel.DropBeyond` | model/channel.go:526-573 | saving drops exactly the status entries beyond the number of keys |
| `MultiKeyChannel.DisableEnabled` | controller/channel.go:1704-1750 | the loop marks exactly the enabled positions and returns how many there are |
| `MultiKeyChannel.KeepOthers` | controller/channel.go:1751-1830 | the loop with its new index builds the remaining keys and the renumbered maps |
| `MultiKeyChannel.KeepNotAuto` | controller/channel.go:1831-1898 | the loop keeps exactly the keys not automatically disabled, with their data renumbered |
| `MultiKeyChannel.EditOthers` | controller/channel.go:1751-1830 | what is written for a key in range is the delete action of the value model |
| `MultiKeyChannel.EditNotAuto` | controller/channel.go:1831-1898 | what is written is the delete-disabled action of the value model, with the number of keys left out |
| `MultiKeyChannel.BuildLines` | controller/channel.go:1481-1545 | one line per key and the three counts |
| `MultiKeyChannel.FilterLines` | controller/channel.go:1545-1557 | the lines of the wanted status in order |
| `MultiKeyChannel.CountOfIs` | controller/channel.go:1481-1545 | each count is the number of lines with that status |
| `MultiKeyChannel.FilteredIs` | controller/channel.go:1545-1557 | the filter keeps exactly the lines of the status, as many as counted |
| `MultiKeyChannel.PreviewHides` | controller/channel.go:1481-1545 | a key of more than ten characters is shown with its first ten only |
| `MultiKeyChannel.CutPage` | controller/channel.go:1557-1577 | the lines of the clamped page |
| `MultiKeyChannel.ChannelObject.Update` | model/channel.go:526-573 | what a save stores: an empty key text keeps the old one, the size is recounted |
| `MultiKeyChannel.ChannelObject.Disable` | controller/channel.go:1595-1637 | the disable action on the stored row, refused without a valid index |
| `MultiKeyChannel.ChannelObject.Enable` | controller/channel.go:1638-1679 | the enable action on the stored row, refused without a valid index |
| `MultiKeyChannel.ChannelObject.EnableAll` | controller/channel.go:1680-1703 | the enable-all action on the stored row and the number reported |
| `MultiKeyChannel.ChannelObject.DisableAll` | controller/channel.go:1704-1750 | the disable-all action on the stored row and how many keys it disables, none when nothing is enabled |
| `MultiKeyChannel.ChannelObject.Delete` | controller/channel.go:1751-1830 | the delete action on the stored row, refused for a bad index or the last key |
| `MultiKeyChannel.ChannelObject.DeleteDisabled` | controller/channel.go:1831-1898 | the delete-disabled action on the stored row and how many it deleted |
| `MultiKeyChannel.ChannelObject.GetKeyStatus` | controller/channel.go:1481-1594 | the page shown, its number clamped to one and the last page, the totals and the counts |
| `MultiKeyChannel.PageInRange` | controller/channel.go:1557-1577 | a clamped page never reaches outside the list |
| `MultiKeyChannel.NoPageToSpare` | controller/channel.go:1557-1577 | there is one page of nothing and otherwise no empty page |
| `MultiKeyChannel.PagesCoverTheList` | controller/channel.go:1557-1577 | the pages one to the last put together are exactly the filtered list |
| `MultiKeyChannel.ExistingKeysIff` | controller/channel.go:970-1020 | append mode reads the existing keys exactly when the text is no array or valid JSON |
| `MultiKeyChannel.AppendKeys` | controller/channel.go:1021-1043 | existing keys stay at their positions and each new trimmed key not present is added exactly once, in the order of first occurrence |
| `MultiKeyChannel.NewOnesAre` | controller/channel.go:1021-1043 | the keys added are exactly the new trimmed non-empty ones not present, once, in order |
| `MultiKeyChannel.AddedIsDetermined` | controller/channel.go:1021-1043 | that fixes what is added and its order |
| `MultiKeyChannel.InputKeys` | controller/channel.go:1010-1019 | the new keys of an ordinary channel are the trimmed non-empty lines |
| `MultiKeyChannel.ChannelObject.Append` | controller/channel.go:970-1050 | the stored row after an update in append mode: the existing keys as that branch reads them with the new ones behind, joined and saved; a row without keys takes the text |
| `MultiKeyChannel.AppendedIs` | controller/channel.go:970-1050 | then a valid row has its old records and the added ones, enabled, exactly when all keys read back together; if the existing keys cannot be read the new ones replace them, exactly when they read back |
| `MultiKeyChannel.AppendRefinesIff` | controller/channel.go:1021-1043 | after the save the channel has its old records and the added ones, enabled, exactly when the joined keys read back |
| `RatioSync.StoredIsNews` | controller/ratio_sync.go:605-632 | a stored value is neither null nor the mark exactly when the channel supplies a value that differs from the local one, and then it is that value |
| `RatioSync.NewsOfNumbers` | controller/ratio_sync.go:605-632 | in the price fields numbers of either type differ exactly by epsilon or more; in the two other fields types matter |
| `RatioSync.PlaceholderIff` | controller/ratio_sync.go:558-591 | the prices distrusted are 37.5 with 1, up to epsilon |
| `RatioSync.Compare` | controller/ratio_sync.go:606-632 | one channel against the local value: what is stored, whether a value was given, whether it changes anything |
| `RatioSync.BuildItem` | controller/ratio_sync.go:593-658 | the item of a model and field and whether it is included |
| `RatioSync.CollectModels` | controller/ratio_sync.go:540-556 | exactly the models mentioned in any field by either side are collected |
| `RatioSync.CheckTrust` | controller/ratio_sync.go:558-591 | a channel's prices for a model are distrusted exactly for the placeholder pair 37.5 and 1 |
| `RatioSync.Build` | controller/ratio_sync.go:593-660 | the built table has exactly the included items, each with the values and confidences of the last channel of each name |
| `RatioSync.MarkChannels` | controller/ratio_sync.go:662-671 | exactly the channels that show a difference somewhere are marked |
| `RatioSync.MarkedIff` | controller/ratio_sync.go:662-671 | a channel is marked exactly when it differs for some model and field |
| `RatioSync.PruneItem` | controller/ratio_sync.go:675-693 | an item loses exactly the unmarked channels and stays exactly when something other than the mark is left |
| `RatioSync.Prune` | controller/ratio_sync.go:673-694 | the pruned table is the built one, item by item cut, without empty rows |
| `RatioSync.BuildDifferences` | controller/ratio_sync.go:536-696 | a value is shown for a model, field and channel exactly when that channel supplies it and it is not equal to the local one; which items stay, that they hold only channels that differ somewhere, their confidences, no empty rows |
| `RatioSync.NoHollowItems` | controller/ratio_sync.go:536-696 | with distinct names and no null or mark among the values every item left shows a difference |
| `RatioSync.NullLeavesHollowItem` | controller/ratio_sync.go:536-696 | a null for one model and a new price for another keeps an item in which nothing differs |
| `RatioSync.MarkLeavesHollowItem` | controller/ratio_sync.go:610-628 | so does a value spelled like the mark, next to a channel that differs elsewhere |
| `RatioSync.SharedNameLeavesHollowItem` | controller/ratio_sync.go:624-630 | so do two channels of one name of which the second says nothing |
| `ModelsDev.Build` | controller/ratio_sync.go:845-879 | a cost becomes a candidate exactly when its prices are usable and can be expressed as ratios of the input price, and it carries the prices given, an unusable cache price dropped |
| `ModelsDev.TieBreakerIdle` | controller/ratio_sync.go:881-894 | with names in ascending order a later candidate wins only for being priced or cheaper by at least epsilon |
| `ModelsDev.PickIsChosen` | controller/ratio_sync.go:919-944 | the candidate kept is an offer, priced if any is, less than epsilon above every priced one and below every earlier one; there is one exactly when someone makes a usable offer |
| `ModelsDev.PickIsIndependent` | controller/ratio_sync.go:914-918 | the choice does not depend on the order in which the map of providers is walked |
| `ModelsDev.SelectProvider` | controller/ratio_sync.go:925-943 | one provider's models, in any order, update exactly their own entries |
| `ModelsDev.Select` | controller/ratio_sync.go:914-944 | the selection over the whole feed, whatever order the maps are walked in |
| `ModelsDev.PickWalks` | controller/ratio_sync.go:881-894 | only the prices and their order matter |
| `ModelsDev.FeedHasPrices` | controller/ratio_sync.go:906-944 | every list of prices is what the sorted providers of some feed offer for a model |
| `ModelsDev.DearerIsKept` | controller/ratio_sync.go:881-894 | with a price less than epsilon above the lowest there is a feed in which a dearer offer is kept |
| `ModelsDev.KeepsCheapestIff` | controller/ratio_sync.go:896-905 | over all feeds that offer a model at given prices the cheapest is kept exactly when no other price lies less than epsilon above it |
| `OpusScanner.ReadHeader` | common/audio.go:209-232 | the header fields of the bytes at the position, or a short read |
| `OpusScanner.Duration` | common/audio.go:196-254 | the loop ends on every input and returns the best granule position of the pages visited, over 48000 |
| `OpusScanner.BestIsMaximum` | common/audio.go:228-232 | that is the maximum of zero and the granule positions |
| `OpusScanner.HitsAreSound` | common/audio.go:208-247 | on any bytes the visited positions are page headers, and no page is entered before the one in front has ended |
| `OpusScanner.NoneMissed` | common/audio.go:208-247 | on any bytes a page header that is not visited lies inside a visited page |
| `OpusScanner.GranuleReads` | common/audio.go:228-229 | a 64-bit granule position, negative ones included, survives its little-endian bytes |
| `OpusScanner.CaptureIsOggS` | common/audio.go:219-225 | the capture pattern is the text "OggS" |
| `OpusScanner.SumAddsUp` | common/audio.go:234-247 | the payload length is the sum of the segment table |
| `OpusScanner.ScanPage` | common/audio.go:227-247 | a well-formed page is visited with its granule position and left behind whole |
| `OpusScanner.NoOverlap` | common/audio.go:219-225 | the capture pattern cannot begin in junk without it and end in the page that follows |
| `OpusScanner.ScanJunk` | common/audio.go:219-225 | junk without the pattern is stepped over to exactly the next page |
| `OpusScanner.VisitsExactlyThePages` | common/audio.go:196-254 | on any stream of pages with junk between and behind them exactly the page starts are visited, whatever the payloads contain |
| `OpusScanner.StreamLength` | common/audio.go:249-253 | the length found in such a stream is the maximum of zero and its granule positions |
| `BodyStorage.ContentStays` | common/body_storage.go:13-23 | through any calls the content stays, and the storage is closed exactly when it was closed |
| `BodyStorage.ReadingGivesTheBody` | common/body_storage.go:47-54 | however the buffers are cut, reading on gives the body and nothing else |
| `BodyStorage.SeekThenRead` | common/body_storage.go:47-63 | after a seek, from whichever origin, the next read yields the bytes from there; a seek before the start changes nothing |
| `BodyStorage.ClosedRefuses` | common/body_storage.go:47-81 | a closed storage refuses everything but its size and another close |
| `BodyStorage.OnDiskStaysWithin` | common/body_storage.go:241-303 | of the bodies that reach the threshold exactly those go to disk that leave the usage within the configured megabytes |
| `BodyStorage.MemoryStorage.ReadInto` | common/body_storage.go:47-54 | a read of the memory storage is a read of the cursor, also with an empty buffer |
| `BodyStorage.MemoryStorage.SeekTo` | common/body_storage.go:56-63 | a seek of the memory storage is a seek of the cursor, with its errors |
| `BodyStorage.MemoryStorage.GetBytes` | common/body_storage.go:74-81 | the whole content, without moving the position |
| `BodyStorage.MemoryStorage.CloseIt` | common/body_storage.go:65-72 | the first close uncounts the storage, later ones do nothing |
| `BodyStorage.DiskStorage.ReadInto` | common/body_storage.go:169-176 | a read of the file is a read of the cursor, except that with an empty buffer it never says it is at the end |
| `BodyStorage.DiskStorage.SeekTo` | common/body_storage.go:178-185 | a seek of the file is a seek of the cursor, with its errors |
| `BodyStorage.DiskStorage.GetBytes` | common/body_storage.go:198-230 | seeking to the start, reading all and seeking back gives the whole content and leaves the position |
| `BodyStorage.DiskStorage.CloseIt` | common/body_storage.go:187-196 | the first close uncounts the storage, later ones do nothing |
| `BodyStorage.AnswersAgreeIff` | common/body_storage.go:47-234 | memory and disk answer a sequence of calls alike exactly when none is a read without room at the end |
| `BodyStorage.Compare` | common/body_storage.go:47-234 | the same calls on both storages leave both in the same state, and get the same replies under exactly that condition |
| `BodyStorage.Stats.IncrementDiskFiles` | common/disk_cache_config.go:109-112 | one more file and its size |
| `BodyStorage.Stats.DecrementDiskFiles` | common/disk_cache_config.go:115-122 | one file less and its size, neither below zero |
| `BodyStorage.Stats.IncrementMemoryBuffers` | common/disk_cache_config.go:125-128 | one more buffer and its size |
| `BodyStorage.Stats.DecrementMemoryBuffers` | common/disk_cache_config.go:131-134 | one buffer less and its size |
| `BodyStorage.CreateBodyStorage` | common/body_storage.go:241-260 | the body at position zero, on disk exactly when it belongs there and the disk works, counted once |
| `BodyStorage.CreateFromReader` | common/body_storage.go:263-303 | the accepted body or which error, on disk exactly when its declared or its actual length belongs there and the disk works, counted exactly when stored |
| `BodyStorage.WholeOrRefusedIff` | common/body_storage.go:263-303 | a body is kept whole or refused, never cut, exactly when the limit is not the largest 64-bit number or there is no body |
| `CacheCounters.RunKeepsInv` | common/disk_cache_config.go:109-134 | after every interleaving of the atomic steps of creates and repeated closes the counters are what the storages call for |
| `CacheCounters.ClampNeverFires` | common/disk_cache_config.go:115-122 | lowering the disk counters never meets the clamp at zero |
| `CacheCounters.CountersAreExact` | common/body_storage.go:37-72 | with nothing half counted the four counters are the number and total size of the open disk and memory storages |
| `CacheCounters.CountedThenUncounted` | common/disk_cache_config.go:109-134 | counting a storage and uncounting it, each in two atomic steps, gives back the counters |
| `CacheCounters.UsageStaysUnderLimit` | common/disk_cache_config.go:170-177 | disk storages created one at a time, writing no more than was checked, never exceed the limit, whatever is closed meanwhile |
| `CacheCounters.ExcessPastTheLimit` | common/gin.go:60-69 | one create that writes a byte more than was checked goes past the limit |
| `CacheCounters.TogetherPastTheLimit` | common/disk_cache_config.go:170-177 | two creates that check before either is counted go past the limit |
| `CacheCounters.LimitHoldsIff` | common/disk_cache_config.go:170-177 | over all runs with so many creates pending at once and so much written in excess the limit holds exactly for one at a time and no excess, or no room at all |
| `StepUp.Session.PasskeyVerifyFinish` | controller/passkey.go:495-504 | a recorded passkey check sets the ready marker and ends any verification |
| `StepUp.Session.ConsumePasskeyReady` | controller/secure_verification.go:156-179 | the marker is used up by any saved attempt, and lets it through only when it is a time less than 60 seconds ago |
| `StepUp.Session.SetSecureVerification` | controller/secure_verification.go:144-154 | a saved verification replaces all markers |
| `StepUp.Session.UniversalVerify` | controller/secure_verification.go:85-141 | success and the stored markers, for either method and each save failing or not |
| `StepUp.Session.RequireMethod` | controller/passkey.go:569-586 | the guard's answer, and that an expired verification is cleared |
| `StepUp.MarkersMean` | controller/passkey.go:569-586 | after any history the mark is the verification in force, and one in force has no mark only when it has expired |
| `StepUp.PassesIff` | controller/passkey.go:569-586 | a guard passes exactly when the latest successful verification is of the wanted method, less than 300 seconds old, with no passkey check or withdrawal since |
| `StepUp.PasskeyVerifiedIff` | controller/secure_verification.go:104-134 | a passkey verification succeeds exactly when an unspent passkey check lies less than 60 seconds back and both saves go through |
| `StepUp.TwoFactorVerifiedIff` | controller/secure_verification.go:95-134 | a two-factor verification succeeds exactly when it is set up, the code is right and the save goes through |
| `StepUp.BacksOnce` | controller/secure_verification.go:156-179 | no passkey check backs two verifications |
| `StepUp.PasskeyGrantHistory` | controller/passkey.go:569-586 | behind every pass of a passkey guard stand a verification and, before it, a passkey check of its own, with the times in order and within the limits |
| `StepUp.TwoFactorGrantHistory` | controller/passkey.go:569-586 | behind every pass of a two-factor guard stands a verification with the right code less than 300 seconds before, with no passkey check or withdrawal since |
| `StepUp.GrantsWereAllowed` | controller/secure_verification.go:85-141 | behind every pass of any guard stands a verification in time that was allowed: a wrong code or a method not set up gets nobody through |
| `StepUp.BackedInTime` | controller/secure_verification.go:156-179 | the passkey check behind a verification is less than 60 seconds before its marker was read |
| `StepUp.SlowestIsBacked` | controller/secure_verification.go:144-179 | read at the last moment and recorded late, a verification passes a guard a minute or more after its passkey check |
| `StepUp.RecordedWithinIff` | controller/secure_verification.go:144-179 | over all histories verifications are recorded within 60 seconds and a slack of their passkey check exactly when recording lags by at most the slack |
| `StepUp.RegistrationRestsOnVerification` | controller/passkey.go:531-541 | with two factors set up a passkey is added only on a two-factor verification in force |
| `StepUp.DeletionRestsOnVerification` | controller/passkey.go:543-567 | a passkey is deleted only on a verification in force, by two factors if the user has them |

## Left out

- HTTP handlers, JSON binding, signature checks, payment SDKs and WebAuthn: their outcomes are inputs.
- Other processes: the order lock is process-local, and the results about it are for one process.
- The recharge functions of the other payment providers, and subscription orders.
- Fulfilment.CallbackSettles: for orders that are not worth a negative amount, whose Epay credit is rejected; `CallbackOutcome` covers those as well.
- Fulfilment.QuotaAtQuiescence: the fractional credit of a Stripe payment is truncated here; in the code the database stores it in an integer column in its own way.
- The refresh of the user cache and the batched quota updates: a quota write is one step on the balance.
- service/task_polling.go: the other video poller with its own compare-and-set is not part of this model.
- VideoLedger.BooksBalance: assumes amounts and prices that are not negative, because a negative refund is rejected, and rows that still hold the amount loaded; `ConservesIff` and `BalancesWithinIff` have no such assumptions.
- VideoLedger.TimesAreFirst: for saved polls of the current row at times other than zero, which stands for not set; a stale save can bring back an earlier row.
- VideoLedger.TaskObject.Update: the writes of one poll happen together. Balance changes add up and a save replaces the whole row, so of overlapping polls only the order of the saves matters.
- Midjourney.RefundedAtMostOnceIff: a compare-and-set that finds the status and changes no column counts as won. MySQL, as connected (model/main.go:160-165), reports only rows that change, so two writes of the same row, as in the witnesses, win once there; the half that promises at most one refund is not touched by this.
- Midjourney.TaskObject.Absorb: composite fields are compared in serialised form, and errors in serialising them are not modelled; each response lists a task once.
- MultiKey.RunRefines: automatic re-enabling is not among the actions of a run, because it can leave a time and a reason behind; `AutoEnableIff` says when.
- UpstreamModels.DetectApplyCommuteIff: assumes that no selected name starts with "regex:", since such a name would be stored as a pattern.
- The rebuild of the ability table after a model list was saved, and its errors.
- KeysetScan.Scan: the table has distinct positive ids and does not change during the scan.
- RatioSync.BuildDifferences: values are numbers, strings, booleans and null; comparing lists or objects panics in the code.
- The conversion of the selected prices to rounded ratios, and the OpenRouter import.
- Floating-point rounding and decimal precision: prices are reals.
- OpusScanner.Duration: a read fills its buffer when the bytes are there; readers that return fewer bytes are not modelled. The other audio formats are not part of this model.
- BodyStorage.Compare: seeks use the three standard origins and stay within what a file system can address, and no I/O error occurs.
- BodyStorage.MemoryStorage.GetBytes: the slice that the code returns shares memory with the storage; here it is a value.
- 64-bit wrap-around of the counters and of sizes in megabytes shifted to bytes.
- common/disk_cache.go:106-138 and common/disk_cache_config.go:147-167: age cleanup, synchronisation and reset change the counters from outside and are not part of the runs.
- StepUp.PassesIff: a session is one value on the server with requests one after the other; cookies that are replayed and concurrent requests of one session are not modelled.
- getMinTopup, price display, routing and the retry logic are not part of this model.
