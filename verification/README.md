# Verified model of the gateway's protocols

This project models the parts of an LLM gateway in which money, locks, counters and
stored lists have to stay right over many steps, and proves what they promise. Each
module follows one component:

- `OrderLocks`, `TopUps`: the reference-counted order locks, and crediting a paid order once. Goroutines are program counters, one atomic action is one step, and the theorems hold for every interleaving.
- `MidjourneyRefunds`, `VideoBilling`: refunds by pollers that work on stale copies, with and without a compare-and-set.
- `BillingSessions`, `RelayRetry`: pre-consume, reserve, settle and refund as a three-state bill, and the retry loops that end in one of them.
- `RateLimiter`: the sliding-window limiter with its background cleaner against a limiter that keeps the full history.
- `UpstreamModels`, `PricingDiff`, `ModelsDev`: keeping model lists and prices in step with upstreams.
- `MultiKeys`: a channel's list of keys with index-keyed side tables that are renumbered on deletion.
- `BodyStorage`: one abstract reader behind a memory and a disk storage, and the usage ledger over all requests.
- `OpusScanner`: the resynchronising scan over Ogg pages (section 6 of RFC 3533; granule positions as in section 4 of RFC 7845).
- `VerificationCodes`, `RedisHash`: lazy expiry against the full history, and the round trip of a struct through a Redis hash.
- `Text`, `Lists`, `Numbers`, `Options`: helpers of Go's `strings` package, removing repetitions, Go's integers and float conversion, and the option type.

Objects that the program updates in place are classes whose methods are proved against
functions on values; loops keep their loops. Lemmas then say what those functions mean.
Database calls are parameters (`Faults`, `ok`) wherever the program looks at their
errors. `IncreaseUserQuota` and `DecreaseUserQuota` are all-or-nothing additions that
refuse negative amounts, and `UpdateWithStatus` is an atomic compare-and-set.

Where a promise does not hold, the model keeps the program's behaviour, shows an input
on which it fails and states when it does hold:

- A Midjourney row with status FAILURE below 100% progress, an item that appears twice in one answer, a fail reason below 100% without the status FAILURE, or that status below 100% without a reason is refunded twice (`AtMostOnceIffNotHalfFailed`, `RepeatedItemRefundsTwice`, `ReasonWithoutFailureRefundsTwice`, `FailureWithoutReasonRefundsTwice`). Upstreams that send only items of some kind are safe if and only if each such item counts as failed exactly when its status is FAILURE (`SafeIffConsistent`).
- An item that changes only the buttons or properties of a Midjourney row is skipped (`NeedsUpdateIff`, `NewButtonsAreSkipped`).
- A live video task with a positive quota is refunded at most once, whatever is reported and while no database call fails, if and only if no report works on a copy that was loaded before an earlier report or after two of them (`AtMostOnceIffNoClash`, `TwoEntriesAreStaleOrRevived`).
- An order that was saved as successful loses its credit if the quota update then fails (`SucceededIffCreditedOrLost`).
- `Settle` does not look at `refunded` (`SettleChargesActualIff`). The ledgers stay at the bill after every call if and only if no call meets a failure that is not recovered from (`RunMatchesBill`, with `TokenFaultKeepsFundingCharge` and `FailedUndo`).
- The limiter matches its window exactly when no window with a non-negative maximum is longer than the expiration plus one second (`MatchesIffWindowsFit`). With a negative maximum the first request of a key panics.
- Names with a comma or starting with "regex:" can break the agreement between applying and detecting again (`DetectAfterApplyIff`, with `DetectAfterApplyIffCommaFree`, `RegexNameWidensIgnore`, `UnmatchedPatternStaysPending` and `AddedPatternExposes`), and an automatic synchronisation leaves a name with a comma pending (`AutoSyncReachesFixpoint`).
- A null upstream price, or one that reads "same", can be dropped (`KeptIff`).
- Deleting all automatically disabled keys, when that is all keys, enables them instead; an empty key at an end is lost and shifts the marks (`DeleteDisabledKeys`, `EmptyKeyShiftsMarks`). Appending to keys that open with a bracket and are no JSON array loses them (`ExistingIff`).
- The disk limit holds for every schedule if and only if all requests that want the disk fit on it together (`LimitHoldsIffDemandFits`, with `OverlapBreaksLimit` and `UnderdeclaredBreaksLimit`).
- The promise of RetryTimes + 1 attempts holds if and only if there are no automatic groups, RetryTimes is not positive, at most one group is left, or a task is pinned to a channel (`RetryTimesBoundsIff`). A negative RetryTimes ends without attempt and without error, and a reservation stays charged (`EndsWellIff`, `Relay`).
- A pointer to an empty string, and a set soft-delete time, do not survive the Redis hash, and a struct of soft-delete fields alone counts as missing (`RoundTripIff`).

`dafny verify dfyconfig.toml` checks everything.

## Model

| member | source | states |
|---|---|---|
| `OrderLocks.StepKeepsInv` | controller/topup.go:294-324 | every atomic action of LockOrder and UnlockOrder, by any goroutine, keeps the global invariant that ties table entries, reference counts, mutex bits and program counters together |
| `OrderLocks.RunKeepsInv` | controller/topup.go:294-324 | every interleaving keeps it |
| `OrderLocks.MutualExclusion` | controller/topup.go:294-324 | in every interleaving at most one goroutine is inside the section of a trade number |
| `OrderLocks.UnlockFindsOwnMutex` | controller/topup.go:310-316 | the unguarded lookup in UnlockOrder finds an entry, it is the mutex this goroutine locked, and it is locked |
| `OrderLocks.EntriesCountUsers` | controller/topup.go:298-304 | outside the creation lock an entry exists exactly when somebody uses it, and its count is the number of users |
| `OrderLocks.QuiescentTableIsEmpty` | controller/topup.go:318-323 | when nobody is between lock and unlock the table is empty, so no entry leaks |
| `OrderLocks.NoDeadlock` | controller/topup.go:294-324 | whenever somebody is not idle, somebody not idle can take a step |
| `OrderLocks.BlockedIff` | controller/topup.go:294-324 | in every interleaving a goroutine is blocked if and only if somebody holds the creation lock it waits for or is inside the section of its order |
| `OrderLocks.AloneGetsThrough` | controller/topup.go:294-324 | an undisturbed goroutine gets into the section of its order and out again, and leaves no entry |
| `TopUps.PlayKeeps` | controller/topup.go:389-427 | every interleaving of locking, loading, checking, saving and crediting keeps the ledger invariant |
| `TopUps.CreditedAtMostOnce` | controller/topup.go:389-427 | over every run, every user's balance is the initial one plus the credits, no order is credited twice, and a credit is for an order that was pending, for its user, and the amount of the order, for Stripe its money, times the quota per unit without the fraction |
| `TopUps.NotifiedPaysIff` | controller/topup.go:389-427 | an undisturbed notification marks exactly the pending orders of its own provider, and credits their amount unless it is negative |
| `TopUps.AdminPaysIff` | model/topup.go:322-392 | the administrator's completion marks and credits exactly the pending orders worth at least one, and otherwise changes nothing |
| `TopUps.SuccessIsFinal` | controller/topup.go:401-407 | no continuation of a run moves an order out of success |
| `TopUps.SucceededIffCreditedOrLost` | controller/topup.go:406-421 | an order that started pending is successful exactly when it was credited or its credit was lost to a failing update, never both |
| `TopUps.LockIsNeeded` | controller/topup.go:389-427 | without mutual exclusion two notifications credit the same order twice |
| `TopUps.WorkKeepsLedger` | model/topup.go:322-392 | each step of a notification or of the administrator's completion keeps the ledger |
| `MidjourneyRefunds.NeedsUpdateIff` | controller/midjourney.go:202-254 | for an unfinished task the comparison asks for an update if and only if merging the item changes a column other than properties and buttons; for any copy, that or a different progress |
| `MidjourneyRefunds.NewButtonsAreSkipped` | controller/midjourney.go:144-151 | an item with new buttons and nothing else new would change the row and is skipped |
| `MidjourneyRefunds.WinnerWrites` | controller/midjourney.go:121-175 | column by column what the poller that wins writes, and when it owes a refund; a task not done after an hour fails |
| `MidjourneyRefunds.RefundPaysIff` | controller/midjourney.go:176-183 | a refund is paid if and only if the call succeeds and the quota is not negative |
| `MidjourneyRefunds.BulkFailMarks` | controller/midjourney.go:69-73 | the bulk failure marks the row whatever its status is and refunds nothing |
| `MidjourneyRefunds.RefundedAtMostOnce` | controller/midjourney.go:121-197 | with any number of pollers and stale copies, over every run on items that count as failed exactly when they report FAILURE, a task is refunded at most once and the balance grows by exactly that |
| `MidjourneyRefunds.FailedIffRefunded` | controller/midjourney.go:168-183 | with no failing payments and nothing in flight, a row is refunded exactly when it ended in FAILURE |
| `MidjourneyRefunds.AtMostOnceIffNotHalfFailed` | controller/midjourney.go:168-183 | all runs on such items refund at most once if and only if the row does not start as FAILURE below full progress |
| `MidjourneyRefunds.SafeIffConsistent` | controller/midjourney.go:143-183 | for any kind of items, all runs from all other rows refund at most once if and only if each item counts as failed exactly when it reports FAILURE |
| `MidjourneyRefunds.SameStatusRefundsTwice` | model/midjourney.go:156-166 | an item that fails a row, by itself or for its age, and keeps its status passes the compare-and-set twice and is refunded twice |
| `MidjourneyRefunds.RepeatedItemRefundsTwice` | controller/midjourney.go:121-122 | an answer that lists a task twice is refunded twice |
| `MidjourneyRefunds.ReasonWithoutFailureRefundsTwice` | controller/midjourney.go:168-175 | a fail reason that leaves the status unchanged is refunded twice |
| `MidjourneyRefunds.FailureWithoutReasonRefundsTwice` | controller/midjourney.go:168-175 | FAILURE without a reason below full progress leaves a row that the next failure refunds twice |
| `VideoBilling.VideoTasks.UpdateSingleTask` | controller/task_video.go:132-284 | one poll ends in the account that the status switch, the re-billing and the refund describe, for every combination of failing database calls |
| `VideoBilling.VideoTasks.Rebill` | controller/task_video.go:160-238 | the balance loses exactly what the recorded quota gains, also when the charge or the return fails |
| `VideoBilling.PriceIff` | controller/task_video.go:163-193 | a success is billed by tokens exactly when there are tokens, a positive model ratio and a group ratio, and then at their product without the fraction |
| `VideoBilling.PollIs` | controller/task_video.go:132-281 | status, progress, quota and balance after a poll, for every reported status and whatever fails |
| `VideoBilling.PollTimes` | controller/task_video.go:127-158 | the first start and the first end that are reported are kept; the fail reason holds the video's address or the reason |
| `VideoBilling.RebillConservesIff` | controller/task_video.go:192-262 | a success keeps balance plus recorded quota if and only if the record is saved or nothing was moved |
| `VideoBilling.SuccessIsStable` | controller/task_video.go:151-243 | polling the same success again changes nothing, whatever fails then |
| `VideoBilling.PollConservesIff` | controller/task_video.go:132-284 | a poll keeps balance plus what is paid if and only if a condition on the row, the answer and the faults holds |
| `VideoBilling.RunConserves` | controller/task_video.go:132-284 | over every run on current copies with final failures, recorded updates and no negative quota, a failed task has cost nothing and a successful one its recorded quota, also when charges of a re-billing fail |
| `VideoBilling.RefundsAreEntries` | controller/task_video.go:132-281 | with any copies, the quota is returned exactly once for every failure reported on a copy that was loaded while the task was live |
| `VideoBilling.AtMostOnceIffNoClash` | controller/task_video.go:132-281 | over everything that can be reported on a schedule of loads and reports, without failing database calls, a live task with a quota is refunded at most once if and only if no report works on a copy that was loaded before an earlier report or after two of them |
| `VideoBilling.TwoEntriesAreStaleOrRevived` | controller/task_video.go:133-136 | two such reports mean that the second copy is older than the first report or the task was revived in between |
| `VideoBilling.UnfinishedLoadsKeepFailures` | model/task.go:335-343 | with current copies of unfinished rows only, no failure is ever revived |
| `VideoBilling.RefundedAtMostOnce` | controller/task_video.go:246-281 | on current copies and with final failures every run refunds at most once and then ends failed, whatever database calls fail |
| `VideoBilling.StaleCopyRefundsTwice` | controller/task_video.go:266-281 | two reports on copies of the same row return the quota twice |
| `VideoBilling.RevivedTaskRefundsTwice` | controller/task_video.go:255-259 | a task reported failed, live and failed again is refunded twice |
| `BillingSessions.BillingSession.PreConsume` | service/billing_session.go:186-230 | token then funding source are charged; a failing source undoes the token |
| `BillingSessions.BillingSession.Reserve` | service/billing_session.go:152-180 | raises the reservation on both ledgers or, when a charge fails and can be undone, changes nothing and reports the error |
| `BillingSessions.BillingSession.Settle` | service/billing_session.go:41-79 | charges the difference to the actual amount once and reports which failures; a committed funding source never stays unsettled |
| `BillingSessions.BillingSession.Refund` | service/billing_session.go:82-123 | returns what the funding source and the token were charged, once |
| `BillingSessions.OpeningIsConsistent` | service/billing_session.go:186-230 | an opened session has charged both ledgers alike, a failed one neither unless undoing fails too; a subscription is never trusted |
| `BillingSessions.OpeningCharges` | service/billing_session.go:186-320 | an opening charges the quota on both ledgers, at least 1 for a subscription, nothing for a trusted wallet and no token for a playground; when a session is trusted and when an opening fails are if-and-only-ifs on the request |
| `BillingSessions.CallMatchesBill` | service/billing_session.go:41-180 | a call moves both ledgers as it moves the three-state bill if and only if the session recovers from the failures that the call meets |
| `BillingSessions.RunMatchesBill` | service/billing_session.go:41-180 | over any sequence of calls, both ledgers have been charged exactly what the bill says after every call if and only if all of them meet only such failures |
| `BillingSessions.SettledIsFinal` | service/billing_session.go:44-46 | no call changes a settled session |
| `BillingSessions.SettleChargesActualIff` | service/billing_session.go:41-79 | settling charges the actual amount if and only if nothing has been given back |
| `BillingSessions.TokenFaultKeepsFundingCharge` | service/billing_session.go:60-78 | a settlement whose token step fails keeps the funding charge through every later call |
| `BillingSessions.FailedUndo` | service/billing_session.go:256-269 | after a reservation that could not be undone, a refund returns everything to a wallet and not to a subscription |
| `RelayRetry.RetryParam.SelectChannel` | service/channel_select.go:83-161 | the loop over groups picks what the recursive selection picks and leaves its state |
| `RelayRetry.SelectPicksFirst` | service/channel_select.go:83-161 | the first automatic group with a channel is picked, at the counter's priority in the group it counts in and at the highest in later ones |
| `RelayRetry.RunAttempts` | controller/relay.go:191-238 | for every RetryTimes the loop terminates, with the attempts, the error and the payments of the recursive definition |
| `RelayRetry.AttemptsBounded` | controller/relay.go:191-238 | at most RetryTimes + 1 attempts for a fixed group, and that many per remaining group with automatic groups |
| `RelayRetry.RetryTimesBoundsIff` | service/channel_select.go:106-155 | no environment exceeds RetryTimes + 1 attempts if and only if there are no automatic groups, RetryTimes is not positive, at most one group is left, or a task is pinned to a channel |
| `RelayRetry.SecondGroupOnly` | service/channel_select.go:119-129 | with channels in the second group only, a whole run makes more attempts, with or without handover |
| `RelayRetry.BoundIsReached` | service/channel_select.go:137-148 | with handover, channels everywhere and channel errors only, a whole run attains the bound per group |
| `RelayRetry.EndsWellIff` | controller/relay.go:191-238 | the attempts end as their turns do, every one but the last with an error worth another attempt, and the loop ends without error exactly when its last attempt succeeded, otherwise with that error unless a channel or the body was missing: all this if and only if RetryTimes is not negative |
| `RelayRetry.RetriesIff` | controller/relay.go:325-355 | which errors are retried, by status code, configured ranges and flags, for requests and for tasks |
| `RelayRetry.NextTurnIff` | controller/relay.go:191-238 | while retries are left and the next turn finds a channel and the body, it happens if and only if this one ended in such an error |
| `RelayRetry.AttemptIff` | controller/relay.go:191-238 | with a fixed group whose channels are there, turn k is attempted if and only if k is within RetryTimes and all turns before it ended in such errors |
| `RelayRetry.DecideRetry` | controller/relay.go:325-355 | the checks in the source's order, with the early-exit scan, decide that |
| `RelayRetry.MergeRanges` | setting/operation_setting/status_code_ranges.go:147-166 | sorting and merging keeps exactly the codes and leaves sorted ranges without overlap, which the scan relies on |
| `RelayRetry.AttemptsAscend` | service/channel_select.go:104-155 | selected attempts strictly ascend in group and priority, so none is repeated and no group is revisited |
| `RelayRetry.MatchStatusCodeRanges` | setting/operation_setting/status_code_ranges.go:102-116 | the early-exit scan over sorted ranges decides membership in any of them |
| `RelayRetry.Relay` | controller/relay.go:161-238 | when no attempt answers, everything charged before the loop is given back; an answered request keeps its session open for settlement, with its amount charged unless it is trusted; with a negative RetryTimes the charge stays |
| `RelayRetry.RelayTask` | controller/relay.go:502-607 | a submitted task costs the quota of its last submission once on both ledgers and every other end nothing; at most one session is opened and it is settled or given back, never both |
| `RelayRetry.OpenedAtMostOnce` | relay/relay_task.go:216-222 | whatever attempts reach the payment, at most one opens a session, which stays open through the loop, and nothing else is charged |
| `RateLimiter.InMemoryRateLimiter.Request` | common/rate-limit.go:45-70 | the answer and the new queues are those of the queue function; a negative maximum panics on the first request of a key and changes nothing |
| `RateLimiter.InMemoryRateLimiter.ClearExpiredItems` | common/rate-limit.go:28-42 | exactly the queues whose last grant is older than the expiration are dropped |
| `RateLimiter.QueueDecides` | common/rate-limit.go:45-70 | the bounded queue and the full history agree on whether the window is full |
| `RateLimiter.MatchesFullHistory` | common/rate-limit.go:28-70 | over every run of requests and sweeps the answers are those of a limiter that keeps all grants |
| `RateLimiter.MatchesIffWindowsFit` | common/rate-limit.go:28-70 | all runs match, panics included, if and only if every window whose maximum is not negative is at most the expiration plus one |
| `RateLimiter.BurstThenSweep` | common/rate-limit.go:28-42 | for a longer window a burst followed by a sweep gives a different answer |
| `RateLimiter.QueuesStayTidy` | common/rate-limit.go:45-70 | queues stay sorted and within the maximum |
| `UpstreamModels.NormalizeKeeps` | controller/channel_upstream_update.go:97-102 | normalizing keeps exactly the non-empty trimmed names |
| `UpstreamModels.NormalizeIsNormal` | controller/channel_upstream_update.go:97-102 | what it keeps is trimmed and without repetitions |
| `UpstreamModels.Merge` | controller/channel_upstream_update.go:104-118 | the loop over a seen-set returns the base followed by the new names in order |
| `UpstreamModels.PendingIff` | controller/channel_upstream_update.go:176-235 | name by name which additions and removals are pending, in terms of the channel's texts and the upstream list |
| `UpstreamModels.ApplyIff` | controller/channel_upstream_update.go:780-828 | name by name what a selection adds, removes, ignores and leaves pending, for every channel and selection |
| `UpstreamModels.ServedAfterApply` | controller/channel_upstream_update.go:142-147 | the models read afterwards are those before without the removed ones, and the pieces of the added ones |
| `UpstreamModels.ChannelRecord.Check` | controller/channel_upstream_update.go:360-407 | a check that is due stores the pending changes or applies them automatically; skipped, failed to fetch or failed to save, it changes no list |
| `UpstreamModels.ChannelRecord.ApplyUpdates` | controller/channel_upstream_update.go:780-828 | applying a selection stores models, ignore list and pending lists as the value-level operation does and reports it, or stores nothing when saving fails |
| `UpstreamModels.StoredNames` | model/channel.go:257-262 | names are read back from the stored text as their trimmed pieces between commas, and comma-free normal names as they were |
| `UpstreamModels.DetectAfterApplyIff` | controller/channel_upstream_update.go:780-828 | for every selection, detecting again returns, as sequences, the remaining lists that applying reported, if and only if added names with a comma are still ignored, ignored names are read back or still hit, no remaining name is read back or hit by a newly ignored pattern, and no piece of an added name is unknown upstream |
| `UpstreamModels.DetectAfterApplyIffCommaFree` | controller/channel_upstream_update.go:780-828 | for selections without patterns this holds if and only if no added name has a comma |
| `UpstreamModels.ApplyAllReachesFixpointIff` | controller/channel_upstream_update.go:780-828 | applying everything leaves nothing to detect if and only if the same holds for the selection of everything |
| `UpstreamModels.ApplyAllReachesFixpoint` | controller/channel_upstream_update.go:780-828 | for plain names, if and only if none of them has a comma |
| `UpstreamModels.RegexNameWidensIgnore` | controller/channel_upstream_update.go:176-235 | ignoring a name that reads as a pattern hides other names that were reported as remaining |
| `UpstreamModels.UnmatchedPatternStaysPending` | controller/channel_upstream_update.go:214-220 | ignoring a pattern that does not match its own name leaves it pending |
| `UpstreamModels.AddedPatternExposes` | controller/channel_upstream_update.go:808-811 | adding a name that is a pattern of the ignore list exposes names that were not reported |
| `UpstreamModels.AutoSyncReachesFixpoint` | controller/channel_upstream_update.go:384-396 | an automatic synchronisation appends the pending names and reports how many; it leaves no addition pending, and the removals it recorded, if and only if none of them has a comma; without automatic adding what is pending is recorded |
| `PricingDiff.BuildDifferences` | controller/ratio_sync.go:536-696 | the passes that fill and prune the maps compute the table defined field by field |
| `PricingDiff.KeptIff` | controller/ratio_sync.go:593-696 | for all inputs an entry is kept if and only if some channel quotes a differing value and a surviving channel shows something other than equality |
| `PricingDiff.QuotesIff` | controller/ratio_sync.go:48-62 | numbers differ from a billionth on, anything else unless it is equal |
| `PricingDiff.TrustedIff` | controller/ratio_sync.go:561-596 | only a model ratio of 37.5 with a completion ratio of 1 is not trusted |
| `PricingDiff.KeptIffQuoted` | controller/ratio_sync.go:593-696 | with values that can be shown, an entry is kept if and only if some channel quotes a differing value |
| `PricingDiff.SurvivorIff` | controller/ratio_sync.go:656-674 | a channel survives if and only if it quotes a real difference somewhere |
| `PricingDiff.EntriesListTheQuoters` | controller/ratio_sync.go:656-688 | every entry lists exactly the surviving channels, with the value each quotes, "same" or nothing, and whether it is trusted |
| `PricingDiff.NothingEmpty` | controller/ratio_sync.go:676-693 | no inner map of the result is empty |
| `PricingDiff.NullQuoteIsDropped` | controller/ratio_sync.go:659-664 | a null price differs from the local one and its entry is dropped |
| `PricingDiff.SameTextIsDropped` | controller/ratio_sync.go:659-664 | a price that reads "same" is dropped |
| `ModelsDev.Select` | controller/ratio_sync.go:915-944 | whatever order maps are visited in, the selection is that of the ascending provider order; each pick is an offer, non-zero whenever some offer is, and within the tolerance of every non-zero offer |
| `ModelsDev.OfferIff` | controller/ratio_sync.go:845-879 | which entries are offers, and with which input, output and cache price |
| `ModelsDev.PickIsBest` | controller/ratio_sync.go:881-893 | the fold over a non-transitive comparison keeps that property for every prefix of providers |
| `ModelsDev.OrderIsUnique` | controller/ratio_sync.go:915-925 | a catalogue has one ascending order of providers |
| `ModelsDev.SortedKeys` | controller/ratio_sync.go:915-925 | the keys in ascending order, all of them and no others |
| `ModelsDev.DescendingOrderDrifts` | controller/ratio_sync.go:881-893 | in another order the same fold drifts beyond the tolerance |
| `MultiKeys.Channel.Update` | model/channel.go:507-553 | the size is recomputed, statuses beyond it go, an empty key string keeps the stored one, and no listed entry changes |
| `MultiKeys.Channel.DisableKey` | controller/channel.go:1396-1437 | one entry becomes manually disabled, the others stay |
| `MultiKeys.Channel.EnableKey` | controller/channel.go:1439-1479 | one entry becomes enabled without time and reason, the others stay |
| `MultiKeys.Channel.EnableAllKeys` | controller/channel.go:1481-1503 | every entry becomes enabled |
| `MultiKeys.Channel.DisableAllKeys` | controller/channel.go:1505-1550 | enabled entries become manually disabled, others stay; refused when there is none |
| `MultiKeys.Channel.DeleteKey` | controller/channel.go:1552-1630 | the list without the key, marks moved to the new indices, is what is loaded next if and only if the remaining keys can be read back; refused for the last key |
| `MultiKeys.Channel.DeleteDisabledKeys` | controller/channel.go:1632-1699 | the same for all automatically disabled keys; when all keys are, they come back enabled |
| `MultiKeys.Channel.AppendKeys` | controller/channel.go:881-953 | existing entries are kept as a prefix and only new keys follow, enabled, if and only if the list can be read back; a Vertex array that does not parse changes nothing |
| `MultiKeys.Channel.GetKeyStatus` | controller/channel.go:1282-1394 | the requested page of the filtered list, with clamped page number, and the three counters |
| `MultiKeys.Channel.ManageAll` | controller/channel.go:1281-1708 | any run of actions on plain keys is the same run on the list of entries |
| `MultiKeys.RunKeepsOrder` | controller/channel.go:1281-1708 | a run only loses keys and keeps the others in order |
| `MultiKeys.ActIsExact` | controller/channel.go:1396-1699 | for every action exactly which entries it leaves, in order, and the status, time and reason of each |
| `MultiKeys.DeletionsKeepMarks` | controller/channel.go:1552-1699 | through any run of deletions every key that is left keeps its status, time and reason, unless it started automatically disabled |
| `MultiKeys.SavedKeysIff` | model/channel.go:142-164 | a list of keys is read back if and only if it reparses, or nothing was written and it was there before |
| `MultiKeys.SizeIsKeyCountIff` | model/channel.go:510-537 | the recorded size is the number of keys except for an empty JSON array |
| `MultiKeys.PlainListSaves` | model/channel.go:142-164 | lists of visible keys that do not open a JSON array can be read back |
| `MultiKeys.EmptyKeyShiftsMarks` | controller/channel.go:1574-1616 | deleting the key before a disabled empty key disables the key after it |
| `MultiKeys.ExistingIff` | controller/channel.go:887-900 | appending reads the existing keys as loading does unless they open a bracket and are no JSON array |
| `MultiKeys.NewKeysAreExact` | controller/channel.go:921-950 | appended keys are trimmed input keys, distinct, not there before, and no input key is missed |
| `MultiKeys.InputKeysIff` | controller/channel.go:902-928 | an input names its lines, for Vertex one key or the array it parses as |
| `MultiKeys.AppendTwice` | controller/channel.go:930-950 | appending the same keys again adds nothing |
| `MultiKeys.PagesCoverList` | controller/channel.go:1357-1379 | pages 1 to the last, joined, are the filtered list, and no page is empty unless the list is |
| `MultiKeys.RowsAreExact` | controller/channel.go:1318-1355 | the filtered list shows exactly the wanted entries in order, with index, status, time, reason and preview |
| `MultiKeys.CountersAddUpIff` | controller/channel.go:1293-1316 | the counters add up to the number of keys if and only if every status is known |
| `MultiKeys.FilterMatchesCounter` | controller/channel.go:1344-1355 | a status filter lists as many rows as its counter says |
| `BodyStorage.MemoryStorage.ReadInto` | common/body_storage.go:47-54 | reads as the abstract reader |
| `BodyStorage.MemoryStorage.SeekTo` | common/body_storage.go:56-63 | seeks as the abstract reader |
| `BodyStorage.MemoryStorage.Close` | common/body_storage.go:65-72 | uncounts the storage the first time only |
| `BodyStorage.DiskStorage.ReadInto` | common/body_storage.go:169-176 | reads as the abstract reader, except for an empty buffer at the end |
| `BodyStorage.DiskStorage.SeekTo` | common/body_storage.go:178-185 | seeks as the abstract reader |
| `BodyStorage.DiskStorage.Bytes` | common/body_storage.go:198-230 | returns the whole content and leaves the position |
| `BodyStorage.DiskStorage.Close` | common/body_storage.go:187-196 | uncounts the storage the first time only |
| `BodyStorage.AskBoth` | common/body_storage.go:47-230 | a memory and a disk storage of one body give equal answers to any sequence of reads into non-empty buffers, seeks, whole reads and closings |
| `BodyStorage.EveryAttemptSeesBody` | controller/relay.go:201-211 | after any reads and seeks, a rewound storage reads back the whole body in chunks of any sizes |
| `BodyStorage.SeekThenRead` | common/body_storage.go:178-185 | a seek goes to the offset from start, position or end, and the next read starts there; negative targets are refused |
| `BodyStorage.ClosedRefuses` | common/body_storage.go:47-63 | a closed storage refuses reads and seeks |
| `BodyStorage.RequestContext.GetBodyStorage` | common/gin.go:36-96 | a storage that is there is rewound unless it is closed; else one is made from kept bytes or, once, from the stream; an oversized body is an error |
| `BodyStorage.RequestContext.Attempts` | common/gin.go:36-96 | every attempt of a request starts with the whole body |
| `BodyStorage.RequestContext.Cleanup` | common/gin.go:99-106 | closes the storage of the request, if there is one, and forgets it |
| `BodyStorage.RequestContext.Handle` | middleware/body_cleanup.go:11-22 | every attempt sees the kept bytes or the whole body, unless it is too long; a request that got a storage ends with it closed and none left |
| `BodyStorage.StepKeepsBalance` | common/disk_cache_config.go:109-134 | every atomic addition keeps each counter equal to the sum over the open storages, and the clamp does not fire |
| `BodyStorage.RunKeepsBalance` | common/disk_cache_config.go:109-134 | so does every interleaving of creations and closings |
| `BodyStorage.NothingLeaks` | common/body_storage.go:65-72 | when all storages of a run are closed every counter is zero |
| `BodyStorage.PlacedIff` | common/body_storage.go:241-303 | where a body goes, by declared length, size, threshold, free room and a failing disk, and when it is refused |
| `BodyStorage.LimitHoldsIffDemandFits` | common/body_storage.go:241-303 | no schedule of requests exceeds the disk limit if and only if the sizes of all that want the disk add up to at most the limit |
| `BodyStorage.UsageStaysWithinLimit` | common/body_storage.go:241-303 | while looks at the usage do not overlap and bodies are not longer than declared, disk usage stays within its limit |
| `BodyStorage.OverlapBreaksLimit` | common/disk_cache_config.go:170-177 | two requests that look before either counts exceed the limit together |
| `BodyStorage.UnderdeclaredBreaksLimit` | common/body_storage.go:262-282 | a body longer than its declared length exceeds the limit |
| `OpusScanner.GetOpusDuration` | common/audio.go:196-254 | the loop terminates on every byte string and finds the scan's granule position at 48 kHz; with a faulty reader at most that, and an error, with duration 0, only if a header cannot be read |
| `OpusScanner.PageSize` | common/audio.go:241-244 | the sum of the segment sizes |
| `OpusScanner.ReadHeader` | common/audio.go:217-234 | capture pattern, signed little-endian granule position and segment count are read back from any encoded header |
| `OpusScanner.ScanStream` | common/audio.go:205-249 | on pages with junk between them, cut off after any number of bytes, the scan finds the largest granule position of the pages whose header is there |
| `OpusScanner.ScanWholeStream` | common/audio.go:205-249 | on a whole stream it finds the largest one, and 0 if none is positive |
| `OpusScanner.ScanIsSound` | common/audio.go:205-249 | on any bytes the answer is 0 or the granule position of a captured header |
| `VerificationCodes.VerificationMap.Register` | common/verification.go:35-45 | adds the code; afterwards the map is small or holds nothing expired |
| `VerificationCodes.VerificationMap.RemoveExpired` | common/verification.go:65-72 | exactly the expired entries go |
| `VerificationCodes.VerificationMap.Verify` | common/verification.go:47-56 | accepts the stored code while it is valid |
| `VerificationCodes.AcceptsLastRegistered` | common/verification.go:35-72 | over every history with a forward clock a code is accepted if and only if it is the last one registered for the purpose and address, not deleted since and less than ten minutes old |
| `VerificationCodes.SlotsDoNotCollide` | common/verification.go:15-18 | one-letter purposes keep map keys apart |
| `VerificationCodes.SweepIsFinal` | common/verification.go:65-72 | with a clock that runs backwards the sweep would change an answer |
| `RedisHash.StoreObject` | common/redis.go:113-144 | the loop over fields fills the hash that the recursive definition describes |
| `RedisHash.LoadObject` | common/redis.go:187-239 | the loop fills the fields, stops at the first text that does not parse, and reports an empty hash |
| `RedisHash.IntIsRead` | common/redis.go:213-218 | every 64-bit integer is read back from its decimal text |
| `RedisHash.ParseIntIff` | common/redis.go:213-218 | exactly a sign that fits, leading zeros and the shortest digits of a 64-bit integer are read, as that integer |
| `RedisHash.LoadIff` | common/redis.go:196-236 | what any text of the hash loads as, for every type of field |
| `RedisHash.LoadedEach` | common/redis.go:187-239 | any hash fills each field it has a text for, leaves the others, and fails if and only if some text does not parse |
| `RedisHash.FieldRoundTripIff` | common/redis.go:119-144 | a field always loads, and comes back as it was if and only if it is representable |
| `RedisHash.RoundTripIff` | common/redis.go:107-239 | a stored struct is loaded as it was if and only if some field is stored and every field is representable; it counts as missing if and only if none is stored |

## Left out

- HTTP handlers, payment signatures, e-mail, logging and statistics: input and output around the modelled cores.
- enrichModels (controller/model_meta.go): joins several tables into display rows; it would add easy members only.
- Floating point: prices, ratios and quotas are reals and unbounded integers, so rounding and overflow are not captured.
- Order locks and top-ups are state machines on values instead of objects on the heap, because their point is the interleaving of goroutines; a Go mutex is a locked bit.
- Pattern matching of ignored model names is an arbitrary predicate, and the parsed model mapping of a channel is given.
- JSON decoding is an arbitrary function from text to an optional list, and the display form of a key an arbitrary function of it.
- RelayRetry takes channel availability and the end of each attempt as arbitrary; the price of a violation and the settlement inside an answering attempt are not modelled, and the closing settlement or refund of a request is one whose database calls succeed.
- Subscription periods that reset in the middle of a request are not modelled, nor the choice between wallet and subscription.
- BodyStorage.UsageStaysWithinLimit: a sufficient condition on single runs; the exact condition over all schedules is LimitHoldsIffDemandFits.
- Background removal of old cache files and the resynchronisation of the counters from disk are not modelled.
- VideoBilling.RunConserves: sufficient conditions on single runs; PollConservesIff is exact for one poll.
- Usage statistics that a video re-billing updates beside the balance are not modelled.
- Redis transactions, expiry and field types other than strings, integers, booleans and pointers to them are not modelled.
