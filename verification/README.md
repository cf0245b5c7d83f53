# A verified model of the gateway's stateful core

This project models, in Dafny, the parts of the gateway whose correctness depends on state, order or arithmetic, and
proves what they promise. Nothing here executes the gateway. Each module follows one component of the program:

- **Prelude** holds what several modules share, and **Ratios** when two prices count as equal.
- **OrderLock** is the map of reference-counted mutexes that serialises payment callbacks by trade number, as a machine of
  any number of threads with program counters and interleaved atomic steps. **TopUpCredit** runs the Epay callback, the
  manual completion and the Stripe failure event on top of that machine, with failing stores and transactions.
  **TopUpAmount** is the decimal arithmetic of an order in token display mode.
- **Billing** is the session that pre-consumes, reserves, settles and refunds the quota of one request. **RelayRetry** is the
  retry loop around the upstream calls, with the channel selection that can reset its counter, and the settlement or refund
  at its end.
- **RateLimiter** is the in-memory sliding window with its sweeper. **VerificationCodes** is the store of one-time codes with
  its eviction.
- **Text**, **ModelNames** and **UpstreamModels** are key and model lists as separated text, the list operations on model
  names, and the reconciliation of a channel's models with its upstream.
- **MultiKey**, **KeyAppend** and **KeyStatusPages** are the actions on a channel with many keys, the appending of keys, and
  the paged status view.
- **BodyStorage** is the request body in memory or on disk behind one interface. **DiskCacheUsage** is the machine of its
  usage counters under concurrent creation and closing.
- **RatioDiff** and **CandidateSelection** are the price table that compares channels with the local prices, and the choice of
  the cheapest offer for a model.
- **OggOpus** is the page scanner that finds the duration of an Opus file, against a writer of Ogg pages as laid out in
  section 6 of RFC 3533.

The source's objects whose methods update fields are classes here, with one function that gives the value of all fields;
every method is tied to a function on that value, and the theorems are about runs of those functions. Loops are loops with
invariants. The database, the clock, the network, random choice and every external outcome are parameters: a run is any
sequence of calls with any outcomes.

## Where a promise fails

Some promises hold only under a condition. The code is modelled as it is, and the exact condition is proved:

- The rate limiter decides as the full history would if and only if the limit is not negative and the window is at most one
  second longer than the expiry of a key. The comment at common/constants.go:193 asks for no longer than the expiry, which is
  stricter than needed. A limit of zero acts as one; a negative limit stops every request of a new key with a panic.
- No request, and no task whose channel is not locked, makes more than RetryTimes + 1 attempts if and only if there is no
  retry or at most one automatic group is left. The sharp bound for more groups, with and without cross-group retry, is proved
  and reached by both. With a negative RetryTimes there
  is no attempt: Relay ends without an error, and RelayTask reads a result that does not exist.
- A settlement that is written charges the actual cost if and only if what was charged before it is what counts as
  pre-consumed: without an earlier refund, when the quota asked for was not negative and no failed rollback left the amount of
  a reservation charged. After a refund it charges less, by what the refund gave back.
- A failed pre-consume leaves the token charged exactly when the token was charged and its rollback failed.
- A failed request whose upstream already did billable work is billed only when something was held, so never for a trusted
  wallet. When the settlement of such a request, or of a task, fails on the funding source, nothing is refunded and the
  customer has paid the amount held.
- Disk usage stays below its maximum in every run with honest lengths if and only if the configuration never sends a body that
  is not empty to the disk; in any other configuration two overlapping creations exceed it. Without overlap it stays below.
- An action on a channel with many keys acts as on a list of key records if and only if it is faithful: a deletion leaves keys
  whose first and last are not blank, and a report names a key of the channel and does not enable one that has a time or a
  reason. Deleting the auto-disabled keys when all are auto-disabled deletes none and enables all.
- Appending keeps the records of the existing keys if and only if the stored text is more than line breaks or nothing is added.
- Applying every detected model reaches a fixed point if and only if no detected name contains a comma and no name was held
  back only by ignore rules that are themselves detected names.
- A name is never pending and ignored at once, and never lost from the ignored names, if and only if it would ignore itself,
  is the target of an alias, or is blank or not trimmed; so both happen only to a "regex:" rule that misses its own text.
- The two body storages answer a run of calls alike if and only if it has no read into an empty buffer at or behind the end.
- A price difference is listed if and only if a channel that differs anywhere, with a value other than null and "same", does
  not read "same" there. Of several channels with one name only the last has a column.
- A quota per unit of 2 * 10^16 or more can credit more tokens than were asked for; the exact rounding condition is proved.

## Model

| member | source | states |
|---|---|---|
| OrderLock.RunKeepsInv | controller/topup.go:262-301 | every state of every interleaving keeps the invariant that ties threads, map entries, reference counts and mutex owners together |
| OrderLock.MutualExclusion | controller/topup.go:271-301 | in every interleaving at most one thread per trade number is in its critical section |
| OrderLock.RefCountIsExact | controller/topup.go:271-301 | the reference count of an entry is the number of threads between increment and decrement; without an entry there are none; outside createLock no entry is unused |
| OrderLock.UnlockFindsItsMutex | controller/topup.go:286-301 | the load in UnlockOrder, outside createLock, always finds the mutex the same thread locked; no thread loses its lock or unlocks an unlocked mutex |
| OrderLock.IdleMeansEmpty | controller/topup.go:262-301 | once all threads are idle the map is empty |
| OrderLock.SomebodyMoves | controller/topup.go:271-301 | no deadlock: while a thread is not idle, some thread can take a step, which brings it to its next program point |
| OrderLock.ActKeepsInv | controller/topup.go:271-301 | each atomic step of LockOrder and UnlockOrder keeps the invariant |
| OrderLock.EveryStepAdvances | controller/topup.go:271-301 | each step takes its thread to the next program point, skipping one exactly when the entry exists or is still in use; so every call goes through its critical section and returns |
| OrderLock.CallsAreBounded | controller/topup.go:271-301 | however the threads are scheduled, without new calls there are at most as many steps as the threads had before them |
| OrderLock.StuckMeansDone | controller/topup.go:271-301 | a run that cannot go on without a new call has every thread idle and an empty map |
| OrderLock.EveryRunCanFinish | controller/topup.go:271-301 | every run can be continued until every thread is idle |
| OrderLock.PassesCritical | controller/topup.go:271-301 | a thread that has not reached its critical section and is idle later, without new calls, was in it in between |
| OrderLock.EveryCallCanBeServed | controller/topup.go:271-301 | after every run an idle or new thread can call LockOrder on any trade number, reach its critical section for that number, and every call can then come to its end |
| TopUpCredit.RunKeepsInv | controller/topup.go:366-408 | every state of every interleaving of the three handlers keeps the invariant between orders, work in progress, ledger and balances |
| TopUpCredit.CreditedAtMostOnce | controller/topup.go:366-408 | no order is credited twice, whichever stores and transactions fail |
| TopUpCredit.BalanceIsSumOfCredits | controller/topup.go:391-405 | every balance is the sum of that user's credits |
| TopUpCredit.CreditIsJustified | controller/topup.go:366-408 | an Epay credit is for an Epay order already stored as success, a manual one for a pending order; user and amount are the order's own, by money only for a Stripe order completed by hand; the order was never credited before |
| TopUpCredit.RateIsWholePart | controller/topup.go:391-393 | the quota of an order is the whole part of its amount, or its money, times the quota per unit, and is positive exactly when that is at least 1 |
| TopUpCredit.SuccessIsCreditedOrMissed | controller/topup.go:378-405 | when all handlers have returned an order is stored as success exactly when it was credited or given up after the store, never both |
| TopUpCredit.Alone | controller/topup.go:366-368 | a thread in a handler is the only one in a handler for its trade number |
| TopUpCredit.HandleTouchesOneOrder | model/topup.go:325-402 | one handler step changes only the order and the work of its own trade number |
| TopUpCredit.HandleCredits | controller/topup_stripe.go:232-257 | a handler step adds at most one credit, and only under the conditions of its handler; a failure event adds none |
| TopUpCredit.HandlerAdvances | controller/topup.go:366-408 | a handler returns after at most three steps of its own, whatever fails |
| TopUpCredit.CallbackEnds | controller/topup.go:366-408 | for all outcomes of its three steps: a pending Epay order is stored as success unless the read or the store fails, and credited once exactly when all succeed; otherwise nothing is credited and a stored order is given up |
| TopUpCredit.CompletionEnds | model/topup.go:325-402 | a manual completion stores and credits a pending order exactly when its transaction is written and the order is worth some quota, and changes nothing otherwise |
| TopUpCredit.FailureEventEnds | controller/topup_stripe.go:232-257 | a failure event marks a pending Stripe order as failed unless the read or the store fails, and credits nothing |
| TopUpCredit.WorkWaits | controller/topup.go:366-408 | while a handler waits, what it holds stays as it was, whatever the other threads do |
| TopUpCredit.CallbackStores | controller/topup.go:378-390 | in every interleaving a callback that finds a pending Epay order and whose first two steps succeed has stored that order as success and is about to credit it |
| TopUpCredit.StoredIsCredited | controller/topup.go:391-405 | in every interleaving its next step, when it succeeds, credits that order once and for the first time |
| TopUpCredit.RequestsCanArrive | controller/topup.go:366-368 | in every run any request can arrive for any trade number, at an idle or new thread |
| TopUpCredit.OrdersCanBeInserted | controller/topup.go:241-254 | in every run a pending order can be inserted under a new trade number |
| TopUpAmount.CreditIsLargestMultipleIff | controller/topup.go:235-240 | the credit is the largest multiple of the quota per unit not above the tokens asked for, if and only if the 16-digit division does not round into the next unit |
| TopUpAmount.UsualUnitsAreExact | controller/topup.go:391-393 | for every quota per unit below 2 * 10^16 it is that multiple |
| TopUpAmount.MinimumIsCredited | controller/topup.go:172-192 | an order that passes the minimum check is credited at least the minimum |
| TopUpAmount.PassesIffMinimumIsCredited | controller/topup.go:172-192 | for every quota per unit below 2 * 10^16 an order passes the minimum check if and only if it is credited the minimum |
| TopUpAmount.HugeUnitCreditsMore | controller/topup.go:235-240 | a concrete order with a huge quota per unit that is credited more than was asked for |
| Billing.Session.PreConsume | service/billing_session.go:186-230 | the state and the two ledgers after a pre-consume, with the rollback of the token when the source fails and a rollback that fails |
| Billing.Session.Reserve | service/billing_session.go:152-178 | the state after raising the held amount, with its rollback and a rollback that fails; exactly when it succeeds, and that at least the target is held then |
| Billing.Session.Settle | service/billing_session.go:41-79 | the state after a settlement, exactly when it succeeds, and that success means settled |
| Billing.Session.Refund | service/billing_session.go:82-123 | the state after a refund whose three writes may each fail; nothing happens when settled, refunded or nothing was taken |
| Billing.OpenTakes | service/billing_session.go:186-230 | exactly when a pre-consume succeeds, and that it then takes from both ledgers what is due: nothing from a trusted wallet or for a quota that is not positive, at least 1 from a subscription |
| Billing.ReserveRaises | service/billing_session.go:152-178 | a reservation whose writes succeed raises what is held to the target and both ledgers by the difference |
| Billing.ApplyKeepsBooks | service/billing_session.go:41-178 | one call, whichever of its writes fail, keeps what is held, what a refund would give back and both ledgers in step with the history of the session |
| Billing.ChargeFollowsRun | service/billing_session.go:41-230 | over every run of calls after a successful pre-consume, for all quotas and whichever writes fail: the source has been paid the amount held and what failed rollbacks stranded, or what the refund left of them, and the difference that the settling call adds; the token likewise |
| Billing.SettleKeepsBooks | service/billing_session.go:41-79 | a settlement fails on the source and changes nothing, or adds the difference between the actual cost and what counts as pre-consumed |
| Billing.RefundLeaves | service/billing_session.go:82-123 | a refund happens exactly when something is held, and leaves exactly what its failed writes did not give back |
| Billing.UsualRunCharges | service/billing_session.go:41-178 | with a quota that is not negative, nothing stranded and the refund written: while open the amount held is paid, after a refund nothing, after a settlement the actual cost, less the amount held only when a refund came before it |
| Billing.FailedRollbackStrands | service/billing_session.go:165-171 | after a failed rollback a settlement charges exactly that amount too much, and a refund gives it back from a wallet but not from a subscription |
| Billing.SettledIsFinal | service/billing_session.go:41-123 | once settled, no later call changes anything |
| Billing.FailedOpenLeaves | service/billing_session.go:198-222 | a failed pre-consume takes nothing from the source, and leaves the token charged exactly when it was charged and its rollback failed |
| Billing.SettleChargesActualIff | service/billing_session.go:41-58 | after every unsettled run, for all quotas and whichever writes failed, a written settlement charges the actual cost if and only if, without a refund before it, the quota asked for was not negative and nothing is stranded; after a refund, if and only if that left exactly what counts as pre-consumed |
| RelayRetry.MatchesIffInRange | setting/operation_setting/status_code_ranges.go:102-115 | the scan that stops early matches exactly the codes from 100 to 599 that lie in some range, for ranges sorted by start |
| RelayRetry.DefaultRangesAreLegacyRule | setting/operation_setting/status_code_ranges.go:19-29 | the default ranges match exactly the statuses that the comment above them names |
| RelayRetry.DecisionsAgree | controller/relay.go:610-650 | with the default ranges an upstream status from 100 to 599 is retried alike for requests and tasks: not for 2xx, 400, 408, 504 and 524, not without retries left, not for a fixed channel |
| RelayRetry.RetryNeedsAReason | controller/relay.go:321-351 | exactly when a request error is retried: channel errors always; others only with retries left, no skip-retry and no fixed channel, and for a status from 100 to 599 only when it lies in some configured range and is not 2xx, 504, 524 or a bad body |
| RelayRetry.TaskRetryNeedsAReason | controller/relay.go:610-650 | exactly when a task error is retried: with retries left and no fixed channel, for 429, 307, a 5xx status but 504 and 524, or an upstream error with any other status but 2xx, 400 and 408 |
| RelayRetry.RetryParam.IncreaseRetry | service/channel_select.go:33-42 | the counter goes up by one, or stays once after a reset |
| RelayRetry.RetryParam.SelectChannel | service/channel_select.go:83-162 | the loop over the automatic groups: the channel returned, and the new counter, group index and reset flag |
| RelayRetry.SelectsFirstGroup | service/channel_select.go:106-154 | the channel returned is that of the first group, from the current one on, that has one at its priority; none is returned only when no group has one |
| RelayRetry.SelectShrinks | service/channel_select.go:106-154 | a selection that finds a channel uses up room for attempts even when it resets the counter |
| RelayRetry.RunLoop | controller/relay.go:192-238 | the retry loop ends as its recursive definition does, for every sequence of outcomes |
| RelayRetry.NextCallIff | controller/relay.go:192-238 | call j + 1 is made if and only if call j is made, fails with an error to be tried again with the retries then left, and the next turn has a retry, a channel, its setup and the body |
| RelayRetry.RefusedIsLast | controller/relay.go:229-238 | a call whose error is refused for every number of retries left is the last one, and its error is returned |
| RelayRetry.OneGroupCalls | controller/relay.go:192-238 | in one group or on a locked channel call j + 1 is made if and only if call j failed, is to be tried again with RetryTimes - j retries left, j is below RetryTimes, and the next turn finds channel, setup and body |
| RelayRetry.ErrorIs | controller/relay.go:192-238 | the error returned is that of the last call when it is not tried again or no retry is left, otherwise that of the selection, setup or body of the next turn |
| RelayRetry.OneGroupError | controller/relay.go:192-238 | the same in one group or on a locked channel, in terms of the outcomes alone |
| RelayRetry.AttemptsBounded | controller/relay.go:192-238 | at most RetryTimes + 1 attempts in one group or on a locked channel, one when automatic groups are off or used up, and otherwise one round for each group left, shorter by one without cross-group retry |
| RelayRetry.MaxAttemptsReached | service/channel_select.go:106-154 | that bound is reached for every setting with automatic groups left, by requests and by tasks |
| RelayRetry.NeverMoreThanTimesIff | service/channel_select.go:119-149 | no request makes more than RetryTimes + 1 attempts, whatever its turns meet, if and only if it has no retry or at most one automatic group left |
| RelayRetry.TaskNeverMoreThanTimesIff | controller/relay.go:513-560 | no task makes more than RetryTimes + 1 attempts if and only if its channel is locked, it has no retry or at most one automatic group is left |
| RelayRetry.NilErrorIffLastCallSucceeded | controller/relay.go:222-238 | the loop ends without an error if and only if its last call succeeded, and no call before it did |
| RelayRetry.NegativeTimesCallNobody | controller/relay.go:192-192 | with a negative retry count there is no call and no error |
| RelayRetry.SessionSeesTheCalls | controller/relay.go:192-238 | the billing session goes through exactly the calls that were made |
| RelayRetry.Relay | controller/relay.go:163-245 | the calls are exactly those that the turns and the decisions allow; the bound on attempts, the error returned, and that an error adds exactly one settlement or refund to the session while success adds none |
| RelayRetry.RelayTask | controller/relay.go:498-600 | the same for tasks: the calls allowed, the error, and when a session exists exactly one settlement on success or one refund on an error; with a negative retry count the missing result stops the request |
| RelayRetry.FailedRelayCharges | service/relay_error_billing.go:36-66 | after a failed request whose calls left the session open, for all quotas and whichever writes fail, the customer has paid the cost when it is billable, something was held and the settlement succeeds, the amount held when it fails, and what the refund leaves otherwise, each with what negative quotas and failed rollbacks add; a closed session stays as it was |
| RelayRetry.TaskSessionStaysNew | relay/relay_task.go:205-211 | a task opens its session at most once, and its calls leave the session as it was opened |
| RelayRetry.TaskSessionIsFirstOpened | relay/relay_task.go:205-211 | the session of a task is the one that its first call to open one opened, and there is none without such a call |
| RelayRetry.TaskCharges | controller/relay.go:570-573 | a failed task pays nothing when its refund is written and the amount held otherwise; a successful one pays its final quota, and above it what a negative quota left over, exactly when the settlement succeeds or has nothing to adjust, and the amount held otherwise; and when the token's ledger agrees with it |
| RateLimiter.Limiter.Request | common/rate-limit.go:45-70 | the store and the answer after a request, with the panic of a negative limit on a new key |
| RateLimiter.Limiter.Sweep | common/rate-limit.go:28-42 | the store after one round of the sweeper: exactly the expired keys are gone |
| RateLimiter.YoungIsDecidedByOne | common/rate-limit.go:52-66 | in a sorted history the count of young entries is below the limit exactly when one entry is old enough |
| RateLimiter.RunKeepsQueue | common/rate-limit.go:45-70 | in every run the queue is a suffix of the passed times, and what it forgot is older than the window |
| RateLimiter.DecidesAsFullHistory | common/rate-limit.go:45-70 | the bounded queue and the sweeper let a request through exactly when the full history of passes would and the limit is not negative |
| RateLimiter.PassesAreSpaced | common/rate-limit.go:45-70 | any limit + 1 consecutive passes of a key span the window |
| RateLimiter.SweeperForgets | common/constants.go:192-219 | for every longer window a run in which the sweeper lets one request too many pass |
| RateLimiter.NegativeLimitPanics | common/rate-limit.go:64-67 | a negative limit stops a request that the full history would let through |
| RateLimiter.ExactIffWindowFits | common/constants.go:192-219 | the limiter is exact on all runs if and only if the limit is not negative and the window is at most expiry + 1 seconds |
| VerificationCodes.Store.Register | common/verification.go:35-45 | the store after registering a code, with the sweep when it is full |
| VerificationCodes.Store.Verify | common/verification.go:47-56 | the answer from the stored code and its age |
| VerificationCodes.Store.DeleteKey | common/verification.go:58-62 | only the slot of that purpose and key is removed |
| VerificationCodes.Store.RemoveExpiredPairs | common/verification.go:64-72 | exactly the expired codes are removed |
| VerificationCodes.RegisterKeeps | common/verification.go:35-45 | up to ten slots registering changes only its own; with more, exactly the codes ten minutes old are gone |
| VerificationCodes.SlotFollowsLog | common/verification.go:35-72 | in every run a slot holds the last code of its purpose and key, or is empty and that code has expired |
| VerificationCodes.EvictionIsInvisible | common/verification.go:47-56 | every answer is that of a log in which nothing is evicted |
| VerificationCodes.SlotsCollideIff | common/verification.go:38-38 | two purposes can share a slot if and only if one is a prefix of the other |
| VerificationCodes.ProgramPurposes | common/verification.go:16-19 | the two purposes of the program cannot |
| Text.ParseJoin | model/channel.go:81-103 | joining and parsing again gives the parts back if and only if the first and the last are not empty |
| Text.SplitJoin | model/channel.go:101-102 | splitting a join of parts without the separator gives the parts |
| Text.JoinSplit | model/channel.go:196-201 | joining a split gives the text, and no part contains the separator |
| Text.TrimSpaceCuts | controller/channel_upstream_update.go:97-102 | trimming cuts off spaces on both sides, all of them and nothing else |
| Text.ParseKeepsPart | model/channel.go:196-201 | a non-empty part without the separator is read back whatever the other parts contain |
| ModelNames.MergeModelNames | controller/channel_upstream_update.go:104-118 | the loop with its set of seen names computes the merge |
| ModelNames.NormalizeIsClean | controller/channel_upstream_update.go:97-102 | normalized names are trimmed, non-empty and distinct, and normalizing is idempotent |
| ModelNames.NormalizeCovers | controller/channel_upstream_update.go:97-102 | every non-blank name is in the result, trimmed, and nothing else is |
| ModelNames.UniqKeepsFirst | controller/channel_upstream_update.go:97-102 | duplicates are dropped in favour of the first occurrence, in order |
| ModelNames.MergeMembers | controller/channel_upstream_update.go:104-118 | the merge is the normalized base followed by the new names |
| ModelNames.WithoutMembers | controller/channel_upstream_update.go:120-129 | subtraction by membership, without duplicates, and nothing to subtract leaves the list as it was |
| ModelNames.WithinMembers | controller/channel_upstream_update.go:131-140 | intersection by membership, without duplicates, and everything allowed leaves the list as it was |
| ModelNames.FilterKeepsOrder | controller/channel_upstream_update.go:120-140 | subtraction and intersection keep the order of the names |
| ModelNames.ApplySelectedKeepsOrder | controller/channel_upstream_update.go:142-147 | the result holds what was or is added and not removed, an addition wins over a removal, and the old order is kept |
| UpstreamModels.CollectMembers | controller/channel_upstream_update.go:176-235 | what a detection adds and removes, by membership in the upstream, local, alias and ignore lists |
| UpstreamModels.CheckDoes | controller/channel_upstream_update.go:360-409 | what a check stores in every case: nothing when it is not due, only the time when the fetch fails; otherwise the stale names as removals and the new names as additions, unless it may apply them |
| UpstreamModels.AutoCheckAdds | controller/channel_upstream_update.go:385-396 | a check that may apply by itself leaves nothing pending, loses no local name and adds every new name without a comma; without commas it adds exactly the new names |
| UpstreamModels.AutoAddedCounts | controller/channel_upstream_update.go:385-392 | the number reported as added is the number of new names when the check may apply them, and zero otherwise |
| UpstreamModels.RuleIs | controller/channel_upstream_update.go:214-220 | a rule with the prefix ignores what its trimmed rest matches, any other rule the name that it is |
| UpstreamModels.IgnoredIff | controller/channel_upstream_update.go:214-221 | a name is ignored exactly when it is listed without the prefix or a rule with the prefix matches it |
| UpstreamModels.Row.CheckAndPersist | controller/channel_upstream_update.go:361-408 | the row after a check, its early exit, the automatic apply, and nothing when the write fails |
| UpstreamModels.Row.ApplyUpdates | controller/channel_upstream_update.go:781-829 | the row after an apply, and what was selected |
| UpstreamModels.SelectedMembers | controller/channel_upstream_update.go:794-800 | only pending names are selected, and an addition is never also removed |
| UpstreamModels.ApplyMembers | controller/channel_upstream_update.go:794-816 | the stored lists after an apply, by membership |
| UpstreamModels.ApplySplitsPending | controller/channel_upstream_update.go:781-829 | each apply splits the pending lists into applied, ignored and remaining; nothing is lost; applied and ignored overlap exactly in the pending names asked for in both, and the addition then wins |
| UpstreamModels.RunKeepsInv | controller/channel_upstream_update.go:361-829 | the invariant of the pending and ignored lists over every run of checks, applies and edits, for all upstream lists |
| UpstreamModels.PendingStaysDisjoint | controller/channel_upstream_update.go:176-235 | in every run, for all upstream lists, pending additions are not pending removal, are not ignored when they would ignore themselves and are no alias targets, and no alias source is pending removal |
| UpstreamModels.IgnoredOnlyGrows | controller/channel_upstream_update.go:781-829 | in every run a name that would ignore itself or is an alias target stays ignored once it is |
| UpstreamModels.OwnRuleDecides | controller/channel_upstream_update.go:214-220 | for every name: it is never pending and ignored at once, and never lost from the ignored names, in all runs, if and only if it would ignore itself, is an alias target, or is blank or not trimmed |
| UpstreamModels.AliasSourceNeverRemoved | controller/channel_upstream_update.go:195-234 | in every run, for all upstream lists, a local alias source stays until an administrator edits the list |
| UpstreamModels.ApplyWritesNext | controller/channel_upstream_update.go:802-807 | the stored text reads back as the new list if and only if no added name contains a comma |
| UpstreamModels.FixedPointIff | controller/channel_upstream_update.go:848-895 | detect then apply all leaves nothing to detect if and only if no detected name contains a comma and no name was held back only by rules that are detected names |
| UpstreamModels.FixedPointIffNoComma | controller/channel_upstream_update.go:848-895 | when the detected names would ignore themselves only commas matter |
| UpstreamModels.CommaComesBack | controller/channel_upstream_update.go:848-895 | a detected name with a comma is detected again after it was applied |
| UpstreamModels.ApplyAllKeepsOrder | controller/channel_upstream_update.go:848-895 | detect then apply all yields a list without duplicates, which is the surviving names in their old order followed by the additions if and only if no addition contains a comma |
| MultiKey.Row.Update | model/channel.go:458-505 | an empty key text keeps the stored one; statuses behind the last key are dropped |
| MultiKey.Row.DisableKey | controller/channel.go:1412-1453 | the row after disabling one key, and when it is refused |
| MultiKey.Row.EnableKey | controller/channel.go:1455-1495 | the row after enabling one key, and when it is refused |
| MultiKey.Row.EnableAllKeys | controller/channel.go:1497-1519 | the row after enabling all keys, and how many were disabled |
| MultiKey.Row.DisableAllKeys | controller/channel.go:1521-1566 | the row after disabling all enabled keys, and when it is refused |
| MultiKey.Row.DeleteOneKey | controller/channel.go:1568-1646 | the row after deleting one key, and when it is refused |
| MultiKey.Row.DeleteDisabledKeys | controller/channel.go:1648-1715 | the row after deleting the auto-disabled keys, and how many that were |
| MultiKey.Row.ReportKey | model/channel.go:573-609 | the row after a relay reports on a key: a key that is not found counts as the first, and enabling deletes only the status |
| MultiKey.AllBut | controller/channel.go:1586-1618 | the loop that rebuilds the keys and re-indexes the three maps around one deleted key |
| MultiKey.NotAutoDisabled | controller/channel.go:1649-1686 | the loop that rebuilds them around all auto-disabled keys, and how many it dropped |
| MultiKey.DisableEnabled | controller/channel.go:1533-1545 | the loop marks exactly the enabled keys, and says whether there was one |
| MultiKey.FindKey | model/channel.go:578-584 | the search loop finds the first such key, or settles for the first of all |
| MultiKey.RefusedIff | controller/channel.go:1412-1715 | which requests are refused, in terms of the key records: an index out of range, nothing to disable or delete, or the only key |
| MultiKey.SavedIs | model/channel.go:458-505 | saving keeps the stored text when none is given, counts its keys and drops the statuses behind the last |
| MultiKey.RebuildIsDropped | controller/channel.go:1586-1633 | what the loops build is the channel with those keys dropped: remaining keys in order, each map re-indexed by the survivors |
| MultiKey.DropKeepsKeysIff | controller/channel.go:1628-1635 | the remaining keys read back from the text if and only if the first and the last of them are not blank |
| MultiKey.DropKeepsRecords | controller/channel.go:1592-1633 | every surviving key keeps its status, time and reason under its new index |
| MultiKey.DropKeepsValid | controller/channel.go:1586-1635 | the three maps stay consistent with each other and with the number of keys |
| MultiKey.DropRefinesIff | controller/channel.go:1586-1635 | dropping keys drops their records and no others if and only if the first and the last remaining key are not blank, and then the row stays consistent |
| MultiKey.DeleteKeyRefinesIff | controller/channel.go:1568-1646 | delete_key removes one record from the list of records exactly then |
| MultiKey.DeleteDisabledRefinesIff | controller/channel.go:1648-1715 | delete_disabled_keys filters the list of records exactly then |
| MultiKey.ReportRefinesIff | model/channel.go:573-609 | a report changes the record of its key exactly when the key is found, or nothing changes at the first, and no key with a time or a reason is enabled |
| MultiKey.ReportKeepsValidIff | model/channel.go:588-600 | a report keeps the row consistent if and only if it does not enable a key that has a time or a reason |
| MultiKey.DeletingAllEnablesAll | controller/channel.go:1688-1703 | when every key is auto-disabled the action succeeds, deletes none and enables all |
| MultiKey.StatusActionsRefine | controller/channel.go:1412-1566 | the actions that change statuses only act on the list of records |
| MultiKey.ActionRefinesIff | controller/channel.go:1412-1715 | every action on every consistent row is the same action on the list of records if and only if it is faithful, and then keeps the row consistent |
| MultiKey.SolidDeletionsAreFaithful | controller/channel.go:1568-1715 | without blank keys the only unfaithful deletion is that of all keys |
| MultiKey.RunRefines | controller/channel.go:1412-1715 | over every run of faithful actions the row stays consistent and is the list of records of the same run |
| MultiKey.RunKeepsGood | controller/channel.go:1412-1715 | over every run of an administrator's actions a channel without blank keys stays one, and consistent |
| KeyAppend.DedupedNewKeys | controller/channel.go:918-948 | the loops with their set of seen keys |
| KeyAppend.Dedupe | controller/channel.go:937-948 | the loop with its set of seen keys keeps the first occurrences of the keys that are not known |
| KeyAppend.AddedKeys | controller/channel.go:918-948 | the added keys are trimmed, non-empty, distinct, new, and complete |
| KeyAppend.AppendReadsBack | controller/channel.go:896-951 | the text reads back as the existing keys followed by the added ones |
| KeyAppend.AppendKeepsPrefixIff | controller/channel.go:880-951 | the existing keys stay a prefix if and only if the stored text is more than line breaks or nothing is added |
| KeyAppend.AppendKeepsRecords | controller/channel.go:880-951 | for every consistent row whose text is more than line breaks, every existing key keeps its record and every new key is enabled |
| KeyAppend.AppendKeepsRecordsIff | controller/channel.go:880-951 | the existing records stay a prefix if and only if the stored text is more than line breaks or nothing is added |
| KeyAppend.AppendKeepsValid | controller/channel.go:880-951 | every append keeps a consistent row consistent |
| KeyAppend.AppendKeepsGood | controller/channel.go:880-951 | an append to a channel without blank keys leaves it without blank keys |
| KeyStatusPages.GetKeyStatus | controller/channel.go:1298-1409 | the rows of the page, the page number after clamping, the totals and the three counters |
| KeyStatusPages.CountStatuses | controller/channel.go:1311-1335 | the three counters count their statuses over all keys |
| KeyStatusPages.FilterRows | controller/channel.go:1352-1371 | the rows that pass the filter, in key order |
| KeyStatusPages.PageOf | controller/channel.go:1373-1394 | the number of pages, the clamped page and its slice |
| KeyStatusPages.PagesCoverEverything | controller/channel.go:1373-1394 | pages 1 to the last one after the other are all rows, each once and in order |
| KeyStatusPages.PageFits | controller/channel.go:1373-1394 | a page has at most the page size and is not empty when there are rows |
| KeyStatusPages.ListedIsFilter | controller/channel.go:1352-1371 | a key is listed exactly when its status passes the filter |
| KeyStatusPages.ListedInOrder | controller/channel.go:1352-1371 | listed keys come in increasing index order |
| KeyStatusPages.CountIs | controller/channel.go:1298-1400 | each counter is the number of keys with that status |
| KeyStatusPages.CountersAddUp | controller/channel.go:1327-1335 | the three counters add up to all keys when no status is of another kind |
| BodyStorage.SeeksAgree | common/body_storage.go:56-63 | a byte reader and a file move alike for every offset and origin, with wrap-around at 64 bits |
| BodyStorage.SeekReaches | common/body_storage.go:56-63 | a seek on either back end reaches the offset from start, position or end exactly when that is neither negative nor beyond 64 bits |
| BodyStorage.DiskBytesIsTransparent | common/body_storage.go:198-230 | Bytes on disk returns the whole body and leaves the read position as it was |
| BodyStorage.StepAgreesIff | common/body_storage.go:47-238 | the two storages give the same answer and next state if and only if the call is not a read into an empty buffer at or behind the end |
| BodyStorage.RunsAgreeIff | common/body_storage.go:28-238 | a run of calls gives the same answers on both if and only if it has no read into an empty buffer while open at or behind the end |
| BodyStorage.UseAfterCloseFails | common/body_storage.go:47-230 | after Close every read, seek and Bytes fails on both storages, in every continuation |
| BodyStorage.ReadsDeliverTheBody | common/body_storage.go:47-176 | reads in chunks of any sizes, on either back end and from any position, deliver the body in order up to the sum of the sizes, and nothing once closed |
| BodyStorage.SeekThenReads | common/body_storage.go:47-186 | a seek followed by reads of any sizes delivers the body from where the seek went, on either back end |
| BodyStorage.MemoryStorage.Read | common/body_storage.go:47-54 | the answer and the new position |
| BodyStorage.MemoryStorage.Seek | common/body_storage.go:56-63 | the answer and the new position |
| BodyStorage.MemoryStorage.Bytes | common/body_storage.go:74-81 | the whole body, or an error when closed |
| BodyStorage.MemoryStorage.Close | common/body_storage.go:65-72 | closed, and the counters change on the first close only |
| BodyStorage.DiskStorage.Read | common/body_storage.go:169-176 | the answer and the new position |
| BodyStorage.DiskStorage.Seek | common/body_storage.go:178-185 | the answer and the new position |
| BodyStorage.DiskStorage.Bytes | common/body_storage.go:198-230 | the whole body with the position restored, or an error when closed |
| BodyStorage.DiskStorage.Close | common/body_storage.go:187-196 | closed, and the counters change on the first close only |
| BodyStorage.Stats.DecrementDiskFiles | common/disk_cache_config.go:115-122 | both disk counters go down, clamped at zero |
| DiskCacheUsage.RunKeepsInv | common/disk_cache_config.go:108-134 | in every interleaving of creations and closes the counters match the storages |
| DiskCacheUsage.CountersAreExact | common/body_storage.go:37-196 | the four counters are the count and total size of the storages counted in, never negative, and the clamp never fires |
| DiskCacheUsage.BytesAreStored | common/body_storage.go:241-259 | a body at hand ends on disk, counted there, exactly when the cache is on, the body reaches the threshold and fits, and is written; otherwise in memory, counted there |
| DiskCacheUsage.ReaderIsStored | common/body_storage.go:262-302 | the same for a body to be read, by its declared length; a body that cannot be read leaves nothing |
| DiskCacheUsage.CloseTakesBackFile | common/body_storage.go:187-196 | closing a disk storage takes back the file and the bytes that were counted |
| DiskCacheUsage.CloseTakesBackBuffer | common/body_storage.go:65-73 | closing a memory storage takes back the buffer and the bytes that were counted |
| DiskCacheUsage.NeverExceedsIff | common/disk_cache_config.go:169-177 | the usage stays below the maximum in every run with honest lengths if and only if the cache is off, its threshold is above its maximum, or its maximum is zero |
| DiskCacheUsage.SerialRunsStayBelowMax | common/disk_cache_config.go:169-177 | in every configuration, runs without overlapping creations and with honest lengths stay below the maximum, or at zero when that is negative |
| DiskCacheUsage.OverlapExceedsMax | common/body_storage.go:240-303 | any two bodies that fit alone and not together can both be approved and exceed it |
| RatioDiff.ShowOne | controller/ratio_sync.go:605-624 | what one channel shows in an entry, and whether it raises the difference flag |
| RatioDiff.BuildItem | controller/ratio_sync.go:600-641 | the loop over the channels builds the columns and decides whether the entry is included |
| RatioDiff.FillAll | controller/ratio_sync.go:593-654 | the table holds exactly the included entries of all models and fields |
| RatioDiff.ChannelsWithDiff | controller/ratio_sync.go:656-665 | exactly the channels with a visible difference in some entry |
| RatioDiff.PruneAll | controller/ratio_sync.go:667-693 | the other columns, the entries without a difference and the empty models are removed |
| RatioDiff.BuildDifferences | controller/ratio_sync.go:536-696 | the whole table: which columns are kept, which entries are left and what they hold, for all inputs |
| RatioDiff.DiffersIff | controller/ratio_sync.go:48-62 | a channel differs at a cell exactly when it holds a value and the raw values are not the same: numbers of a price are compared within 10^-9 whatever their kind, all else by equality, and no local value counts as null |
| RatioDiff.ShownIsRead | controller/ratio_sync.go:605-624 | what a column reads, in terms of the raw values |
| RatioDiff.TrustedIff | controller/ratio_sync.go:557-588 | a channel is not trusted for a model exactly when its two ratios are within 10^-9 of 37.5 and 1 |
| RatioDiff.ListedIff | controller/ratio_sync.go:536-696 | for all inputs a cell is listed if and only if some channel really differs there and a channel, the last of its name, that visibly differs anywhere does not read "same" there |
| RatioDiff.ListsRealDifferences | controller/ratio_sync.go:536-696 | when channel names are distinct and no differing value is null or the text "same" the listed cells are exactly the real differences |
| RatioDiff.ListedColumn | controller/ratio_sync.go:600-629 | a listed cell shows the local value and has a column exactly for each channel, the last of its name, that differs somewhere, with its own value and confidence |
| RatioDiff.ListedNames | controller/ratio_sync.go:667-675 | values and confidences have the same columns, all of them channels |
| RatioDiff.NullAndSameAreMissed | controller/ratio_sync.go:656-690 | a difference that is only a null or the text "same" is not listed |
| CandidateSelection.SortedKeys | controller/ratio_sync.go:915-919 | the keys in strictly increasing order, each once |
| CandidateSelection.OfferKeepsPrices | controller/ratio_sync.go:845-879 | a provider offers a model exactly when the input is given, nothing is negative and no paid output follows a free input; the offer keeps the prices |
| CandidateSelection.SelectCandidates | controller/ratio_sync.go:915-944 | the selection loops compute the choice for every model |
| CandidateSelection.ChosenIsOffered | controller/ratio_sync.go:845-879 | a choice exists exactly when a valid offer does, and is the offer of the provider it names |
| CandidateSelection.ChosenIsCheapest | controller/ratio_sync.go:881-893 | the choice is non-zero when a non-zero offer exists and costs less than epsilon more than any of them |
| CandidateSelection.ReplacedIffEpsilonCheaper | controller/ratio_sync.go:881-905 | a choice that is not zero is replaced by a later provider if and only if that is at least epsilon cheaper and not zero |
| CandidateSelection.FirstZeroIsKept | controller/ratio_sync.go:881-893 | among zero offers the first provider by name is chosen |
| CandidateSelection.SelectionIsCheapest | controller/ratio_sync.go:915-944 | the choice is a sound offer of the provider it names, within epsilon of the cheapest, and does not depend on the iteration order of the map |
| OggOpus.TotalGranule | common/audio.go:195-250 | the loop returns the largest granule position the scan meets, and ends on every input |
| OggOpus.ReadAt | common/audio.go:207-248 | what one iteration does: stop, slide by one byte, take a page, or take a cut-off page |
| OggOpus.LittleRoundTrip | common/audio.go:229-229 | reading little-endian bytes undoes writing them |
| OggOpus.SignedIs | common/audio.go:229-229 | a granule position is the number in the range of int64 that differs from the stored one by a multiple of 2^64 |
| OggOpus.SumAppend | common/audio.go:241-246 | the page size is the sum of all entries of the segment table |
| OggOpus.ScanReadsWhatWasWritten | common/audio.go:206-249 | on every stream of well-formed pages with harmless junk between them the scan visits exactly the page boundaries and returns the largest signed granule position |
| OggOpus.VisitsBoundariesIffQuiet | common/audio.go:219-226 | it visits exactly the boundaries if and only if no page seems to start outside them |
| OggOpus.ScanOfPages | common/audio.go:206-249 | pages back to back are always read right |
| OggOpus.CutPageCountsIffHeaderIsWhole | common/audio.go:207-248 | a file that ends inside a page: the granule position of that page counts exactly when its header of 27 bytes is whole |
| OggOpus.LargestGranuleIsMaximum | common/audio.go:229-233 | the returned value is at least 0 and every position, and one of them |

## Left out

- HTTP, JSON, logging, signatures, notifications and access checks: outcomes of external calls are parameters.
- The Go memory model, fairness and the internals of sync.Map and sync.Mutex: steps under a lock and single map operations are atomic.
- Key texts in the JSON array format of some channel types, the key preview, and the replace mode: only the newline format is modelled.
- Regular expressions of ignore rules: matching is an arbitrary function of pattern and name.
- A failing database write inside a multi-key action: the row is stored as the action built it.
- Floating-point rounding: prices are real numbers; 64-bit overflow is modelled for seeking and for granule positions only.
- Seek origins other than the three of the io package, failing file operations on an open body, and the cleaning, resetting and resynchronising of the disk cache.
- Duration parsing for formats other than Opus, and the division by 48000.
- The pool of payment providers other than Epay, manual completion and the Stripe failure event.
- Choosing between wallet and subscription, the limits of a subscription, violation fees, and settlement without a session.
- Billing.Session.Settle: the clamp of a subscription's usage at zero is not modelled; it acts when the usage was refunded, or reset by a new period, before the settlement.
- The random choice among channels of one priority: a lookup may find any channel or none, differently in each turn.
- The status of a whole channel, which a report changes when all its keys are disabled.
- RatioDiff.ListsRealDifferences: for distinct channel names, as the caller makes them by adding the channel's number; RatioDiff.ListedIff is for all names.
- MultiKey and UpstreamModels treat one handler call as one atomic step. A multi-key request reads its row before it takes the channel's lock, and a check reads its channel, fetches the upstream list and then writes all settings, so in the program a write stored in between can be lost.
- The conversion of other price formats before the table is built.
