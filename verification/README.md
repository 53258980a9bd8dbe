# Verification of the zhongzhuan relay core

This project models the stateful core of the zhongzhuan LLM relay in Dafny and proves what that core is for.
Code that updates objects or lists in place is a class or a method with a loop, proved against a function of the
old state; lemmas then state the properties of that function over every input, every run or every reachable state.
`dafny verify dfyconfig.toml` checks all of it.

| file | models |
|---|---|
| `StreamCourse.dfy`, `Delivery.dfy`, `StreamCreate.dfy`, `EventLog.dfy` | the retry loop behind streamed `POST /v1/responses`: which upstreams a request asks, how much a client gets that leaves at any point, and the two-phase commit of one attempt to the client and the event log |
| `StreamProxy.dfy` | the older streaming loop: rounds, fallback group, degraded wait, pauses, deadline |
| `Failover.dfy` | choosing the next upstream key, and the member order of a group |
| `ConcurrencyGate.dfy` | slot pools and the three-layer gate, over any interleaving of any number of requests |
| `SlidingWindow.dfy` | the per-key request and token window |
| `KeyHealth.dfy`, `HealthSnapshot.dfy` | cooldown expiry, the reload merge, and the incremental health snapshot |
| `SseScanner.dfy`, `SsePrinter.dfy` | the incremental scanner of a raw stream, and the printer of a response as a stream |
| `PromptInjection.dfy` | the injected system message and the neutralized instructions |
| `Capture.dfy` | the bounded debug capture and its round trips |
| `Metrics.dfy` | the counter with capped cardinality, and its label text |
| `LoginLimiter.dfy` | the limit on failed admin logins |

What the network, the stores, the clock and the scheduler's score answer comes in as parameters or as an arbitrary
function, so every statement holds whatever they answer. Times are real numbers and the clock never goes back
where a lemma says `Monotone`, `OneAtATime` or `Duration`.

## Where the code differs from what is said about it

Each of these is proved, with an instance or with the exact condition.

- A failover group does not spill over: when the first member with an untried key has no available key, the search
  ends although a later member may have one (`Failover.NoKeyExactlyWhen`, `Failover.CoolingPrimaryHidesBackup`;
  the docstring at handler.py:1222-1232 reads otherwise).
- An abandoned streamed attempt can leave a trace: rows are written before the client is found gone, so an attempt
  of which the client saw nothing leaves its events behind exactly when the client was gone from the start and the
  run yields content (`StreamCreates.StreamCreate.ServeAttempt`; the comment at handler.py:2587 says no trace).
- The replay branch at handler.py:2695-2718 is dead: every attempt that is kept is content-free
  (`StreamCreates.StreamCreate.GiveUp`).
- The window is not `window_seconds` long, because a rotation forgets a fraction of a second. The limit is kept in
  closed intervals of up to `window - 1` seconds and of no greater length (`SlidingWindows.WindowIsKeptIff`); a charge
  is certain to be counted up to that age (`SlidingWindows.AlwaysCountedIff`) and can be counted at any age below
  `2 * window - 1` seconds (`SlidingWindows.SometimesCountedIff`), for every window.
- When reading the table back fails, the snapshot judges by the baseline, although the log line announces a full
  rewrite (handler.py:4413-4438), and a key that joined since is rewritten although its row is right
  (`HealthSnapshots.CorrectRowIsRewrittenIff`, `HealthSnapshots.NewcomerIsRewritten`).
- A read-back does not repair a key whose save fails in that round (`HealthSnapshots.ReadBackRestoresSync`).
- A reload makes a key without a positive id healthy again, even an invalid one (`KeyHealths.InvalidIsKeptIff`).
- Cancelling a waiter that was just notified can lose its wake-up (`ConcurrencyGates.WakeupCanBeLost`, and when it
  does no harm `ConcurrencyGates.CancellingNotifiedKeepsWakeupsIff`). This is about a runtime whose condition
  variable lets a cancelled waiter swallow its notification; newer versions of `asyncio.Condition` pass it on, and
  pyproject.toml admits every version from 3.10 on.
- Loading a capture that shows nothing starts numbering at 0 again (`Captures.LoadReplaysTheSame`).
- A login window longer than 24 hours is cut short by the purge (`LoginLimiters.AnswersAgreeIff`,
  `LoginLimiters.LongWindowForgets`).
- A generated item id is streamed but missing from the completed response
  (`SsePrinters.CompletedHasStreamedIdsIff`).

## Model

| member | source | states |
|---|---|---|
| EventLogs.DeferredEventLog.AppendEvent | src/zhongzhuan/proxy/handler.py:713-717 | an event is held back until the attempt is claimed and goes straight to the log afterwards |
| EventLogs.DeferredEventLog.Commit | src/zhongzhuan/proxy/handler.py:719-726 | the held events reach the log once, in order; a second commit adds nothing |
| EventLogs.DeferredEventLog.Discard | src/zhongzhuan/proxy/handler.py:728-730 | the held events are gone and the log is untouched |
| EventLogs.RowsAreNumbered | src/zhongzhuan/responses_v3/pipeline.py:314-325 | the rows of one attempt are numbered 0, 1, 2 and so on, and added to a log without that response id no `(response_id, seq)` repeats |
| StreamCreates.Client.WriteAll | src/zhongzhuan/proxy/handler.py:2571-2572 | the client gets exactly as many of the frames as its connection takes, and all of them exactly when it takes that many |
| StreamCreates.CommitAttempt | src/zhongzhuan/proxy/handler.py:2567-2573 | held events first, then the stream is opened, then the held frames follow in order, as many as the connection takes |
| StreamCreates.TakeStep | src/zhongzhuan/proxy/handler.py:2561-2574 | one step keeps client and log even with the steps taken, or finds the client gone exactly when the steps need more operations than it takes |
| StreamCreates.TakeFrame | src/zhongzhuan/proxy/handler.py:2561-2574 | a frame goes straight to the client of a committed attempt and to the held frames of another; the first with content commits the attempt |
| StreamCreates.ConsumeAttempt | src/zhongzhuan/proxy/handler.py:2555-2583 | nothing reaches client or log before the first content frame; from then on the client gets exactly the frames its patience allows and the log the rows of exactly the steps taken, up to the first at which the client is found gone |
| StreamCreates.StreamCreate.TryCall | src/zhongzhuan/proxy/handler.py:2349-2512 | one resolved call, case by case: a full local window leads to the next key and marks this one as tried; a 429 before the network stops the request and another fault leads to the next key, neither marking it; without a fault a connection is opened |
| StreamCreates.StreamCreate.Connect | src/zhongzhuan/proxy/handler.py:2399-2512 | one connection, case by case: the key is tried whatever comes; effort fields rejected with 400 or 422 are taken out once for a key as long as some are left; any other error status is remembered and leads to the next key; only a client that closes stops the request |
| StreamCreates.StreamCreate.OpenUpstream | src/zhongzhuan/proxy/handler.py:2349-2523 | the selected key is called, and once more on the same key exactly when the body was healed |
| StreamCreates.StreamCreate.NextUpstream | src/zhongzhuan/proxy/handler.py:2344-2523 | the key opened is the one `_v3_select_retry_key` chooses; the loop ends exactly when it chooses none |
| StreamCreates.StreamCreate.ServeAttempt | src/zhongzhuan/proxy/handler.py:2525-2607 | two-phase commit of one attempt; rows stay behind although nothing was sent exactly when the client was gone from the start and the run yields content |
| StreamCreates.StreamCreate.Abandon | src/zhongzhuan/proxy/handler.py:2651-2685 | a truncated attempt is kept with its reason and an empty one dropped; what is kept has no content frame |
| StreamCreates.StreamCreate.GiveUp | src/zhongzhuan/proxy/handler.py:2687-2789 | with nothing committed there is never anything to replay; the last upstream error is passed through exactly for 401, 403 or another 4xx that no retry helps, if it had a body; otherwise the code is `empty_upstream_response` without a recorded reason and `upstream_unavailable` with one |
| StreamCreates.StreamCreate.Turn | src/zhongzhuan/proxy/handler.py:2344-2685 | one turn follows the course of the request: it goes on with nothing committed, or concludes with the two-phase guarantee |
| StreamCreates.StreamCreate.Serve | src/zhongzhuan/proxy/handler.py:2525-2685 | a run ends the loop exactly when it reached content or was interrupted; then client and log have exactly what the patience of the client allows, otherwise neither has anything |
| StreamCreates.StreamCreate.Run | src/zhongzhuan/proxy/handler.py:2275-2789 | whole request: it asks exactly the upstreams of its course and gives the answer of the course; the client has exactly the frames of the last run that its patience allows and the log only that run's rows, with no repeated `(response_id, seq)`; a connected client gets a stream, and all of it, exactly when some upstream asked yielded content; at most min(candidates, 6) + 1 connections open |
| Deliveries.SentIsWhatPatienceAllows | src/zhongzhuan/proxy/handler.py:2559-2583 | what is sent is a beginning of the frames of the steps taken, nothing without content, and one frame for every operation after the opening of the stream |
| Deliveries.WholeRunIsDeliveredIff | src/zhongzhuan/proxy/handler.py:2559-2583 | a run with content is delivered whole exactly when the client takes an operation for the opening and one for every frame |
| StreamCourses.ConnectionsAreBounded | src/zhongzhuan/proxy/handler.py:2304-2523 | each key is opened at most once and one single key once more after healing the shared body: at most min(candidates, 6) + 1 connections over any failure pattern |
| StreamCourses.RejectedKeyIsAskedAgain | src/zhongzhuan/proxy/handler.py:2446-2464 | a key is called a second time, at once and without the effort fields, exactly when its upstream rejected them and some were left |
| StreamCourses.ServedAreTheAnswers | src/zhongzhuan/proxy/handler.py:2344-2523 | the runs served are exactly the 200 answers to the connections opened, in order |
| StreamCourses.CourseEndsWhen | src/zhongzhuan/proxy/handler.py:2344-2685 | a course ends with the first run that reached content or was interrupted, with an early refusal, or when all turns are spent or no key is left; never before |
| StreamCourses.RefusedEarlyIff | src/zhongzhuan/proxy/handler.py:2368-2397 | the request is answered 429 at once exactly when the last call prepared was refused so before the network, never because of a full local window; no call follows such a refusal |
| StreamCourses.ConnectedRunsEnd | src/zhongzhuan/proxy/handler.py:2344-2685 | while connections last the answer is a stream exactly when some upstream yielded content |
| StreamCourses.ReasonIsRecordedIff | src/zhongzhuan/proxy/handler.py:2665-2666 | the reason in the gateway error is there exactly when some run recorded one |
| StreamProxies.DelayClosedForm | src/zhongzhuan/proxy/handler.py:5945-5949 | the i-th pause is min(2 * 1.5^i, 30) seconds |
| StreamProxies.PausesBeforeDefaultDeadline | src/zhongzhuan/proxy/handler.py:5912-5949 | n pauses take less than 900 seconds exactly when n <= 34 |
| StreamProxies.StreamProxy.SelectKey | src/zhongzhuan/proxy/handler.py:5158-5209 | the bound key first, then failover order until the fallback group, then the best available key; a cooling key only while the degraded wait is still to come; always one not tried in this round |
| StreamProxies.StreamProxy.CallKey | src/zhongzhuan/proxy/handler.py:5202-5767 | every call goes on record with what came of it; the failure count is the number of rejected, broken off and empty calls on record, and the request ends exactly at a call that ends it; a key whose window is full is passed over |
| StreamProxies.StreamProxy.HandleAnswer | src/zhongzhuan/proxy/handler.py:5203-5767 | which answers end the request, call by call: delivery, a client that left, an error no retry helps except the one that only changes the protocol, and the third rejected, broken off or empty call |
| StreamProxies.StreamProxy.Round | src/zhongzhuan/proxy/handler.py:5157-5767 | the calls of a round go to different keys and are all on record; `allSame` is true exactly when all exceptions on record are of one kind; the round stops early only when a call ends the request or no key is left to select |
| StreamProxies.RecordedSnoc | src/zhongzhuan/proxy/handler.py:5203-5767 | tally and record of a round stay in step, call by call |
| StreamProxies.StreamProxy.Settle | src/zhongzhuan/proxy/handler.py:5769-5949 | after a round the fallback group is asked for first and once; if there is one its keys are the candidates and a round over it starts; otherwise the order is breaker, invalid pool, degraded wait or refusal, deadline, pause, and the measure decreases |
| StreamProxies.StreamProxy.OpenFallback | src/zhongzhuan/proxy/handler.py:5773-5783 | a fallback round starts exactly when the fallback group has keys, and these are the candidates then |
| StreamProxies.StreamProxy.SettleWithout | src/zhongzhuan/proxy/handler.py:5785-5949 | the breaker opens exactly when all exceptions were of one kind and no degraded wait is due; the pool is reported invalid exactly when it is and the breaker did not open; every other ending says why no wait and no pause followed |
| StreamProxies.StreamProxy.WaitForCooldown | src/zhongzhuan/proxy/handler.py:5875-5890 | the wait happens exactly when it did not happen before, the remaining cooldown is at most 30 seconds and it ends before the deadline |
| StreamProxies.StreamProxy.Pause | src/zhongzhuan/proxy/handler.py:5941-5949 | a pause starts only before the deadline, and doubles as the termination measure |
| StreamProxies.StreamProxy.Run | src/zhongzhuan/proxy/handler.py:5136-5949 | the request ends whatever the calls come to, with the first call that ends it, or for a reason that holds after a last round that called different keys until every candidate had its turn or none was left to select; then the fallback group was asked for, and was empty or had the last round; at most 3 calls on record failed before payload, the breaker opens only when all exceptions of that round are of one kind, no pause started after the deadline, at most 35 pauses at the default deadline, at most 3 rounds when degraded |
| Failover.PickKey | src/zhongzhuan/proxy/scheduler.py:63-71 | the best available key of the pool, or nothing when none is available |
| Failover.PickIsFirstBest | src/zhongzhuan/proxy/scheduler.py:63-71 | of several keys with the highest score the first is picked |
| Failover.NextKeyIsPickOfCurrentTier | src/zhongzhuan/proxy/handler.py:1216-1237 | the answer is the pick of the first member with an untried candidate |
| Failover.NoKeyExactlyWhen | src/zhongzhuan/proxy/handler.py:1217-1237 | exactly when no key comes back, including the stall in front of a cooling member |
| Failover.CoolingPrimaryHidesBackup | src/zhongzhuan/proxy/handler.py:1217-1237 | instance of the stall |
| Failover.NextKeyIsUntried | src/zhongzhuan/proxy/handler.py:1217-1237 | the key is an untried candidate of a listed member |
| Failover.VisitsNeverRepeat | src/zhongzhuan/proxy/handler.py:1217-1237 | asked again and again with a growing `tried`, no key comes twice |
| Failover.VisitsDrainTiersInOrder | src/zhongzhuan/proxy/handler.py:1217-1237 | no key of a later member before every candidate of an earlier one |
| Failover.VisitsEveryListedCandidate | src/zhongzhuan/proxy/handler.py:1217-1237 | with available keys all listed candidates are visited |
| Failover.SelectRetryKey | src/zhongzhuan/proxy/handler.py:3064-3088 | the routed key as long as it is untried, then failover order when there is one, otherwise the best untried candidate; always untried |
| Failover.SetGroup | src/zhongzhuan/proxy/handler.py:1053-1094 | member set and member order name the same ids, in sorted order |
| Failover.MemberIsRanked | src/zhongzhuan/proxy/handler.py:1074-1084 | what a member contributes wherever it stands: nothing without an id, and `ord` 0 when it is bare or has none |
| Failover.MemberOrderIsStableSort | src/zhongzhuan/proxy/handler.py:1053-1094 | the order is ascending by `ord`, stable, and loses nothing |
| Failover.SortKeepsMembers | src/zhongzhuan/proxy/handler.py:1053-1094 | sorting loses no member and adds none |
| ConcurrencyGates.ConcurrencyGate.PoolFor | src/zhongzhuan/proxy/concurrency.py:204-220 | a pool is created at full size when first asked for |
| ConcurrencyGates.ConcurrencyGate.AcquireModel | src/zhongzhuan/proxy/concurrency.py:222-248 | a model request plans the global pool, the pool of its tenant exactly when tenants have a limit, that of its model exactly when models have one, in this order, and no other |
| ConcurrencyGates.ConcurrencyGate.AcquireIsolated | src/zhongzhuan/proxy/concurrency.py:261-284 | tool and background requests plan one pool of their own |
| ConcurrencyGates.ConcurrencyGate.PassWaitLoop | src/zhongzhuan/proxy/concurrency.py:130-149 | one pass of the wait loop takes a slot, gives up or goes to sleep as the step system says |
| ConcurrencyGates.ConcurrencyGate.TimeOut | src/zhongzhuan/proxy/concurrency.py:141-146 | an expired sleeper leaves the queue; an expired notified waiter still looks for a slot |
| ConcurrencyGates.ConcurrencyGate.CancelAcquire | src/zhongzhuan/proxy/concurrency.py:244-247 | a cancelled acquisition leaves the queue and starts to roll back |
| ConcurrencyGates.ConcurrencyGate.ReleaseHold | src/zhongzhuan/proxy/concurrency.py:164-169 | a hold is released once |
| ConcurrencyGates.ConcurrencyGate.ReturnLast | src/zhongzhuan/proxy/concurrency.py:151-169 | pools go back in reverse order, each return notifying the longest sleeper |
| ConcurrencyGates.LongestSleeperIsNotified | src/zhongzhuan/proxy/concurrency.py:151-154 | a returned slot notifies the longest sleeper of its pool and nobody else |
| ConcurrencyGates.StepConservesSlots | src/zhongzhuan/proxy/concurrency.py:126-169 | every step keeps free slots plus slots held equal to the size of every pool |
| ConcurrencyGates.ReachableConservesSlots | src/zhongzhuan/proxy/concurrency.py:126-284 | conservation in every reachable state, across timeouts, cancellation and double release |
| ConcurrencyGates.LimitsAreKept | src/zhongzhuan/proxy/concurrency.py:204-248 | in every reachable state the global limit bounds the model requests that hold their slots at once, a positive tenant limit those of each tenant, and a positive model limit those of each model |
| ConcurrencyGates.IsolatedLimitsAreKept | src/zhongzhuan/proxy/concurrency.py:261-284 | in every reachable state no more tool or background requests hold a slot than their pool has |
| ConcurrencyGates.StepWakes | src/zhongzhuan/proxy/concurrency.py:126-154 | every step but the cancellation of a notified waiter keeps enough notified waiters for the free slots |
| ConcurrencyGates.NoLostWakeup | src/zhongzhuan/proxy/concurrency.py:126-154 | no wake-up is lost in any interleaving |
| ConcurrencyGates.CancellingNotifiedKeepsWakeupsIff | src/zhongzhuan/proxy/concurrency.py:126-154 | after a notified waiter is cancelled somebody is awake for a free slot beside sleepers exactly when no slot is free, nobody sleeps, or another request is awake there; two free slots are always enough |
| ConcurrencyGates.WakeupCanBeLost | src/zhongzhuan/proxy/concurrency.py:126-154 | a run that ends with a free slot, a sleeping request and nobody able to run, after a notified waiter was cancelled |
| ConcurrencyGates.TimeoutOnlyWhenFull | src/zhongzhuan/proxy/concurrency.py:131-149 | `QueueTimeout` exactly when no slot is free and the time is up |
| ConcurrencyGates.FreeSlotHasTaker | src/zhongzhuan/proxy/concurrency.py:126-154 | a free slot never sits idle beside a sleeping queue |
| ConcurrencyGates.TopTargetIsFree | src/zhongzhuan/proxy/concurrency.py:222-248 | whoever of a family waits at the highest layer finds its pool unused |
| ConcurrencyGates.DeadlockFree | src/zhongzhuan/proxy/concurrency.py:222-248 | for layered, tool and background requests each: with no completed hold of the family outstanding, some acquiring request of the family can run and gets its next slot, whatever the others hold |
| ConcurrencyGates.ReachablePlansFit | src/zhongzhuan/proxy/concurrency.py:204-220 | a reachable state never plans a pool without slots, and no request mixes layered, tool and background pools |
| ConcurrencyGates.NoReachableDeadlock | src/zhongzhuan/proxy/concurrency.py:204-284 | deadlock freedom of each family in every reachable state |
| ConcurrencyGates.SomeoneProceeds | src/zhongzhuan/proxy/concurrency.py:164-248 | also while requests roll back: with no complete hold of the family outstanding some request of the family returns or takes a slot |
| ConcurrencyGates.ReachableProceeds | src/zhongzhuan/proxy/concurrency.py:164-284 | the same of every reachable state |
| ConcurrencyGates.IsolatedStepsTouchNoLayer | src/zhongzhuan/proxy/concurrency.py:261-284 | tool and background traffic never changes a global, tenant or model pool |
| SlidingWindows.SlidingWindow.RotateInPlace | src/zhongzhuan/proxy/ratelimit.py:22-35 | the shift loop computes the rotated window |
| SlidingWindows.SlidingWindow.Allow | src/zhongzhuan/proxy/ratelimit.py:37-43 | a charge is admitted exactly when there is no limit or the rotated total stays within it, and recorded exactly when admitted |
| SlidingWindows.SlidingWindow.Add | src/zhongzhuan/proxy/ratelimit.py:45-51 | a positive amount is charged after rotation, anything else changes nothing |
| SlidingWindows.SlidingWindow.CurrentUsage | src/zhongzhuan/proxy/ratelimit.py:53-55 | the total after rotation |
| SlidingWindows.RunKeepsInv | src/zhongzhuan/proxy/ratelimit.py:12-55 | over any run every bucket holds the log of one slot, and slots and seconds stay in step |
| SlidingWindows.TotalIsRecentSuffix | src/zhongzhuan/proxy/ratelimit.py:12-55 | two-sided bound: the total is the sum of a suffix of the charge log, with everything up to W - 1 seconds old and nothing 2W - 1 seconds old |
| SlidingWindows.AdmissionBound | src/zhongzhuan/proxy/ratelimit.py:37-43 | with a fixed limit and any mix of `allow`, `add` and `current_usage`, no closed interval of W - 1 seconds holds more than `limit` units admitted by `allow` |
| SlidingWindows.WindowIsKeptIff | src/zhongzhuan/proxy/ratelimit.py:22-43 | the limit holds in all closed intervals of a length exactly for lengths up to W - 1, for every W |
| SlidingWindows.AlwaysCountedIff | src/zhongzhuan/proxy/ratelimit.py:22-55 | a charge is certain to be counted exactly up to the age W - 1 |
| SlidingWindows.SometimesCountedIff | src/zhongzhuan/proxy/ratelimit.py:22-55 | a charge can still be counted exactly below the age 2W - 1 |
| KeyHealths.KeyHealth.NormalizeExpiredCooldown | src/zhongzhuan/proxy/ratelimit.py:224-243 | a transient status whose cooldown has passed becomes healthy, nothing else changes |
| KeyHealths.MergeKey | src/zhongzhuan/proxy/handler.py:4067-4107 | without an old key the loaded one starts healthy; otherwise the limits are the stricter ones, the token window follows, and the failure record is that of the old key while it is invalid or cooling and the loaded one when it is healthy or its cooldown has passed |
| KeyHealths.ReloadKeys | src/zhongzhuan/proxy/handler.py:4052-4108 | the whole pool is merged, each key with the last old key of its id, and the old keys stay as they were |
| KeyHealths.PoolFollowsMerges | src/zhongzhuan/proxy/handler.py:4060-4108 | through any number of reloads of the pool that keep a key with a positive id, the key goes through merges of its own |
| KeyHealths.InvalidIsKeptIff | src/zhongzhuan/proxy/handler.py:4063-4107 | an invalid key that every reload keeps stays invalid exactly when its id is positive |
| KeyHealths.InvalidStaysInvalid | src/zhongzhuan/proxy/handler.py:4082-4092 | through any number of reloads an invalid key stays invalid with its record |
| KeyHealths.InvalidAfterReloadsIff | src/zhongzhuan/proxy/handler.py:4082-4103 | a key is invalid after its reloads exactly when it was before, or some load said so while it was not cooling |
| KeyHealths.CooldownIsKept | src/zhongzhuan/proxy/handler.py:4093-4102 | so does an unexpired cooldown, with the whole record of the failure |
| KeyHealths.RecoveredIsAsLoaded | src/zhongzhuan/proxy/handler.py:4082-4103 | a key that is healthy or whose cooldown has passed comes out of a reload with the status, cooldown and failure record that were loaded |
| KeyHealths.LimitsOnlyTighten | src/zhongzhuan/proxy/handler.py:4071-4076 | rpm and tpm limits end as the strictest seen, with 0 as infinity |
| HealthSnapshots.RowOf | src/zhongzhuan/proxy/handler.py:4440-4454 | the fingerprint of the saved row is the fingerprint of the key |
| HealthSnapshots.FingerprintsAreEqualIff | src/zhongzhuan/store/key_health.py:74-91 | key and row have one fingerprint exactly when the row says of each of the nine fields what the key says, a NULL standing for nothing learned |
| HealthSnapshots.FingerprintIsFaithful | src/zhongzhuan/proxy/handler.py:111-132 | two keys have one fingerprint exactly when they agree in the nine fields |
| HealthSnapshots.HealthSnapshot.SnapshotOnce | src/zhongzhuan/proxy/handler.py:4385-4462 | one round does to every key's baseline and row what the per-key rule says, normalizes the keys, and returns the number of rows written |
| HealthSnapshots.WritesAreCounted | src/zhongzhuan/proxy/handler.py:4421-4462 | the number returned is the number of visits that write a row |
| HealthSnapshots.RoundIsItsVisits | src/zhongzhuan/proxy/handler.py:4422-4425 | the round does to every key with a positive id what its visit says and touches no other |
| HealthSnapshots.HealthSnapshot.VisitAll | src/zhongzhuan/proxy/handler.py:4422-4462 | the loop over the pool, with the rows written counted |
| HealthSnapshots.HealthSnapshot.VisitNth | src/zhongzhuan/proxy/handler.py:4423-4461 | one step of the round, keys without a positive id skipped |
| HealthSnapshots.HealthSnapshot.VisitKey | src/zhongzhuan/proxy/handler.py:4430-4461 | a key is saved exactly when it differs from the truth or the baseline and the save works; each of the nine columns of the row is the field of the key |
| HealthSnapshots.RoundKeepsSync | src/zhongzhuan/proxy/handler.py:4385-4462 | every baseline entry equals the stored fingerprint, round after round |
| HealthSnapshots.ReadBackRestoresSync | src/zhongzhuan/proxy/handler.py:4411-4438 | exactly when a read-back repairs what an outside writer did |
| HealthSnapshots.RoundStoresHealth | src/zhongzhuan/proxy/handler.py:4385-4462 | a key whose save did not fail has the row a full rewrite would store |
| HealthSnapshots.SettledKeyIsLeftAlone | src/zhongzhuan/proxy/handler.py:4431-4461 | what a round found right or saved the next one leaves alone, whether it reads back or not |
| HealthSnapshots.FailedKeyIsTriedAgain | src/zhongzhuan/proxy/handler.py:4455-4459 | a key whose save failed is tried again by the next round |
| HealthSnapshots.CorrectRowIsRewrittenIff | src/zhongzhuan/proxy/handler.py:4411-4461 | exactly when a row that is right is written again |
| HealthSnapshots.NewcomerIsRewritten | src/zhongzhuan/proxy/handler.py:4411-4461 | instance with a non-empty baseline |
| HealthSnapshots.RoundRefinesFullRewrite | src/zhongzhuan/proxy/handler.py:4385-4462 | one incremental round agrees with one full rewrite |
| HealthSnapshots.RunRefinesFullRewrites | src/zhongzhuan/proxy/handler.py:4385-4462 | so does any number of rounds, whichever saves fail |
| SseScanner.Scanner.Scan | src/zhongzhuan/proxy/handler.py:903-951 | one call classifies every completed line once, in order, and keeps what follows the last newline; there was output exactly when some completed line is output, and the error is that of the last completed line with one |
| SseScanner.ClassIsOfTheObject | src/zhongzhuan/proxy/handler.py:924-948 | a line is output exactly when the object it carries, behind `data:` or not and with any blanks around it, has output and no top-level error; it is a failure exactly when that object has that error |
| SseScanner.NothingElseCounts | src/zhongzhuan/proxy/handler.py:926-938 | a line that is not an object in braces, with or without `data:` and blanks around it, is ignored |
| SseScanner.PiecesAreData | src/zhongzhuan/proxy/handler.py:917-951 | lines and rest are the data, nothing lost, no newline inside |
| SseScanner.CutContinues | src/zhongzhuan/proxy/handler.py:917-951 | cutting in two steps is cutting at once |
| SseScanner.ChunkingDoesNotMatter | src/zhongzhuan/proxy/handler.py:903-951 | buffer, flag, last error and lines are those of one call on the whole string |
| SseScanner.SameStreamSameVerdict | src/zhongzhuan/proxy/handler.py:903-951 | two ways of cutting one stream cannot be told apart |
| SsePrinters.Printer.Emit | src/zhongzhuan/proxy/handler.py:2966-2979 | sequence numbers are 0, 1, 2 and so on |
| SsePrinters.Printer.PrintDeltas | src/zhongzhuan/proxy/handler.py:3019-3030 | the 120-character loop prints the deltas of the text |
| SsePrinters.Printer.PrintPart | src/zhongzhuan/proxy/handler.py:3004-3050 | the events of one part |
| SsePrinters.Printer.PrintItem | src/zhongzhuan/proxy/handler.py:2994-3057 | the events of one item; what is not a dictionary is skipped |
| SsePrinters.Printer.PrintOutput | src/zhongzhuan/proxy/handler.py:2994-3057 | items keep their original index |
| SsePrinters.Printer.PrintResponse | src/zhongzhuan/proxy/handler.py:2952-3062 | the whole stream, numbered without gaps |
| SsePrinters.DeltasReadBack | src/zhongzhuan/proxy/handler.py:3019-3030 | the deltas of a text add up to the text, and all but the last have 120 characters |
| SsePrinters.ResponseReadsBack | src/zhongzhuan/proxy/handler.py:2952-3062 | a strict reader accepts every stream (nesting, order, delta size, closing texts, response id, a completed response with the items and texts read), rebuilds every output text exactly, keeps the final output, and finds every item under its own id or the one generated for its position |
| PromptInjection.SanitizedIsClean | src/zhongzhuan/proxy/client_presets.py:126-147 | no marker is left in any mix of cases, and none arises |
| PromptInjection.SanitizedUnchangedIff | src/zhongzhuan/proxy/client_presets.py:126-147 | a text is left alone exactly when it has no marker |
| PromptInjection.SanitizedAroundMarker | src/zhongzhuan/proxy/client_presets.py:126-147 | the text in front of the first marker is kept, the neutral word takes its place, and the rest is sanitized by itself |
| PromptInjection.SanitizeContent | src/zhongzhuan/proxy/handler.py:3275-3307 | the block loop with its `changed` flag sanitizes every text block |
| PromptInjection.FilledInIsEmptyIff | src/zhongzhuan/proxy/client_presets.py:170-190 | a filled-in template is empty exactly when it has nothing but placeholders and they are filled with nothing |
| PromptInjection.FilledInAroundPlaceholder | src/zhongzhuan/proxy/client_presets.py:187-190 | the text in front of the first placeholder is kept, the model takes its place, and the rest is filled in by itself |
| PromptInjection.ShippedPrefix | src/zhongzhuan/proxy/client_presets.py:170-190 | with the shipped preset the prefix begins with its words and the model, and is just that without the file |
| PromptInjection.PrefixIsOfTheFirstTemplate | src/zhongzhuan/proxy/client_presets.py:182-190 | the file counts before the short text and the short text before the default |
| PromptInjection.PrefixIsNotEmpty | src/zhongzhuan/proxy/client_presets.py:150-190 | with its fallbacks the prefix is never empty, for every model |
| PromptInjection.SanitizeFrom | src/zhongzhuan/proxy/handler.py:3356-3370 | instructions from a position on are sanitized in place, nothing else changes |
| PromptInjection.InjectSystemMessage | src/zhongzhuan/proxy/handler.py:3338-3372 | both branches compute the injected list, with the prefix of the preset |
| PromptInjection.FingerprintIff | src/zhongzhuan/proxy/handler.py:3344-3350 | a system message identifies the client exactly when its text begins, but for spaces, with the words of the prefix |
| PromptInjection.InjectedForm | src/zhongzhuan/proxy/handler.py:3338-3372 | every message is kept in its place, instructions with their texts sanitized and nothing else changed; a first message that identifies the client stays as it is, otherwise the prefix is put in front |
| PromptInjection.InjectedIsAcceptable | src/zhongzhuan/proxy/handler.py:3310-3374 | the first message identifies the client, and no instruction behind it has the marker |
| PromptInjection.InjectedIsIdempotent | src/zhongzhuan/proxy/handler.py:3310-3374 | injecting twice is injecting once |
| PromptInjection.ShippedPresetIsInjectedOnce | src/zhongzhuan/proxy/client_presets.py:36-59 | with the preset as shipped, for every model and whether or not its file can be read, the injected list is acceptable and injecting again changes nothing |
| PromptInjection.AcceptableIsUnchanged | src/zhongzhuan/proxy/handler.py:3343-3361 | a list that is fine is not touched |
| PromptInjection.InjectionKeepsConversation | src/zhongzhuan/proxy/handler.py:3310-3374 | messages that are not instructions are kept, in order |
| Captures.EntryRoundTrip | src/zhongzhuan/observability/capture.py:149-178 | `from_dict(to_dict(e)) == e` |
| Captures.FieldsAreWritten | src/zhongzhuan/observability/capture.py:149-165 | each field is written under its own name, the optional ones exactly when they are not empty |
| Captures.DebugCapture.Capture | src/zhongzhuan/observability/capture.py:286-302 | prune, number, append: the newest entry is the projection with the time and the next number |
| Captures.DebugCapture.Replay | src/zhongzhuan/observability/capture.py:304-317 | the dictionaries of the entries not too old, in order |
| Captures.DebugCapture.LoadFrom | src/zhongzhuan/observability/capture.py:328-348 | entries are appended in order and numbering goes on behind the last |
| Captures.DebugCapture.Clear | src/zhongzhuan/observability/capture.py:354-360 | everything but the counter is reset |
| Captures.DebugCapture.Append | src/zhongzhuan/observability/capture.py:362-373 | room is made from the old end, then the entry is added |
| Captures.DebugCapture.EvictOldest | src/zhongzhuan/observability/capture.py:375-390 | one entry leaves, counted under its reason |
| Captures.DebugCapture.PruneExpired | src/zhongzhuan/observability/capture.py:392-397 | the expired front leaves |
| Captures.RunAgreesWithLog | src/zhongzhuan/observability/capture.py:286-397 | after any run the buffer is the recorded history without its dropped and expired oldest entries, its byte count is exact and the caps hold |
| Captures.CaptureDropsLeast | src/zhongzhuan/observability/capture.py:286-397 | after any events one more entry costs the entries older than the time to live at the front and then as few as make it fit both caps: with one fewer dropped it would not fit |
| Captures.LogIsNumbered | src/zhongzhuan/observability/capture.py:286-302 | numbers are consecutive and end at the counter |
| Captures.PruningIsFiltering | src/zhongzhuan/observability/capture.py:392-397 | with a clock that does not go back, pruning is filtering by age |
| Captures.EntryIsShownIff | src/zhongzhuan/observability/capture.py:304-317 | an entry is shown exactly when there is no time to live or it is not older, whatever the others are, and the order stays |
| Captures.PruningHidesNothing | src/zhongzhuan/observability/capture.py:304-317 | pruning never removes what a replay, then or later, would show |
| Captures.ReplayShowsTheLog | src/zhongzhuan/observability/capture.py:286-317 | while the caps drop nothing, a replay shows exactly the history that is not too old |
| Captures.LoadingEvictsNothing | src/zhongzhuan/observability/capture.py:328-348 | entries that fit the caps are loaded without an eviction |
| Captures.LoadReplaysTheSame | src/zhongzhuan/observability/capture.py:304-348 | load of a dump replays the identical list; numbering goes on as in the original exactly when something was shown or nothing recorded |
| Metrics.LabelKeyIsFaithful | src/zhongzhuan/observability/metrics.py:78-92 | a key is found exactly for the declared labels and holds their values in the order of the names; different label sets have different keys; an unknown label is reported before a missing one |
| Metrics.Counter.Inc | src/zhongzhuan/observability/metrics.py:128-134 | the increment goes to its series or to the overflow; a wrong label set changes nothing |
| Metrics.SumIsConserved | src/zhongzhuan/observability/metrics.py:108-134 | the series add up to all increments |
| Metrics.SeriesAreCapped | src/zhongzhuan/observability/metrics.py:108-134 | at most `max_series` series and the overflow, also for limits below 1 |
| Metrics.AdmittedIffEarly | src/zhongzhuan/observability/metrics.py:108-134 | a key has a series exactly when it is among the first `max_series` different ones, so a rejected key is never admitted later |
| Metrics.SeriesAreExact | src/zhongzhuan/observability/metrics.py:108-134 | every series but the overflow holds the full total of its labels |
| Metrics.EscapingIsPerCharacter | src/zhongzhuan/observability/metrics.py:51-54 | the three replacements do not interfere |
| Metrics.EscapedValueReadsBack | src/zhongzhuan/observability/metrics.py:51-54 | a reader gets any value back and stops right behind it |
| Metrics.LabelsReadBack | src/zhongzhuan/observability/metrics.py:94-99 | rendered labels read back to names and values |
| LoginLimiters.LoginLimiter.CheckLoginRate | src/zhongzhuan/admin/auth.py:267-272 | allowed exactly when fewer than `max` failures of the key lie in the window |
| LoginLimiters.LoginLimiter.RecordLoginFailure | src/zhongzhuan/admin/auth.py:275-284 | stale keys are purged, the key's list is pruned to the window and extended |
| LoginLimiters.LoginLimiter.ResetLoginFailures | src/zhongzhuan/admin/auth.py:287-292 | one key or all keys are forgotten |
| LoginLimiters.ChecksSeeTheLog | src/zhongzhuan/admin/auth.py:267-284 | with a window of at most 24 hours, a check sees what the unpruned log would show |
| LoginLimiters.AnswersAgreeIff | src/zhongzhuan/admin/auth.py:267-284 | every answer agrees with the unpruned log exactly for windows of at most 24 hours |
| LoginLimiters.LongWindowForgets | src/zhongzhuan/admin/auth.py:275-284 | the failing family, for every longer window |
| LoginLimiters.FailuresAreBounded | src/zhongzhuan/admin/auth.py:345-395 | with attempts one at a time no window-length interval without a success holds more than `max` recorded failures |

## Left out

- HTTP, sockets, asyncio tasks, database drivers, logging and metrics calls around the modelled code: steps and arbitrary answers stand for them.
- JSON decoding, the search for payload in a decoded object and the content test of a frame: arbitrary functions.
- The health score: any function per question, since the real one has a random term; `is_available` enters as a score above -1.
- ConcurrencyGates.ConcurrencyGate: pools and requests are values in two maps, so object identity of a pool is not modelled; the lock of a pool and the event loop appear only as the choice of which step comes next.
- Cancellation that arrives while a slot is being given back: what happens then depends on the version of the runtime.
- The closed gate, the persistence pool and the SQLite instance lock of concurrency.py: wrappers or not mutually exclusive step by step.
- StreamProxies.StreamProxy.Run: forwarding of bytes after the first payload, closing events of the translators and usage accounting are not modelled, so it does not say that only one attempt's bytes reach the client (the code can go on to another key after payload).
- StreamProxies.StreamProxy.OpenFallback: the keys of the fallback group are any answer to the question; that the source leaves out keys already tried is not used.
- StreamCreates.StreamCreate.Run: terminal records, sticky bindings, usage accounting and health marks are not modelled; an append to the event log always succeeds.
- KeyHealths.PoolFollowsMerges: reloads are followed without traffic in between, which may change a key in its own ways.
- HealthSnapshots.HealthSnapshot.SnapshotOnce: no other writer acts in the middle of a round; between rounds any may.
- SlidingWindows.SlidingWindow.Allow: a window of 0 seconds is excluded, where the source would index an empty list.
- SsePrinters.Printer.PrintResponse: the payload of an item beside its id and texts, its status text and the response header fields are not part of the events.
- PromptInjection.InjectSystemMessage: the parse and print of the body and the early returns in front of it, which pass the body on as it is; equality is equality of parsed messages.
- Captures.EntryRoundTrip: `str` and `float` conversions of dictionaries that `to_dict` did not write are not modelled.
- Captures.DebugCapture.Capture: the anonymising projection of an event is a parameter, and the size of an entry is any function of it.
- Metrics.Counter.Inc: label values are strings and sums are real numbers; the sorted label names are given; locks and rounding are not modelled.
- Metrics histograms, number formatting and rendering of whole families: single-branch code.
- Background workers, multi-agent orchestration, admin pages, configuration, crypto, migrations and tracing.
