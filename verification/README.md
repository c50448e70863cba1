# CloudMesh: verified model of the gateway's coordination logic

CloudMesh is an LLM gateway. Its hard logic sits in small atomic steps over shared state: Redis Lua
scripts, `SET NX` claims, Postgres transactions with a unique key, queue entries and outbox rows. Each
of these is modelled twice: as a function on values, and as a method of a class that updates the
fields in place and is proved equal to that function. The runs are made of the same functions. The
theorems are about arbitrary runs of those steps, with callers interleaving and with key expiry, crashes, late reports, lost acknowledgements and
redelivery as steps of the environment.

`dafny verify dfyconfig.toml` checks the whole project.

| file | what it models |
|---|---|
| `CircuitBreaker.dfy` | the three-state breaker's ATTEMPT and REPORT scripts, every interleaving of them, and runs of calls that do not overlap |
| `Cooldown.dfy` | each state of the breaker under any mix of attempts and reports by anybody |
| `FailureWindows.dfy` | the windows in which the breaker counts failures, over any sequence of calls |
| `ProbeExclusion.dfy` | the breaker with its calls in flight and a clock: when a half-open probe really runs alone |
| `Resilience.dfy` | the retry loop around the breaker, provider calls made and time slept |
| `RequestDedup.dfy` | leader/follower coalescing at the level of single Redis commands |
| `DedupLease.dfy` | when dedup has one leader at a time: which expiries are harmless, and the claim as a lease with a clock |
| `DedupFollowers.dfy` | what a waiting follower can still hope for, and the runs in which it is stranded |
| `DedupProgress.dfy` | that followers get the leader's result, and why fn runs or a caller throws |
| `DistributedLock.dfy` | the billing lock: lease, retries, compare-and-delete |
| `Billing.dfy`, `BulkChat.dfy` | idempotent usage recording with its outbox row, the soft budget, billing of job prompts |
| `TokenBucket.dfy`, `SlidingWindowLog.dfy`, `FixedWindow.dfy`, `SlidingWindowCounter.dfy` (with `Windows.dfy`, `WindowCounters.dfy`) | the four rate limiters, with Redis free to drop expired keys whenever it likes |
| `JobLifecycle.dfy` | job rows, queue entries, attempts, dead-lettering and replay |
| `OutboxPipeline.dfy` | outbox rows to broker stream to audit log |
| `Framing.dfy`, `Streaming.dfy` | the SSE writer, the SDK's reader and the provider line parsers |
| `AbSelection.dfy` | weighted A/B selection |

## Main results

* **A half-open probe runs alone exactly when `openDurationMs` exceeds twice the longest call**
  (`ProbeRunsAloneIff`). The scripts admit one probe per opening, but a call let through before the trip
  may still be running and may report in the probe's place. Twice, because a trip dates the opening back
  to the clock reading of the failed call. The same bound is exact for two probes at once (`OneProbeIff`).
  Both directions are proved over all runs, with callers that die, resets, expiry and force-opens.
* **Every closed-to-open trip is explained** by exactly `failureThreshold` failed calls begun within one
  `failureWindowMs`, all let through (`TripIsExplained`). Inside one window the breaker trips if and only
  if the failures reach the threshold (`TripsExactlyAtThreshold`); over any sequence of calls, if and only if
  some window of its partition alone does (`TripsIffAWindowIsFull`).
* **The cool-down is exact under any interleaving** (`CooldownIsExact`): whatever is attempted and reported
  meanwhile, the next attempt gets through iff openDurationMs has passed since the last failure at or over the
  threshold.
* **Retry and breaker together**: how a call ends in any world (`VerdictIff`, `OutcomeIsExact`); an always failing provider is called `min(failureThreshold,
  maxAttempts)` times, and the caller is told the service is unavailable iff the threshold came first
  (`FreshCircuitFailingProvider`).
* **Dedup does what it is for**: a result that stands is returned, a waiting follower returns what the next
  leader publishes (`FollowerGetsTheResult`), and fn runs only for a reason (`FnRunsForAReason`).
* **Dedup value safety** under any interleaving, expiry, crash or overwrite (`OutcomesAreGenuine`), and
  the exact command order behind the follower's recheck (`RecheckPrecedesPublish`).
* **One dedup leader at a time in all runs exactly when the time to live is longer than a leader takes**
  from its claim to its last command on the key (`OneLeaderIff`); without a clock, an expiry is harmless
  exactly when the writer of the key is finished (`ExpiryIsHarmlessIff`).
* **A waiting follower can still get a message exactly when some leader has its PUBLISH before it**
  (`MessageCanComeIff`), and is owed none by the leader it follows in exactly three cases
  (`OwedNothingIff`).
* **Lock**: never more than one caller inside, in all runs, exactly when the lease is longer than a critical
  section (`ExclusionIff`), and a release that never touches another caller's lock (`ReleaseSparesOthers`).
* **The usage table is exactly the first committed recordings** (`UsageIsFirstCommitted`).
* **Budget overshoot** is below what was in flight at the last admission (`OvershootIsBounded`); each
  prompt of a job is billed at most once under any crashes, retries and replays, and exactly once if an
  attempt completed (`CompletedJobIsBilledExactlyOnce`).
* **The token bucket denies nothing it need not**: a call is allowed iff granting it keeps the rate bound on
  every interval (`TokenBucket.AllowedExactly`).
* **Rate limiters**: exact decision of each (`AllowedExactly`), bounds over every run, key expiry that
  cannot be observed, and what the reported `resetAt` is worth for each.
* **Jobs**: one carrier per job, at most three runs per enqueue, dead-lettering exactly on the third
  failure, events equal to transitions; a replay keeps its job to one live queue entry exactly when no
  other replay stands between its check and its write (`ReplayIsSafeIff`), and a queued job can still run
  exactly when somebody carries it (`QueuedJobCanStartIff`).
* **Pipeline**: published means stored, nothing lost, at most one audit entry per event.
* **Streaming**: whatever the split into reads, the SDK's texts concatenate to what the gateway
  assembled (`StreamingRoundTrip`).

## Where the code and its documentation disagree

The model follows the code in each case.

* `packages/circuit-breaker/src/types.ts:6` calls the failure window rolling. It starts with its first
  call and does not roll: `WindowDoesNotRoll` is a run, and `RollingTripsIff` says exactly when a sequence
  on which a rolling window would trip trips this one.
* The breaker's comments promise exactly one probe. `StaleReportAdmitsSecondProbe` is a run with two;
  `OneProbeIff` is the condition.
* A failure reported late to an open circuit can move the end of the cool-down earlier; `LateReportKeepsCooldown`
  says exactly when it does not, and `LateReportShortensARun` is a run. REPORT answers `closed` for a circuit
  it leaves open in exactly one case: `ReportAnswerIsAccurate`, with `ReportAnswersClosedInARun`.
* Claims that do not expire while `fn` runs are not enough for one dedup leader at a time:
  `ExpiryAfterFnStillBreaksExclusion`. `ExpiryIsHarmlessIff` and `OneLeaderIff` are the exact conditions.
* `apps/gateway/src/lib/requestDedup.ts:31-37` says that a failed leader releases its followers at once and that
  the recheck keeps a follower from waiting for a message that has been sent. Neither holds in every run. A
  leader that fails before the follower subscribes has deleted the key, so the recheck finds nothing and the
  follower waits for a message already sent (`FailedLeaderStrandsFollower`). A message that arrives after the
  recheck and before the listener is lost (`MessageIsLostInARun`). `MessageCanComeIff` and `OwedNothingIff` are
  the exact conditions.
* A leader result of `null` leaves a waiting follower with neither result nor timeout (`NullMessageHangs`,
  `NullHangsInARun`) until some later message. The gateway's only use, at
  `apps/gateway/src/modules/chat/routes.ts:293-307`, passes a provider's chat response, whose type excludes null,
  so there `HangsOnlyOnNull` applies.
* `packages/jobs/src/service.ts:33-35` says a job whose enqueue failed is recoverable by replay. Replay
  accepts only dead-lettered jobs, so it never is: `OrphanedJobIsStuck`. Lines 225-228 say that the restriction to
  dead-lettered jobs prevents two live executions; two overlapping replays defeat it
  (`OverlappingReplaysDuplicate`), and `ReplayIsSafeIff` is the condition.
* The token bucket reports a finite `resetAt` for a request larger than the bucket, which is never allowed;
  `TokenBucket.ResetAtIsExact` covers both cases. The sliding counter's `resetAt` can be a moment too early:
  `ResetAtIsOneShort`, with `ResetAtFailsInARun`.

## Assumptions

Scripts, transactions and single Redis commands are atomic. Tokens and caller ids are unique. Arithmetic on
tokens, weights and money is over exact reals. Limiter clocks do not go backwards, and Redis expiry runs on
the same clock. Job status writes finish before the next attempt, jobs do not stall, and progress publishes
succeed. There is one outbox poller. JSON encoding is an abstract injective function whose output is enclosed
in braces and holds no newline (section 7 of RFC 8259).

## Model

| member | source | states |
|---|---|---|
| `CircuitBreaker.Circuit.RunAttempt` | packages/circuit-breaker/src/circuitBreaker.ts:14-53 | the in-place script equals `Attempt` on the whole hash, its decision and the state it names |
| `CircuitBreaker.Circuit.RunReport` | packages/circuit-breaker/src/circuitBreaker.ts:58-93 | the in-place script equals `Report` on the whole hash and its answer |
| `CircuitBreaker.Circuit.RunForceOpen` | packages/circuit-breaker/src/circuitBreaker.ts:112-119 | only state, openedAt and probeTaken change |
| `CircuitBreaker.Circuit.Delete` | packages/circuit-breaker/src/circuitBreaker.ts:105-107 | reset, like expiry, leaves no field behind |
| `CircuitBreaker.Circuit.WithCircuitBreaker` | packages/circuit-breaker/src/circuitBreaker.ts:133-161 | attempt, then a report with the same clock reading, or a rejection that changes nothing else; a success whose report's reply is lost is reported as a failure as well |
| `CircuitBreaker.ReachableIsSafe` | packages/circuit-breaker/src/circuitBreaker.ts:14-119 | in every interleaving half-open implies the probe is taken, and closed implies fewer failures than the threshold |
| `CircuitBreaker.ProbesAreSeparated` | packages/circuit-breaker/src/circuitBreaker.ts:38-52 | between two admitted probes of any run lies a report, force-open, reset or expiry |
| `CircuitBreaker.StaleReportAdmitsSecondProbe` | packages/circuit-breaker/src/circuitBreaker.ts:77-82 | a run in which an older call's report ends half-open under a running probe and a second probe starts |
| `CircuitBreaker.OpenAdmitsOneProbe` | packages/circuit-breaker/src/circuitBreaker.ts:38-52 | of any sequence of attempts on an open circuit exactly one gets through if one comes after the cool-down, else none |
| `CircuitBreaker.LateReportKeepsCooldown` | packages/circuit-breaker/src/circuitBreaker.ts:84-92 | a report to an open circuit leaves it open, and does not bring its end forward iff it succeeded, stays under the threshold or began after the trip |
| `CircuitBreaker.LateReportShortensARun` | packages/circuit-breaker/src/circuitBreaker.ts:84-89 | a run from a missing key in which an older call's failure moves openedAt back |
| `CircuitBreaker.ReportAnswerIsAccurate` | packages/circuit-breaker/src/circuitBreaker.ts:68-92 | the answer is the state left behind, except for a sub-threshold failure reported to an open circuit |
| `CircuitBreaker.ReportAnswersClosedInARun` | packages/circuit-breaker/src/circuitBreaker.ts:84-92 | a run in which a failure reported to a force-opened circuit answers closed |
| `CircuitBreaker.TripIsExplained` | packages/circuit-breaker/src/circuitBreaker.ts:25-36 | every trip ends a stretch of calls within one failureWindowMs, all made with the circuit closed, of which exactly failureThreshold failed, the tripping one among them |
| `CircuitBreaker.ClosedIsUnderThreshold` | packages/circuit-breaker/src/circuitBreaker.ts:84-92 | over runs of whole calls a closed circuit has used fewer failures than the threshold |
| `CircuitBreaker.TripsExactlyAtThreshold` | packages/circuit-breaker/src/circuitBreaker.ts:84-92 | within one window a sequence of calls trips the circuit iff the failures reach the threshold, whatever successes lie between |
| `CircuitBreaker.EveryOpeningStartsItsOwnCooldown` | packages/circuit-breaker/src/circuitBreaker.ts:77-89 | after a trip, a failed probe or a force-open, one caller gets through once openDurationMs has passed since then |
| `CircuitBreaker.SuccessfulProbeRestoresAllowance` | packages/circuit-breaker/src/circuitBreaker.ts:68-73 | after a successful probe it takes failureThreshold new failures to trip |
| `Cooldown.CooldownIsExact` | packages/circuit-breaker/src/circuitBreaker.ts:38-45 | through any reports and early attempts an open circuit stays open, dated by its last failure at or over the threshold or else by its opening, and the next attempt is let through iff openDurationMs has passed since |
| `Cooldown.QuietReportsLeaveCooldown` | packages/circuit-breaker/src/circuitBreaker.ts:68-92 | attempts, successes and sub-threshold failures, however late, leave the end of the cool-down where it was |
| `Cooldown.HalfOpenIsUndisturbed` | packages/circuit-breaker/src/circuitBreaker.ts:47-50 | attempts made while the probe is out are rejected and change nothing |
| `Cooldown.FailedProbeReopens` | packages/circuit-breaker/src/circuitBreaker.ts:77-82 | a failure reported to a half-open circuit starts a cool-down at its own clock reading and keeps the failure count |
| `Cooldown.ForcedOpenCoolsDown` | packages/circuit-breaker/src/circuitBreaker.ts:112-119 | so does a force-open in any state |
| `Cooldown.ClosedCountsFailures` | packages/circuit-breaker/src/circuitBreaker.ts:84-92 | through any reports and attempts within the window a closed circuit counts exactly the failures and lets everybody through while they stay under the threshold |
| `Cooldown.LastFailureOpens` | packages/circuit-breaker/src/circuitBreaker.ts:84-89 | the failure that reaches the threshold opens it, from its own clock reading on |
| `Cooldown.SuccessfulProbeCloses` | packages/circuit-breaker/src/circuitBreaker.ts:68-73 | a success reported to a half-open circuit begins a window with the whole allowance |
| `Cooldown.RolloverBeginsAnew` | packages/circuit-breaker/src/circuitBreaker.ts:32-34 | an attempt after the window forgets its failures, and late reports count against the new one |
| `Cooldown.LostReplyCountsAsFailure` | packages/circuit-breaker/src/circuitBreaker.ts:153-160 | a success whose report's reply is lost counts as a failure |
| `FailureWindows.TripsAcrossRollover` | packages/circuit-breaker/src/circuitBreaker.ts:25-34 | calls that cross the end of a window trip the circuit iff the failures before it, or those after it, reach the threshold alone |
| `FailureWindows.TripsIffAWindowIsFull` | packages/circuit-breaker/src/circuitBreaker.ts:25-36 | any calls in clock order trip a closed circuit iff some window, each beginning with the first call after the one before, holds failureThreshold failures |
| `FailureWindows.FreshCircuitTripsIff` | packages/circuit-breaker/src/circuitBreaker.ts:25-36 | the same from a missing key, the first window beginning with the first call |
| `FailureWindows.RollingTripsIff` | packages/circuit-breaker/src/types.ts:6 | failureThreshold failures within failureWindowMs of each other trip a fresh window iff they all lie on one side of its end |
| `FailureWindows.WindowDoesNotRoll` | packages/circuit-breaker/src/types.ts:6 | failureThreshold failures one millisecond apart that straddle two windows do not trip the circuit |
| `ProbeExclusion.TimelyRunsKeepInv` | packages/circuit-breaker/src/circuitBreaker.ts:133-161 | with calls no longer than half the cool-down: half-open has no call but its probe in flight, and calls in flight while open began within the limit of openedAt |
| `ProbeExclusion.HalfOpenIsDecidedByItsProbe` | packages/circuit-breaker/src/circuitBreaker.ts:68-82 | then a report that ends half-open is the probe's own and leaves nothing in flight |
| `ProbeExclusion.ShortCooldownOverlaps` | packages/circuit-breaker/src/circuitBreaker.ts:38-45 | for every configuration with a shorter cool-down, a timely run in which the probe starts beside an older call |
| `ProbeExclusion.ProbeRunsAloneIff` | packages/circuit-breaker/src/circuitBreaker.ts:121-161 | the probe is alone in all timely runs iff openDurationMs is more than twice the call limit |
| `ProbeExclusion.ShortCooldownAdmitsTwoProbes` | packages/circuit-breaker/src/circuitBreaker.ts:77-82 | for every configuration with a shorter cool-down, a timely run with two probes in flight |
| `ProbeExclusion.OneProbeIff` | packages/circuit-breaker/src/circuitBreaker.ts:121-126 | two probes are never in flight together in any timely run iff openDurationMs is more than twice the call limit |
| `Resilience.CallProviderResilient` | apps/gateway/src/lib/resilience.ts:16-46 | the loop's breaker state, provider calls, time slept and verdict are those of the recursive specification, others changing the breaker between attempts in any way |
| `Resilience.FailingFrom` | packages/circuit-breaker/src/retry.ts:28-56 | from any closed circuit inside one window: calls made and verdict as the lesser of the room left and the attempts left |
| `Resilience.FreshCircuitFailingProvider` | apps/gateway/src/lib/resilience.ts:16-46 | min(failureThreshold, maxAttempts) provider calls; unavailable iff the threshold is below maxAttempts |
| `Resilience.BackoffIsExponential` | packages/circuit-breaker/src/retry.ts:11-19 | whatever the provider and all other users of the breaker do, at most maxAttempts calls, and total sleep between base*(2^n - 1) and 1.5 times that for n sleeps |
| `Resilience.TotalBackoff` | packages/circuit-breaker/src/retry.ts:42-53 | if all n attempts ran, the n - 1 sleeps total between base*(2^(n-1) - 1) and 1.5 times that |
| `Resilience.OutcomeIsExact` | packages/circuit-breaker/src/retry.ts:42-53 | in any world, with n the first attempt that is rejected, answered or last: verdict, provider calls, breaker state, and the sum of exactly the n - 1 delays in between |
| `Resilience.VerdictIff` | apps/gateway/src/lib/resilience.ts:21-45 | success iff some attempt was let through and answered after failures only; the provider's error iff all maxAttempts were let through and failed; unavailable iff one was rejected after failures only |
| `Resilience.BackoffIsDoublingWithJitter` | packages/circuit-breaker/src/retry.ts:11-19 | delays start at the base, double, and grow by exactly the random share of half |
| `RequestDedup.Redis.RunSetNx` | apps/gateway/src/lib/requestDedup.ts:51 | claims the key iff it is absent, and changes nothing otherwise |
| `RequestDedup.Redis.RunPublish` | apps/gateway/src/lib/requestDedup.ts:58-62 | appends the message for exactly the connections subscribed at that moment |
| `RequestDedup.Perform` | apps/gateway/src/lib/requestDedup.ts:51-110 | each next command of a leader or follower, issued on the Redis object, has the effect and the continuation that the runs give it |
| `RequestDedup.RunsAreValueSafe` | apps/gateway/src/lib/requestDedup.ts:44-112 | in every run, stored values, messages and returned values are results of fn or the failure marker, never the sentinel; errors are the caller's own |
| `RequestDedup.ResultsWereComputed` | apps/gateway/src/lib/requestDedup.ts:53-59 | every known result comes from a step at which some caller was running fn |
| `RequestDedup.OutcomesAreGenuine` | apps/gateway/src/lib/requestDedup.ts:44-112 | a returned value was computed by a completed fn; an error is the caller's own fn's or Redis', never another leader's |
| `RequestDedup.NullMessageHangs` | apps/gateway/src/lib/requestDedup.ts:96-104 | a waiting follower hangs on a message iff it is null, and one that hangs is settled by the next that is not |
| `RequestDedup.HangsOnlyOnNull` | apps/gateway/src/lib/requestDedup.ts:91-105 | no follower ever hangs in a run whose fn results are not null |
| `RequestDedup.RunsAreCoordinated` | apps/gateway/src/lib/requestDedup.ts:81-105 | a standing claim's leader has published nothing; a waiting follower that saw it has mail once it has, unless a message came in the gap |
| `RequestDedup.RecheckPrecedesPublish` | apps/gateway/src/lib/requestDedup.ts:81-89 | if the recheck reads a claim, that leader's PUBLISH comes later in the run |
| `RequestDedup.LeadersOwnTheKey` | apps/gateway/src/lib/requestDedup.ts:51-65 | if no key expires under an unfinished leader, such a leader's own text is in the key |
| `RequestDedup.OneLeaderAtATime` | apps/gateway/src/lib/requestDedup.ts:51-65 | under the same condition two leaders never run fn together |
| `RequestDedup.ExpiryAfterFnStillBreaksExclusion` | apps/gateway/src/lib/requestDedup.ts:56-58 | a run where claims expire only after their fn returned and two leaders still run together |
| `RequestDedup.LateSetAdmitsAnother` | apps/gateway/src/lib/requestDedup.ts:57 | in general: a late SET over a newer claim lets a third caller lead beside the second once it expires |
| `DedupProgress.StoredResultIsReturned` | apps/gateway/src/lib/requestDedup.ts:67-70 | a caller that arrives while the key is there and finds a result at its GET, whatever happened in between, returns it and leaves Redis alone |
| `DedupProgress.RecheckedResultIsReturned` | apps/gateway/src/lib/requestDedup.ts:86-89 | the same at the recheck, with the subscription dropped |
| `DedupProgress.SettledStays` | apps/gateway/src/lib/requestDedup.ts:44-73 | a caller that has returned or thrown never acts again |
| `DedupProgress.OldestMessageDecides` | apps/gateway/src/lib/requestDedup.ts:96-104 | a waiting follower hangs, falls back or returns by its oldest message, whatever others do |
| `DedupProgress.FollowerGetsTheResult` | apps/gateway/src/lib/requestDedup.ts:96-104 | with nothing pending it returns exactly the result of the next leader to publish |
| `DedupProgress.FollowerHearsOfFailure` | apps/gateway/src/lib/requestDedup.ts:60-62 | and falls back when that leader failed |
| `DedupProgress.LeaderReturnsItsResult` | apps/gateway/src/lib/requestDedup.ts:54-59 | a leader stores, publishes and returns what its fn returned |
| `DedupProgress.LeaderThrowsItsError` | apps/gateway/src/lib/requestDedup.ts:60-64 | or deletes the key, publishes and throws its own error |
| `DedupProgress.FallbackEndsAsItsFn` | apps/gateway/src/lib/requestDedup.ts:106-107 | a fallback ends as its fn does |
| `DedupProgress.FnRunsForAReason` | apps/gateway/src/lib/requestDedup.ts:39-42 | in every run fn runs for a caller only if it found no key on arrival, or timed out, heard of a failure or was failed by Redis as a follower |
| `DedupProgress.ErrorsHaveAReason` | apps/gateway/src/lib/requestDedup.ts:60-64 | in every run an error a caller throws is its own fn's, or Redis failed one of its commands outside a follower's wait |
| `DedupProgress.SubscribedIff` | apps/gateway/src/lib/requestDedup.ts:81-111 | in every run exactly the followers in the middle of their wait are subscribed |
| `DedupLease.ExpiryIsHarmlessIff` | apps/gateway/src/lib/requestDedup.ts:51-65 | after a run without early expiry, an expiry leaves one leader at a time in all that follows iff the writer of the key is finished |
| `DedupLease.TimelyRunsKeepInv` | apps/gateway/src/lib/requestDedup.ts:51-58 | with a time to live longer than a leader takes, an unfinished leader's text is in the key and outlives its claim by the whole time to live |
| `DedupLease.ShortLeaseIsShared` | apps/gateway/src/lib/requestDedup.ts:51 | for every shorter time to live, a timely run with two leaders |
| `DedupLease.OneLeaderIff` | apps/gateway/src/lib/requestDedup.ts:44-65 | one leader at a time in all timely runs iff the time to live is longer than the leaders' limit |
| `DedupFollowers.MessageCanComeIff` | apps/gateway/src/lib/requestDedup.ts:81-105 | a subscriber with nothing pending can still get a message, nobody new arriving, iff some leader has its PUBLISH before it |
| `DedupFollowers.OwedNothingIff` | apps/gateway/src/lib/requestDedup.ts:81-105 | in every run a waiting follower with no mail is owed none by its leader iff its recheck found no claim, the leader has sent its last message and one fell in the gap, or the leader ended without publishing |
| `DedupFollowers.RunsKeepSeenLed` | apps/gateway/src/lib/requestDedup.ts:51-89 | whoever wrote the key, or was seen by a recheck, was a leader and is on its way to a PUBLISH, made it, or ended without |
| `DedupFollowers.FailedLeaderStrandsFollower` | apps/gateway/src/lib/requestDedup.ts:31-37 | a run in which a leader fails before the follower subscribes, and no continuation without newcomers brings the follower a message |
| `DedupFollowers.MessageIsLostInARun` | apps/gateway/src/lib/requestDedup.ts:86-96 | a run in which the message falls between recheck and listener, with the same end |
| `DedupFollowers.NullHangsInARun` | apps/gateway/src/lib/requestDedup.ts:96-104 | a run in which a null result leaves the follower with neither result nor timer and nothing to come |
| `DistributedLock.LockKey.SetNx` | apps/gateway/src/lib/billingLock.ts:60 | acquires iff no unexpired lock is held, with the caller's token and lease |
| `DistributedLock.LockKey.RunRelease` | apps/gateway/src/lib/billingLock.ts:29-34 | deletes iff the unexpired lock carries the caller's token |
| `DistributedLock.Acquire` | apps/gateway/src/lib/billingLock.ts:59-73 | stops at the first free answer; otherwise exactly retries + 1 attempts with retries sleeps between |
| `DistributedLock.RunsAreSafe` | apps/gateway/src/lib/billingLock.ts:49-74 | in every run whoever is inside within its lease holds the lock |
| `DistributedLock.AttemptsAreBounded` | apps/gateway/src/lib/billingLock.ts:59-73 | in every run a caller issues at most retries + 1 SET NX, counted over the run, exactly that many if it gives up, and fewer while it is still trying |
| `DistributedLock.MadeCountsAttempts` | apps/gateway/src/lib/billingLock.ts:59-60 | the loop counter is the number of SET NX issued in the run |
| `DistributedLock.ContendedAttempt` | apps/gateway/src/lib/billingLock.ts:68-73 | a contended attempt leaves the lock alone and is followed by another iff retries are left |
| `DistributedLock.MutualExclusion` | apps/gateway/src/lib/billingLock.ts:49-74 | two callers inside within their leases are the same caller |
| `DistributedLock.ExclusionIff` | apps/gateway/src/lib/billingLock.ts:49-74 | never more than one inside, in all runs whose critical sections take at most a limit, iff ttlMs is longer than it |
| `DistributedLock.OverstayingAdmitsAnother` | apps/gateway/src/lib/billingLock.ts:60-66 | once the holder has overstayed the next attempt puts a second caller inside |
| `DistributedLock.ReleaseSparesOthers` | apps/gateway/src/lib/billingLock.ts:29-34 | in every run a release removes the releaser's own unexpired lock and leaves any other as it is |
| `DistributedLock.LockIsHeld` | apps/gateway/src/lib/billingLock.ts:60-66 | in every run an acquired lock stays, even if its owner crashes, until the owner releases it or its lease ends |
| `DistributedLock.ReleaseAdmitsNext` | apps/gateway/src/lib/billingLock.ts:62-66 | once a caller within its lease is done, the next to try gets in |
| `Billing.BillingDb.RecordUsageAndOutbox` | apps/gateway/src/lib/billing.ts:98-126 | usage row and event are both written, or, on a repeat or an abort at any point, neither |
| `Billing.BillingDb.EnforceBudget` | apps/gateway/src/lib/billing.ts:36-69 | admits iff there is no cap or the spend is below it, the override taking precedence; a rejection leaves one event with the figures |
| `Billing.BillingDb.SumUsage` | packages/billing/src/budgetStatus.ts:53-59 | the spend is the sum of the recorded costs |
| `Billing.RunsStayOneToOne` | apps/gateway/src/lib/billing.ts:98-126 | over any repeats and aborts, usage rows and usage.recorded events match one to one with equal contents, ids unique, and no row is ever changed |
| `Billing.BilledExactlyOnce` | apps/gateway/src/lib/billing.ts:91-126 | a request id is billed and announced once if any recording of it committed, else not at all |
| `Billing.BilledIffCommitted` | apps/gateway/src/lib/billing.ts:98-126 | a row for an id exists iff some recording of it committed |
| `Billing.UsageIsFirstCommitted` | apps/gateway/src/lib/billing.ts:104-121 | over any operations the usage table, and the rows announced, are exactly the rows of the first committed recordings, whole and in order |
| `Billing.SpendGrowsByCost` | packages/billing/src/budgetStatus.ts:53-59 | a committed recording of a new id raises the spend by exactly its cost, a repeat or an abort by nothing |
| `Billing.BudgetDecides` | packages/billing/src/budgetStatus.ts:45-64 | the check is strict, an override decides whatever the plan says, and without either there is no cap |
| `Billing.SinceLastAdmission` | apps/gateway/src/lib/billing.ts:18-69 | since the last admission, spend plus what is in flight stays below budget plus what was in flight then |
| `Billing.NoAdmissionNoSpend` | apps/gateway/src/lib/billing.ts:36-69 | a month without an admission has no spend |
| `Billing.OvershootIsBounded` | apps/gateway/src/lib/billing.ts:26-34 | under any interleaving the spend is zero or below budget plus the cost in flight at the last admission |
| `Billing.OvershootIsBoundedByConcurrency` | apps/gateway/src/lib/billing.ts:26-34 | with at most n in flight costing at most c each, below budget + n*c |
| `BulkChat.RequestIdIsInjective` | apps/gateway/src/modules/jobs/handlers.ts:93 | no two prompts of any jobs share a request id, whatever the job ids contain |
| `BulkChat.RequestIdIsTagged` | apps/gateway/src/modules/jobs/handlers.ts:93 | ids of jobs begin with job: |
| `BulkChat.DecimalRoundTrip` | apps/gateway/src/modules/jobs/handlers.ts:93 | the index as printed reads back to itself and holds only digits |
| `BulkChat.BillJobUsage` | apps/gateway/src/modules/jobs/handlers.ts:81-95 | one recording under the derived id iff there is a key and a usage, else none |
| `BulkChat.RunBulkChat` | apps/gateway/src/modules/jobs/handlers.ts:113-131 | the loop's writes and its completion are those of the attempt's specification; a completed one returns every response in order |
| `BulkChat.CompletedAttemptCommitsAll` | apps/gateway/src/modules/jobs/handlers.ts:119-129 | a completed attempt with a live key and reported usage committed a recording for every prompt |
| `BulkChat.PromptsAreBilledAtMostOnce` | apps/gateway/src/modules/jobs/handlers.ts:64-80 | over any mix of attempts, crashes, retries and replays every prompt is billed at most once and announced as often |
| `BulkChat.CompletedJobIsBilledExactlyOnce` | apps/gateway/src/modules/jobs/handlers.ts:81-133 | if one attempt completed, every prompt is billed exactly once |
| `BulkChat.CompletedAttemptBillsReportedUsage` | apps/gateway/src/modules/jobs/handlers.ts:88-94 | a completed attempt on an empty table leaves one row per prompt, in order, with exactly the tokens and cost reported |
| `BulkChat.CompletesIff` | apps/gateway/src/modules/jobs/handlers.ts:119-130 | an attempt completes iff every call succeeds, every recording to be made commits and every progress report goes through |
| `BulkChat.StopsAtFailure` | apps/gateway/src/modules/jobs/handlers.ts:119-130 | it stops at the first prompt for which that is not so |
| `BulkChat.NoKeyNoBill` | apps/gateway/src/modules/jobs/handlers.ts:87 | without a key nothing is recorded |
| `TokenBucket.BucketKey.TokenBucket` | packages/rate-limiter/src/tokenBucket.ts:16-38 | refill, spend, expiry and the reported remaining and resetAt, against the value specification |
| `TokenBucket.TakeStaysInRange` | packages/rate-limiter/src/tokenBucket.ts:25-32 | tokens stay between zero and capacity |
| `TokenBucket.RateIsBounded` | packages/rate-limiter/src/tokenBucket.ts:16-38 | tokens granted in any interval of any run are at most capacity plus what accrues in it |
| `TokenBucket.AllowedExactly` | packages/rate-limiter/src/tokenBucket.ts:25-32 | in any run a call is allowed iff it fits the bucket and granting it keeps the rate bound on every interval that begins with an earlier call |
| `TokenBucket.DeniedLeavesNoTrace` | packages/rate-limiter/src/tokenBucket.ts:28-34 | everything after a denied call is answered as if it had not been made |
| `TokenBucket.FullBucketBurst` | packages/rate-limiter/src/tokenBucket.ts:20-32 | of n unit calls at one moment on a new bucket exactly min(n, floor(capacity)) are allowed |
| `TokenBucket.ExpiryIsInvisible` | packages/rate-limiter/src/tokenBucket.ts:34-36 | whenever Redis drops expired buckets, every decision and every bucket left behind, and so every reply, is that of a bucket that never expires |
| `TokenBucket.ResetAtIsExact` | packages/rate-limiter/src/tokenBucket.ts:75-83 | the same request is allowed later iff it fits the bucket and the time is resetAt or after |
| `SlidingWindowLog.LogKey.SlidingWindowLog` | packages/rate-limiter/src/slidingWindowLog.ts:9-28 | trim, count and add in place equal the value specification; remaining and resetAt |
| `SlidingWindowLog.AllowedExactly` | packages/rate-limiter/src/slidingWindowLog.ts:16-25 | in every run, expiry included, a call is allowed iff fewer than limit earlier ones were admitted in (now - windowMs, now] |
| `SlidingWindowLog.NeverMoreThanLimit` | packages/rate-limiter/src/slidingWindowLog.ts:16-25 | no half-open interval of length windowMs holds more than limit admitted calls |
| `SlidingWindowLog.RetryExactly` | packages/rate-limiter/src/slidingWindowLog.ts:64-68 | with no call in between, the next is allowed exactly from windowMs after the limit-th last admitted one on, so certainly from resetAt on |
| `SlidingWindowLog.LogIsTheWindow` | packages/rate-limiter/src/slidingWindowLog.ts:64-68 | the log after a call holds exactly the calls admitted in its window, so the remaining reported is exact |
| `WindowCounters.ReadIsExact` | packages/rate-limiter/src/slidingWindowCounter.ts:17-26 | a counter read within its span is the number of its window's calls, whatever Redis dropped |
| `WindowCounters.IncrStaysFaithful` | packages/rate-limiter/src/fixedWindow.ts:9-12 | INCR with its first-time expiry keeps the counters faithful to the calls made |
| `FixedWindow.FixedWindowKeys.FixedWindow` | packages/rate-limiter/src/fixedWindow.ts:8-19 | in-place INCR and PEXPIRE equal the value specification; resetAt is the end of the aligned window |
| `FixedWindow.AllowedExactly` | packages/rate-limiter/src/fixedWindow.ts:41-56 | in every run, expiry included, a call is allowed iff it is among the first limit of its aligned window, and its number there is the one reported |
| `FixedWindow.AdmittedPerWindow` | packages/rate-limiter/src/fixedWindow.ts:41-56 | a window admits exactly the lesser of its calls and the limit |
| `FixedWindow.AtMostTwiceTheLimit` | packages/rate-limiter/src/fixedWindow.ts:30-33 | any half-open interval of length windowMs admits at most twice the limit |
| `FixedWindow.ResetAtIsExact` | packages/rate-limiter/src/fixedWindow.ts:52-56 | after a denied call, and with none in between, a call is allowed iff it comes at resetAt or later |
| `SlidingWindowCounter.CounterKeys.SlidingWindowCounter` | packages/rate-limiter/src/slidingWindowCounter.ts:10-32 | the in-place script equals the value specification; remaining and resetAt |
| `SlidingWindowCounter.AllowedExactly` | packages/rate-limiter/src/slidingWindowCounter.ts:17-29 | in every run a call is decided by the true admitted counts of its window and the one before: the double expiry never loses a counter still read |
| `SlidingWindowCounter.AdmittedIff` | packages/rate-limiter/src/slidingWindowCounter.ts:19-22 | in whole numbers: with p admitted before, c in this window and x ms of it gone, a call is admitted iff p*(windowMs-x) + c*windowMs < limit*windowMs |
| `SlidingWindowCounter.RemainingIsWhole` | packages/rate-limiter/src/slidingWindowCounter.ts:67-70 | n calls are reported as remaining iff n more stay within the limit and n + 1 do not |
| `SlidingWindowCounter.WindowAdmitsAtMostLimit` | packages/rate-limiter/src/slidingWindowCounter.ts:19-29 | each aligned window admits at most limit |
| `SlidingWindowCounter.SlidingBound` | packages/rate-limiter/src/slidingWindowCounter.ts:51-65 | any interval of length windowMs ending at fraction f of its window admits fewer than limit*(1+f)+1 |
| `SlidingWindowCounter.ResetAtIsOneShort` | packages/rate-limiter/src/slidingWindowCounter.ts:67-72 | with no call in between, the next is allowed at every moment after resetAt, and at resetAt iff the window just ended admitted fewer than limit |
| `SlidingWindowCounter.ResetAtFailsInARun` | packages/rate-limiter/src/types.ts:7-8 | a run in which a denied call comes back at resetAt and is denied again |
| `JobLifecycle.JobStore.RunMarkRunning` | packages/jobs/src/service.ts:105-119 | status, attempts and progress of that row only; no row, no change |
| `JobLifecycle.JobStore.RunMarkCompleted` | packages/jobs/src/service.ts:143-167 | row and job.completed event together, or neither when the row is missing |
| `JobLifecycle.JobStore.RunMarkFailed` | packages/jobs/src/service.ts:176-210 | failed without event, or dead-lettered with one, by whether the attempt was final |
| `JobLifecycle.JobStore.RunReplayCheck` | packages/jobs/src/service.ts:235-239 | passes iff the row is there and dead-lettered |
| `JobLifecycle.JobStore.RunResetForReplay` | packages/jobs/src/service.ts:241-253 | the later transaction resets the row whatever its status has become |
| `JobLifecycle.RunsAreSound` | packages/jobs/src/queue.ts:64-123 | unless a replay is checked between another's check and write: one carrier per job, and every call and queue entry agrees with its row's status and attempt count |
| `JobLifecycle.LiveEntriesAreUnique` | packages/jobs/src/service.ts:225-228 | a row never has two live entries; a completed or dead-lettered one has none |
| `JobLifecycle.EntryEndsWithItsRow` | packages/jobs/src/queue.ts:114 | the queue's limit and the listener's test agree: a failure ends the entry iff it dead-letters the row |
| `JobLifecycle.AtMostThreeRuns` | packages/jobs/src/queue.ts:64-123 | every enqueue starts the handler at most three times, in any run |
| `JobLifecycle.PickStartsAttempt` | packages/jobs/src/service.ts:105-117 | in any run, starting an attempt writes RUNNING, its number and no progress to that row alone |
| `JobLifecycle.SuccessCompletes` | packages/jobs/src/service.ts:150-165 | a handler that returns completes its row in full, ends its entry and writes one job.completed |
| `JobLifecycle.FailureIsRecorded` | packages/jobs/src/service.ts:184-207 | one that throws leaves its message and an idle entry, or the third time a dead-lettered row, no entry and one job.failed with the message |
| `JobLifecycle.ReplayStartsOver` | packages/jobs/src/service.ts:241-253 | a replay past its check puts the row back to a new one's |
| `JobLifecycle.MadeCountsFailures` | packages/jobs/src/queue.ts:64-123 | an entry's attempt count is the number of its failures in the run |
| `JobLifecycle.DeadLetterIsTheThirdFailure` | packages/jobs/src/service.ts:169-189 | a step dead-letters a job iff it is the third failure of that job's queue entry |
| `JobLifecycle.EventsMatchTransitions` | packages/jobs/src/service.ts:150-208 | job.completed and job.failed events equal the transitions into those statuses |
| `JobLifecycle.OverlappingReplaysDuplicate` | packages/jobs/src/service.ts:229-265 | two replays past their checks can leave two live entries |
| `JobLifecycle.ReplayIsSafeIff` | packages/jobs/src/service.ts:225-265 | in all continuations up to the next check a replay keeps its job to one live entry iff no other replay is past its check and has not written |
| `JobLifecycle.OrphanedJobIsStuck` | packages/jobs/src/service.ts:30-40 | a queued job nobody carries stays so in every later run and is never replayable |
| `JobLifecycle.AbandonedCreateIsOrphaned` | packages/jobs/src/service.ts:41-82 | a create that ends between row and enqueue leaves such a job |
| `JobLifecycle.AbandonedCallIsOrphaned` | packages/jobs/src/service.ts:229-265 | so does a replay, or any create, that ends between its write and its enqueue |
| `JobLifecycle.QueuedJobCanStartIff` | packages/jobs/src/service.ts:30-40 | after any run a queued job can still get to run in some continuation iff a call or a queue entry carries it |
| `OutboxPipeline.Outbox.WriteOutboxEvent` | packages/outbox/src/outbox.ts:49-56 | the new row is the last pending one: whatever was pending stays so and comes before it |
| `OutboxPipeline.Outbox.FindPending` | packages/outbox/src/outbox.ts:74-78 | the oldest unpublished rows, at most a batch |
| `OutboxPipeline.Outbox.PollOutbox` | packages/outbox/src/outbox.ts:69-99 | each row of the batch published under its own id and marked only if both succeeded; the counts returned |
| `OutboxPipeline.AuditLog.Deliver` | apps/gateway/src/modules/events/subscribers.ts:126-158 | insert once per event id, ack, nak or term by what went wrong |
| `OutboxPipeline.PollKeepsSound` | packages/outbox/src/outbox.ts:80-96 | a poll with arbitrary failures keeps marked rows stored, copies a duplicate window apart and contents intact |
| `OutboxPipeline.PipelineIsSound` | packages/events/src/bus.ts:74-87 | over any run of inserts, polls and deliveries: marked means stored under its own id and payload, at most one audit entry per event, and an acknowledged event of an organisation is audited |
| `OutboxPipeline.NothingIsLost` | packages/outbox/src/outbox.ts:80-96 | rows and stored messages of any moment are still there at the end of the run |
| `OutboxPipeline.AtMostOneCopy` | packages/events/src/bus.ts:81-86 | two stored copies of one event less than a duplicate window apart are the same copy |
| `OutboxPipeline.MarkedIff` | packages/outbox/src/outbox.ts:81-96 | after a poll a row is marked iff it was, or its publish landed, was heard of and the mark was written |
| `OutboxPipeline.StoredIff` | packages/outbox/src/outbox.ts:81-96 | and its event is stored iff it was, or a publish of it landed |
| `OutboxPipeline.CopyIsAddedIff` | packages/events/src/bus.ts:81-86 | a publish that lands adds a copy with the row's contents iff none is less than a duplicate window old |
| `OutboxPipeline.PublishedCountsMarks` | packages/outbox/src/outbox.ts:80-98 | the number reported as published is the number of rows no longer pending |
| `OutboxPipeline.AuditedIff` | apps/gateway/src/modules/events/subscribers.ts:132-156 | in every run an event is audited iff some delivery of it, valid and of an organisation, met no database error |
| `OutboxPipeline.RepliesExactly` | packages/events/src/bus.ts:148-162 | invalid is terminated, a database error sent again, a crash unanswered, all else acknowledged |
| `OutboxPipeline.HealthyPollsDrainInOrder` | packages/outbox/src/outbox.ts:69-99 | with a healthy publisher k polls store the k*batchSize oldest rows in order; none is pending iff k*batchSize reaches their number |
| `OutboxPipeline.HealthyPollsMarkOldestFirst` | packages/outbox/src/outbox.ts:74-91 | the same for the marks when some rows had been stored without being marked |
| `Framing.IndexOfFinds` | apps/gateway/src/lib/sse.ts:20 | the index is that of an occurrence |
| `Framing.IndexOfIsLeftmost` | apps/gateway/src/lib/sse.ts:20 | and no occurrence lies further left |
| `Framing.SplitAppend` | packages/sdk/src/client.ts:224-230 | cutting a read and keeping only the rest gives the same parts as cutting everything at once |
| `Streaming.ResumeIterator` | apps/gateway/src/modules/chat/routes.ts:57-68 | the chunk pulled early comes first and none is lost |
| `Streaming.StreamToClient` | apps/gateway/src/modules/chat/routes.ts:520-539 | text on the wire, full text, response id, finish reason and usage, also for a stream that broke |
| `Streaming.WireHoldsEveryEvent` | apps/gateway/src/modules/chat/routes.ts:526-539 | frame by frame the client can decode every chunk in order, then the error if the stream broke, and the last frame is [DONE] |
| `Streaming.LastDoneChunkDecides` | apps/gateway/src/modules/chat/routes.ts:530-531 | the finish reason is that of the last done chunk, stop if it names none or there is none |
| `Streaming.LastReportedUsageCounts` | apps/gateway/src/modules/chat/routes.ts:530-532 | the usage is that of the last done chunk that reports one, zero if there is none |
| `Streaming.SdkStream` | packages/sdk/src/client.ts:215-257 | the texts yielded depend only on the concatenation of the reads |
| `Streaming.YieldFrames` | packages/sdk/src/client.ts:232-256 | the frames of one read continue the frames before them, and stop at [DONE] |
| `Streaming.ReadsBack` | packages/sdk/src/client.ts:233-251 | the SDK reads from every event the delta the gateway wrote |
| `Streaming.FirstDataLineDecides` | packages/sdk/src/client.ts:232-255 | of a frame of any lines the first data line alone decides; empty, unparsable and delta-less payloads are skipped, and so are frames without one |
| `Streaming.EventsSplit` | apps/gateway/src/modules/chat/routes.ts:70-72 | written events come apart into one frame each, whatever follows |
| `Streaming.NothingAfterDone` | packages/sdk/src/client.ts:237 | frames after [DONE] yield nothing |
| `Streaming.StreamingRoundTrip` | packages/sdk/src/client.ts:215-257 | for any chunks, any split into reads and any bytes after the end, the yielded texts concatenate to the gateway's full text |
| `Streaming.DrainLines` | apps/gateway/src/lib/sse.ts:19-26 | cuts off exactly the complete lines and keeps the rest |
| `Streaming.ParseLines` | apps/gateway/src/lib/sse.ts:8-56 | the payloads of both parsers depend only on the concatenation of the reads |
| `Streaming.LinesYieldPayloads` | apps/gateway/src/lib/sse.ts:21-25 | a data line yields its payload without the space around it, an NDJSON line itself, blank lines nothing |
| `Streaming.OtherLinesAreIgnored` | apps/gateway/src/lib/sse.ts:23 | lines of other fields yield nothing |
| `Streaming.CarriageReturnIsDropped` | apps/gateway/src/lib/sse.ts:21 | lines that end in a carriage return are read alike |
| `Streaming.BodyYieldsItsLines` | apps/gateway/src/lib/sse.ts:13-27 | a body of terminated lines yields what its lines yield, in order |
| `Framing.TrimAround` | apps/gateway/src/lib/sse.ts:21 | trimming takes off exactly the space around |
| `Streaming.UnterminatedLineIsDropped` | apps/gateway/src/lib/sse.ts:14-27 | a last line without newline yields nothing |
| `AbSelection.CoerceAbConfig` | apps/gateway/src/lib/featureFlags.ts:53-65 | one to ten variants, all of positive weight, or nothing iff no entry is usable |
| `AbSelection.UsableInOrder` | apps/gateway/src/lib/featureFlags.ts:55-62 | entries are judged one by one, by name and weight, and their order is kept |
| `AbSelection.CoerceKeepsTheEarliest` | apps/gateway/src/lib/featureFlags.ts:55-64 | the variants kept are those of a prefix of the entries, all of them if they fit |
| `AbSelection.ResolveOpenCandidates` | apps/gateway/src/lib/routing.ts:19-32 | the loop keeps, in order, the variants that resolve to a circuit that is not open |
| `AbSelection.AvailableVariantsAre` | apps/gateway/src/lib/routing.ts:19-32 | a variant is kept iff it resolves and its circuit is not open |
| `AbSelection.AvailableInOrder` | apps/gateway/src/lib/routing.ts:25-31 | variants are judged one by one and keep their order; closed and half-open circuits stay |
| `AbSelection.Draw` | apps/gateway/src/lib/routing.ts:88-98 | the loop ends at the variant whose cumulative weight first reaches the roll; the trailing fallback is never reached |
| `AbSelection.SelectAbVariant` | apps/gateway/src/lib/routing.ts:79-108 | nothing iff no variant is available; else the one whose share of [0,1) holds the random value, with its normalized weight |
| `AbSelection.SharesAreDisjoint` | apps/gateway/src/lib/routing.ts:79-108 | a random value lies in at most one share |
| `AbSelection.SharesTileTheUnitInterval` | apps/gateway/src/lib/routing.ts:79-108 | shares run from 0 to 1 and each is as long as its variant's normalized weight |

## Left out

- Provider adapters, Stripe, e-mail, and the internals of Redis, NATS, BullMQ and Prisma: foreign code, modelled as atomic steps with arbitrary outcomes.
- Dashboard, API documents, telemetry and metrics: no hard property.
- JWT, password hashing, HMAC, session encryption, API-key checks and webhook target checks.
- Refresh-token rotation and API-key cache invalidation: separate reads and writes whose strong claims hold only for sequential use.
- Semantic cache, routing scores, pricing table, percentile statistics, analytics counters and the recording of provider outcomes: SQL similarity or easy arithmetic.
- The SDK's request retry loop, the batch_embeddings handler, and the analytics, billing and webhook subscribers: they would repeat results proved for their siblings.
- Floating-point rounding, UTF-8 decoding and JSON text: exact reals, characters and an abstract codec instead.
- Errors of Redis itself inside the breaker's and limiters' scripts, other than a success report whose reply is lost; runs of many callers treat its two reports as the reports of any calls.
- The breaker key's one-hour expiry is an arbitrary expiry, and force-open's HSET and EXPIRE are one step.
- Stalled jobs handed to a second worker, attempts that overlap, and failing progress publishes.
- The bookkeeping fields of a job row (timestamps, result, bullJobId) and tenant isolation: one organisation is modelled throughout.
- The stream's seven-day age limit and the subscriber's limit of five deliveries: messages stay and may be delivered any number of times.
- Limiters under a clock that goes backwards.
- Clients that disconnect mid-stream, and the billing and idempotency writes between the last chunk and [DONE].
