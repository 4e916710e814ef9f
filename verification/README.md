# ShinyHub control-plane protocols

ShinyHub is a Go control plane that deploys and proxies web apps. This project models its small protocols and
its render limiter, and proves what they promise over every run, every failure pattern and every interleaving.

Two styles are used. Code that runs one step after another is a method or a class whose `ensures` say what it
does; calls that leave the process take their outcome from a parameter (a script of replies, a `Faults` record),
so a proof about the method covers every pattern of failures. Code that runs concurrently is a set of atomic
steps (`Step`, `Enabled`, `Apply`), and its theorems are about every sequence of enabled steps.

| file | what it models |
|---|---|
| `Pacer.dfy` | the lazily refilled token bucket, as an exact window limiter |
| `Fairness.dfy` | the two-stage limiter: per-principal buckets with evict-the-fullest, and the shared bucket |
| `FairnessRuns.dfy` | sequential runs of the limiter: rate bounds, the bounded map against an unbounded one, churn |
| `FairnessConcurrent.dfy` | `Admit` as critical sections of any number of interleaved callers, and eviction scans they take during |
| `Handoff.dfy` | the generation handoff: ledger staging, boot, cutover, compensation, projection; a crash anywhere |
| `Retirement.dfy` | the loop that drains, stops and forgets a replaced generation |
| `Activation.dfy` | the activation coordinator and the durable row transitions it drives |
| `HandoffListener.dfy` | the accept-drain listener and its wake-up channel |
| `OwnerSpan.dfy` | one span of control-plane ownership, and the lease at shutdown |
| `RelayOwner.dfy` | the `owner.current` pointer over any number of upgrades |
| `RelayAuthorization.dfy` | chunked relay authorization and the fail-closed loop around it |
| `RetiringParent.dfy` | the cleanup pass after a retiring parent exits |
| `Announcements.dfy` | the announcement query, its cache, and reads against saves |
| `Basics.dfy` | `Option` and the minimum of two reals |

## Assumptions about what is not modelled

- A failed manager or proxy activation leaves its selection unchanged; a failed promote or revert may or may not
  have committed; a successful read of the active pointer is truthful.
- A failed file operation on `owner.current` leaves it unchanged, and a killed child does nothing more.
- Limiter arithmetic is over exact reals, with rate, burst and per-principal burst not negative.
- A relay verdict is true to every revocation made before its sweep began, and a session opens only for a principal
  that has access at that moment.
- Announcement times read from storage are whole milliseconds, and an end is after its start.

## Where the code and its comments or intent differ

The model follows the code. Each difference is a proved statement.

- `internal/admission/fairness.go:16-21` says that churn cannot reset a share. Eviction compares stored counts
  that are not refilled first, so it can drop a spent bucket and keep a full one: `ChurnResetsAShare` is a run
  in which a principal with a burst of two is admitted three times at one instant. `EvictionUnseenIffFull` says
  exactly when dropping a bucket is harmless, and `BoundedRefinesUnbounded` that such evictions change nothing.
- `internal/admission/fairness.go:184-186` says that a spent bucket is never chosen while a fuller one exists. The
  scan reads the buckets one by one while other callers take from them: `ScanCanDropTheEmptier` is a run in which
  the bucket that was emptier goes, and `SpentBucketSurvivesScan` and `QuietScanEvictsFullest` say when it stays.
- `cmd/shinyhub/relay_rpc.go:205-206` says that a child failing readiness restores the prior pointer. A child that
  fails after it sent its readiness restores it to a parent that retires all the same, or, if it dies, does not
  restore it: `SentChildCanLeaveNoOwner` gives the runs, and `OnlyCommitKeepsAnOwner` the exact condition.
- The listener's wake-up channel has one slot: with two callers of `Quiesce`, one can oversleep the last release
  (`TwoQuiescersLoseAWakeup`), until another release or its cancellation. The program has one caller for each
  listener.

## Model

| member | source | states |
|---|---|---|
| Pacers.StaysInRange | internal/admission/pacer.go:65-106 | every call keeps the tokens in [0, burst], and a clock that steps back changes neither tokens nor the last reading |
| Pacers.RefillComposes | internal/admission/pacer.go:93-106 | refilling at t1 and then at t2 is refilling at t2 |
| Pacers.LevelGrows | internal/admission/pacer.go:93-106 | between two instants the level rises by at most what the rate earns, and never past burst |
| Pacers.LevelAfterTake | internal/admission/pacer.go:65-74 | a take is granted exactly at level one or more, and the level at any later time follows from the level before it |
| Pacers.IndistinguishableRuns | internal/admission/pacer.go:65-106 | buckets with the same refilled value from an instant on give the same results on every later run, with or without advisory calls |
| Pacers.AvailableIsInvisible | internal/admission/pacer.go:76-91 | advisory checks inserted anywhere into a run change no later take |
| Pacers.LevelIsWindowAllowance | internal/admission/pacer.go:65-106 | the lazily refilled level is at least x exactly when x more tokens keep every window ending now within burst plus rate times length |
| Pacers.GrantsExactlyWhenWindowsAllow | internal/admission/pacer.go:62-74 | a take is granted if and only if, counting it, no window holds more than burst plus rate times length grants |
| Pacers.WindowBound | internal/admission/pacer.go:62-74 | between any two grants of any run there are at most burst plus rate times the elapsed time of them |
| Pacers.Pacer.constructor | internal/admission/pacer.go:53-60 | a new pacer is full and has read no clock |
| Pacers.Pacer.RefillLocked | internal/admission/pacer.go:93-106 | the in-place refill is the refill of the pacer's value |
| Pacers.Pacer.TryTake | internal/admission/pacer.go:65-74 | takes one token or nothing, and keeps the pacer valid |
| Pacers.Pacer.IsAvailable | internal/admission/pacer.go:83-91 | answers what a take at that instant would, and spends nothing |
| Fairness.AdmitKeepsValid | internal/admission/fairness.go:114-126 | every admission keeps all tokens in range and the map within its capacity |
| Fairness.EmptierBucketSurvives | internal/admission/fairness.go:189-206 | a bucket that stores strictly fewer tokens than another is never evicted, and is untouched unless it is the caller's |
| Fairness.AdmitAgreesWithChecks | internal/admission/fairness.go:114-165 | at one instant, admission is granted exactly when both advisory checks are, for either choice of victim |
| Fairness.AdmitSpends | internal/admission/fairness.go:110-126 | what an admission costs in tokens: the principal pays one unless its level is short, the shared bucket is asked only then and pays one for an admission, and every other bucket but the victim is as it was |
| Fairness.FullestExists | internal/admission/fairness.go:189-206 | a non-empty map has a bucket that may be evicted |
| Fairness.AppLimiter.constructor | internal/admission/fairness.go:37-60 | a new limiter has a full shared bucket, rate divided by the divisor for each principal, and no principals |
| Fairness.AppLimiter.EvictFullestLocked | internal/admission/fairness.go:189-206 | the scan removes one bucket, and it stores at least as many tokens as every other |
| Fairness.AppLimiter.PrincipalPacerLocked | internal/admission/fairness.go:169-182 | finds the principal's pacer, or creates a full one after evicting a fullest one when the map is at capacity |
| Fairness.AppLimiter.Admit | internal/admission/fairness.go:114-126 | the object's new state and result are the two-stage admission of its value, for a victim the scan may choose |
| Fairness.AppLimiter.TrySharedOnly | internal/admission/fairness.go:128-135 | takes from the shared bucket only; no principal's bucket changes |
| Fairness.AppLimiter.SharedAvailable | internal/admission/fairness.go:150-152 | answers what a shared take would, and spends nothing |
| Fairness.AppLimiter.PrincipalAvailable | internal/admission/fairness.go:158-165 | answers for an absent principal as for a fresh bucket, and never creates or evicts one |
| FairnessRuns.ReachableIsValid | internal/admission/fairness.go:114-206 | in every reachable state all tokens are in range and there are at most capacity buckets |
| FairnessRuns.ChargedInWindow | internal/admission/fairness.go:32-60 | with at most capacity distinct principals nothing is evicted, and the charged admissions of a window are at most one burst each plus what their buckets earn in it |
| FairnessRuns.ChargedInPlainTerms | internal/admission/fairness.go:32-60 | the same budget as numbers: k bursts plus k times the principal rate times the length of the window |
| FairnessRuns.FewPrincipalsStayBelowRate | internal/admission/fairness.go:32-36 | fewer principals than the divisor cannot sustain the app rate over a long enough window |
| FairnessRuns.BoundedRefinesUnbounded | internal/admission/fairness.go:16-21 | if every evicted bucket is full once refilled, every call of the run returns what an unbounded limiter returns |
| FairnessRuns.NotFullIsObservable | internal/admission/fairness.go:19-21 | a bucket that is not full can be told from a fresh one by some later calls |
| FairnessRuns.ForgettableIffFull | internal/admission/fairness.go:19-21 | forgetting a bucket is unobservable if and only if it is full once refilled |
| FairnessRuns.EvictionUnseenIffFull | internal/admission/fairness.go:16-21 | dropping a principal's bucket is unseen by every later run of calls, of any principals, on a limiter that evicts nothing more, if and only if that bucket is full once refilled |
| FairnessRuns.ChurnResetsAShare | internal/admission/fairness.go:189-206 | a run in which eviction drops a spent bucket while a full one stays, and the principal exceeds its burst at one instant |
| FairnessConcurrent.StepKeepsValid | internal/admission/fairness.go:114-206 | every critical section of every caller, and every read of an eviction scan in between, keeps the pool, the callers' pacers, the scan and the accounting of charges valid |
| FairnessConcurrent.EnabledRunsAreLegal | internal/admission/fairness.go:114-126 | a run whose steps are enabled one by one keeps the invariant throughout |
| FairnessConcurrent.ReachableAccounts | internal/admission/fairness.go:114-126 | in every run of enabled steps the map stays within its capacity, and each principal token taken was admitted, refused by the shared bucket, or is on its way |
| FairnessConcurrent.SectionsAreAdmit | internal/admission/fairness.go:114-126 | with nobody in between, the three sections of a caller leave the limiter, and count the result, exactly as the sequential admission does |
| FairnessConcurrent.VictimIsFullestAsRead | internal/admission/fairness.go:189-206 | a scan that other callers take during drops one bucket, whose count when it was read is at least every other's when that was read |
| FairnessConcurrent.SpentBucketSurvivesScan | internal/admission/fairness.go:184-206 | a bucket is not the victim if throughout the scan its count stays below a level that another bucket keeps, whatever takes go on meanwhile |
| FairnessConcurrent.QuietScanEvictsFullest | internal/admission/fairness.go:189-206 | a scan without takes in between is the sequential one: its victim is fullest at that instant |
| FairnessConcurrent.ScanCanDropTheEmptier | internal/admission/fairness.go:189-206 | from any state whose scan has begun with a bucket of one token and a full one of two that two callers hold, a run in which the emptier bucket is dropped and the other kept |
| FairnessConcurrent.PoisedIsReachable | internal/admission/fairness.go:169-182 | a new limiter reaches a state that run starts from |
| FairnessConcurrent.SharedSeesOnlyItsReadings | internal/admission/fairness.go:107-135 | in every interleaving the shared bucket and its grants are what its own readings make them, however many principals are looked up, evicted, charged or refused in between |
| FairnessConcurrent.SharedGrantsInWindow | internal/admission/pacer.go:65-106 | shared grants of any interleaving are at most the tokens spent plus what the growth of the largest clock reading earns |
| FairnessConcurrent.SharedRateHolds | internal/admission/fairness.go:114-135 | shared grants of any interleaving are at most burst plus rate times the growth of the largest clock reading |
| FairnessConcurrent.SharedRateInPlainTerms | internal/admission/fairness.go:114-135 | the same bound as numbers, over the largest readings before and after |
| Handoff.Deploy.PersistDrainingGeneration | internal/api/apps.go:2171-2213 | stages the outgoing rows one by one; succeeds exactly when every row belongs to the outgoing generation and every write succeeds, and never loses a row |
| Handoff.Deploy.BootCandidate | internal/api/apps.go:3136-3151 | a candidate replica runs only once its ledger row is durable |
| Handoff.Deploy.ReRecordGrouped | internal/api/apps.go:3448-3463 | a grouped candidate's rows are all written again before the cutover, or the handoff fails |
| Handoff.Deploy.StopCandidate | internal/api/apps.go:2240-2244 | a confirmed stop leaves no candidate replica, an unconfirmed one may leave some, and no other replica is touched |
| Handoff.Deploy.StopAndForgetCandidate | internal/api/apps.go:2234-2252 | called only under the previous authority everywhere; candidate rows are gone exactly after a confirmed stop and a successful delete, and kept otherwise |
| Handoff.Deploy.Promote | internal/api/apps.go:3536 | a promotion that returns an error may or may not have moved the pointer |
| Handoff.Deploy.SettlePromotion | internal/api/apps.go:3536-3576 | published exactly if the promotion committed and, its acknowledgement lost, the pointer could be read; restored exactly if it is known not to have and the selection was restored; both generations kept otherwise |
| Handoff.Deploy.RevertActivation | internal/api/apps.go:3578-3584 | a revert that commits restores the pointer and re-inserts missing projection rows |
| Handoff.Deploy.PublishRoute | internal/api/apps.go:3578-3612 | the route is published, or pointer and selection are both restored and the candidate dropped, or both generations are kept |
| Handoff.Deploy.Cutover | internal/api/apps.go:3513-3612 | each outcome, exactly in terms of which calls failed, committed without an answer or could not be read; and each leaves selection, pointer, route and ledgers as it promises |
| Handoff.Deploy.PersistDeployedPool | internal/api/apps.go:2215-2232 | overwrites exactly the slots whose write succeeded, with every crash state in between recoverable |
| Handoff.Deploy.DeleteCandidateRows | internal/api/apps.go:3633-3643 | candidate ledger rows go only when every running candidate replica, if any, has its projection row |
| Handoff.Deploy.RetryLedgerCleanup | internal/api/apps.go:2348-2371 | clears the candidate rows exactly when one of at most eight tries succeeds, and changes nothing otherwise, after a projection as after a confirmed stop |
| Handoff.Deploy.DeferredCleanup | internal/api/apps.go:2983-2990 | the outgoing rows leave the ledger exactly when staged by a fixed generation and the delete succeeds, and only while the projection still names those replicas |
| Handoff.Deploy.Project | internal/api/apps.go:3631-3643 | after publication a fixed candidate owns exactly the slots whose write succeeded and its rows leave the ledger exactly when all were written and the delete succeeds; a grouped one stays in the ledger; older generations keep their rows |
| Handoff.Deploy.Run | internal/api/apps.go:2960-3646 | each of the four outcomes exactly in terms of which single calls failed; after every single effect all running replicas are named, the route is not ahead of the durable pointer nor that of the selection, and only candidate replicas have ended, under the previous authority |
| Handoff.Deploy.StagingMeans | internal/api/apps.go:2171-2213 | staging succeeds exactly if, for a grouped generation, every worker's write does, and, for a fixed one, there are rows, all of it, and every write does |
| Handoff.Deploy.RecordedMeans | internal/api/apps.go:2960-3646 | in every state a crash may leave, each running replica is in the ledger or the projection and no authority runs ahead; whatever ended on the way to it was the candidate's, under the previous authority |
| Handoff.Deploy.EndedMeans | internal/api/apps.go:3513-3646 | what each outcome leaves: who has the three authorities, who still runs, and where the rows are |
| Retirement.CleanupRound | internal/api/apps.go:2284-2322 | one round tries the stop until it is confirmed and then the delete, with its own failure count for each |
| Retirement.CleanupIsBounded | internal/api/apps.go:2284-2322 | every failure pattern is over within the rounds left |
| Retirement.NeverStopped | internal/api/apps.go:2284-2300 | without a confirmed stop every turn is one failure, and the eighth defers to startup recovery |
| Retirement.StoppedThenDeletes | internal/api/apps.go:2284-2322 | from the first confirmed stop the failures count anew: the first delete that works forgets the generation, the eighth failure defers, whatever the stops failed before |
| Retirement.FifteenRoundsHappen | internal/api/apps.go:2284-2322 | the bound of fifteen rounds is reached |
| Retirement.RetireGenerationWhenIdle | internal/api/apps.go:2258-2346 | stop only after the route, ledger delete only after a confirmed stop; the reported session changes add up to the last count seen; the route is retired only when gone, idle or out of time, and by force exactly at the deadline; the exit is the one the answers of its rounds give, in at most fifteen of them |
| Retirement.OrderedMeans | internal/api/apps.go:2284-2346 | each event of such a log: one retirement of the route, stops after it and none after a confirmed one, deletes after a confirmed stop, nothing after a delete that worked |
| Activation.RetryDelayGrows | internal/activation/coordinator.go:281-300 | the backoff never shrinks with more deferrals and stays between one nanosecond and fifteen minutes |
| Activation.RetryDelayDoubles | internal/activation/coordinator.go:284-300 | the first delay is the base, one minute if none is given, and each further one doubles, until fifteen minutes |
| Activation.CapacityRetryDelay | internal/activation/coordinator.go:284-300 | the doubling loop returns the smaller of fifteen minutes and base times two to the number of deferrals, without overflowing |
| Activation.CapacityDueAt | internal/activation/coordinator.go:219-226 | the next capacity check is backed off but never past the age limit |
| Activation.Choose | internal/activation/coordinator.go:167-269 | the switch over the runner's error picks the transition Decide names |
| Activation.Coordinator.Pause | internal/activation/coordinator.go:120-129 | each pause adds one handle to the count |
| Activation.Coordinator.Release | internal/activation/coordinator.go:123-129 | releasing a handle twice counts once |
| Activation.Coordinator.ProcessNext | internal/activation/coordinator.go:131-279 | each claim asks the store for exactly one transition, the one the order of error tests names, and a lost write leaves the row running |
| Activation.NeverDuePastAgeLimit | internal/activation/coordinator.go:204-226 | along every run a row stored as capacity-deferred is due no later than its first deferral plus its age limit, and the first deferral never moves |
| Activation.CapacityFailsExactlyAtAgeLimit | internal/activation/coordinator.go:204-226 | a capacity result ends a row exactly when it has an age limit and the result arrives at or after it, uncounted |
| Activation.CapacityAcrossRuns | internal/activation/coordinator.go:204-226 | after any run, a capacity result fails the row exactly when an age limit has passed since the first recorded deferral; otherwise the row is due after the backoff for its deferrals so far, or at that limit if earlier, also when the deferral is stored as repairing, and only a deferral is counted |
| Activation.EndingsAcrossRuns | internal/activation/coordinator.go:171-190 | after any run, what each result that ends a row leaves: its status, whether an attempt was counted, and the error, earlier kinds before later ones |
| Activation.DeferralsAcrossRuns | internal/activation/coordinator.go:191-268 | after any run, what each result that keeps a row open leaves: when it is due, what was counted, and whether it is a repair |
| Activation.RetriedTwiceThenFailed | internal/activation/coordinator.go:204-254 | for every row, with or without an age limit: retryable results are deferred exactly twice, and the row fails exactly with the third one or with a capacity result past the limit, whatever waiting, lost writes and capacity deferrals lie between |
| Activation.WaitingAndRepairNeverFail | internal/activation/coordinator.go:191-268 | waiting, repair-required results and panics never end a row, however many |
| Activation.CapacityClaimsAreSpaced | internal/activation/coordinator.go:219-231 | n unclipped capacity deferrals space the claims by at least the sum of the n delays |
| Activation.LostSuccessIsRecovered | internal/activation/coordinator.go:174-182 | however many terminal writes are lost, work that either runner finds published and serving is recorded as a success |
| Activation.NotNeededIsRecordedByTheMark | internal/activation/coordinator.go:174-182 | after any history of open rounds, a not-needed answer, for whatever reason, is recorded as a success exactly when the round before it left the row to be claimed as recovering |
| Activation.RecoveryMark | internal/db/schedule_activations.go:675-692 | exactly which rounds leave the row to be claimed as recovering: the phase the runner left, a lost write, a repair, or a wait in recovery |
| Activation.RestartIsInvisibleToClaims | internal/db/schedule_activations.go:962-970 | a server restart changes nothing the next claim of the row can see but its due time |
| HandoffListener.InvariantAlways | cmd/shinyhub/handoff_listener.go:58-103 | in every interleaving every accepted connection is in hand, pending or released, and with one quiescer no wake-up is lost |
| HandoffListener.DrainedMeansReleased | cmd/shinyhub/handoff_listener.go:83-103 | Quiesce returns nil only when accepting has ended and every accepted connection was released |
| HandoffListener.OneQuiescerIsWoken | cmd/shinyhub/handoff_listener.go:58-103 | one quiescer asleep with nothing pending returns nil within three steps |
| HandoffListener.TwoQuiescersLoseAWakeup | cmd/shinyhub/handoff_listener.go:83-103 | a run in which one of two quiescers returns and the other has overslept the wake-up for the last release, with everything drained |
| HandoffListener.SleepsUntilReleaseOrCancel | cmd/shinyhub/handoff_listener.go:97-101 | a quiescer that overslept stays asleep in every run without another release and without its own cancellation |
| HandoffListener.ReleaseWakesSleeper | cmd/shinyhub/handoff_listener.go:58-66 | another release of any accepted connection lets it return nil in three more steps |
| HandoffListener.HandoffListener.Register | cmd/shinyhub/handoff_listener.go:67-75 | the locked part of Accept is the register step |
| HandoffListener.HandoffListener.Release | cmd/shinyhub/handoff_listener.go:58-66 | release is the delete step and then the send step, which never blocks |
| HandoffListener.HandoffListener.Turn | cmd/shinyhub/handoff_listener.go:89-102 | one turn of the loop returns exactly on an empty set and otherwise consumes a buffered wake-up |
| OwnerSpan.Owner.RetryOwnerStep | cmd/shinyhub/main.go:2595-2608 | succeeds exactly when some attempt before the cancellation succeeds |
| OwnerSpan.Owner.Step | cmd/shinyhub/main.go:2610-2768 | a mandatory step is passed only on success, in its order, with the fences of the steps before it held |
| OwnerSpan.Owner.Recover | cmd/shinyhub/main.go:2610-2768 | recovery is complete exactly when every step up to the scheduler succeeds |
| OwnerSpan.ReachedAllMeans | cmd/shinyhub/main.go:2610-2822 | the steps are done exactly if each of them has a successful attempt, or is the worker refresh without workers |
| OwnerSpan.Owner.StartScheduler | cmd/shinyhub/main.go:2809-2816 | admissions are reopened and the scheduler started while both fences are held |
| OwnerSpan.Owner.AbandonStartup | cmd/shinyhub/main.go:2816-2832 | a startup cut short drains the jobs it admitted for as long as that takes, and only then gives back every fence it holds; the gate was never open |
| OwnerSpan.Owner.OpenGate | cmd/shinyhub/main.go:2834-2841 | the gate opens only after every step succeeded and both fences were given back |
| OwnerSpan.Owner.Serve | cmd/shinyhub/main.go:2834-2940 | the gate opens and closes, the loops are waited for without a deadline, and the handoff is incomplete exactly if its bounded drain was |
| OwnerSpan.Owner.DrainOwnershipHandoff | cmd/shinyhub/shutdown.go:98-110 | complete exactly when the job drain finished and some fence attempt succeeded; the fence is tried either way and not kept |
| OwnerSpan.Owner.OwnerWork | cmd/shinyhub/main.go:2591-2940 | in every state of every span readiness implies all steps done and both fences released; each fence is taken and released at most once; a span that returns keeps none and has tried a drain after a resume; one that does not is waiting for a startup drain under both fences or for its loops |
| OwnerSpan.Owner.TraceMeans | cmd/shinyhub/main.go:2591-2940 | every state of a span: ready only with all steps done and both fences given back, jobs resumed only under both fences until the gate or a drain, no fence taken or given back twice |
| OwnerSpan.Owner.Run | cmd/shinyhub/main.go:2942-2953 | the lease is released exactly when every span that had all its steps done ended its loops, drained its jobs and took the fleet fence, and every other one that resumed jobs finished its drain; a span that does not return leaves the lease to expire |
| RelayOwner.RelayOwner.Activate | cmd/shinyhub/relay_rpc.go:234-254 | publishes over the current pointer and remembers it; a closed owner or a failed file operation changes nothing |
| RelayOwner.RelayOwner.Commit | cmd/shinyhub/relay_rpc.go:255 | only the committed mark changes |
| RelayOwner.RelayOwner.Close | cmd/shinyhub/relay_rpc.go:257-289 | runs once; gives the pointer back exactly when uncommitted and still current |
| RelayOwner.RunKeepsInvariant | cmd/shinyhub/relay_rpc.go:205-289 | in every run the pointer is at the child from its publication to its restore and otherwise rests where it was, and no retiring owner is ever pointed at |
| RelayOwner.PointerNamesOpenOwnerExactlyWhen | cmd/shinyhub/relay_rpc.go:205-289 | over any number of upgrades, at a quiescent point owner.current names an open owner, the parent, if and only if no unacknowledged round left it broken and the parent has not handed over to a child that never committed |
| RelayOwner.FaithfulRunsKeepAnOwner | cmd/shinyhub/main.go:3313-3327 | if no pointer I/O fails and every child that sent its readiness goes on to commit, every quiescent point has an open owner, while older owners close at any time |
| RelayOwner.OnlyCommitKeepsAnOwner | cmd/shinyhub/main.go:3455-3482 | once the parent has read the readiness of a child that is not yet committed, and the round has come to rest, owner.current names an open owner exactly if the child then committed; a child that closed and restored it left it at a parent that retires |
| RelayOwner.FailedRoundRepairs | cmd/shinyhub/main.go:3320-3324 | a failed round whose readiness was not read leaves an open owner exactly if the parent republished, or the child never published, or it restored the pointer |
| RelayOwner.SentChildCanLeaveNoOwner | internal/upgrade/repeatable.go:370-406 | from any parent that serves alone, runs without a failed file operation after which no owner is left: the child sends its readiness and then dies or closes, before its commit or after it but before the parent reads the byte |
| RelayAuthorization.OwnerAuthorize | cmd/shinyhub/relay_rpc.go:154-166 | one verdict for each principal in order, or an error exactly on more than 256 principals or a failed recheck |
| RelayAuthorization.AuthorizeContext | cmd/shinyhub/relay_rpc.go:359-386 | chunks of 256 give what one unbounded request would, exactly when every request gets its reply, and an error otherwise |
| RelayAuthorization.RunKeepsInvariant | cmd/shinyhub/relay_rpc.go:390-449 | in every run at most one sweep is out or waiting, and open sessions belong to principals not revoked before the last processed sweep |
| RelayAuthorization.DeadlineFollowsSuccess | cmd/shinyhub/relay_rpc.go:390-449 | in every run the armed deadline is the time of the last complete set of verdicts processed, or of the start, plus the grace; it never fires early; the worker's send never blocks |
| RelayAuthorization.RevokedSessionsEnd | cmd/shinyhub/relay_rpc.go:388-449 | while a session whose principal lost access is open, the armed deadline lies within the grace plus the slowest sweep of that moment, whether the owner answers, fails or stays silent; taking the deadline closes every session |
| RelayAuthorization.ClearedSessionsStay | cmd/shinyhub/relay_rpc.go:428-446 | in every run, a session whose principal every processed set of verdicts clears stays open, until its own end or the deadline |
| RelayAuthorization.InnocentSessionsStay | cmd/shinyhub/relay_rpc.go:403-446 | a session open from the beginning, of a principal that never loses access, outlives every sweep of an honest owner, because each sweep asks about it |
| RelayAuthorization.UnclearedSessionsGo | internal/proxy/reauth.go:86-110 | a processed set of verdicts closes exactly the sessions it does not clear, revoked or unknown |
| RetiringParent.TryApp | cmd/shinyhub/retiring_parent.go:24-32 | an app lock is given back before anything else, whether the cleanup worked or not |
| RetiringParent.PrefixInOrder | cmd/shinyhub/retiring_parent.go:19-37 | a log that ends with its locks in order was in order at every prefix |
| RetiringParent.LocksAreGivenBack | cmd/shinyhub/retiring_parent.go:24-28 | every app lock is given back, and before the next one is taken |
| RetiringParent.SucceededMeans | cmd/shinyhub/retiring_parent.go:24-31 | the apps that count as done are those with a successful cleanup |
| RetiringParent.FinishesExactlyOnSuccesses | cmd/shinyhub/retiring_parent.go:19-37 | without a cancellation, failed locks and cleanups never lose an app |
| RetiringParent.FinishesMeans | cmd/shinyhub/retiring_parent.go:19-37 | the pass gets through exactly if enough attempts succeed before one that begins, or fails and ends, under a cancellation |
| RetiringParent.RunRetiringParentCleanup | cmd/shinyhub/retiring_parent.go:12-42 | the fence is released at most once, last, exactly when the parent exited and every app was cleaned up in order |
| Announcements.SelectedMeansNotEnded | internal/db/announcements.go:170-171 | the millisecond comparison of the query keeps exactly the published rows that have not ended |
| Announcements.FeedShowsExactly | internal/db/announcements.go:53-64 | an announcement is in the feed exactly if it is published, has started and has not ended |
| Announcements.FeedKeepsOrder | internal/api/announcements.go:62-68 | the feed keeps the order of the rows and repeats none |
| Announcements.ActiveAnnouncements | internal/db/announcements.go:169-191 | the row loop returns the active announcements in order, and the first start or end still to come |
| Announcements.WindowAnswers | internal/api/announcements.go:46-74 | anywhere in its window the cached snapshot gives the reply of a fresh query, next transition included |
| Announcements.WindowEndsAtABoundary | internal/api/announcements.go:54-57 | a window cut short ends at a real boundary of a row, after the fetch |
| Announcements.AnnouncementCache.HandleActive | internal/api/announcements.go:43-74 | a read fails only when the window is over and the store fails; otherwise it shows exactly the published rows that have started and not ended, with the next start or end to come, and a new snapshot is served for five seconds or until that |
| Announcements.AnnouncementCache.Invalidate | internal/api/announcements.go:26 | after it the next read queries again |
| Announcements.FilterActive | internal/api/announcements.go:63-69 | the slice loop keeps exactly the active announcements, in order |
| Announcements.AnswersAreFreshQueries | internal/api/announcements.go:43-74 | under any interleaving an answer is the fresh query, at the read's own clock, of a table version that includes every write at least five seconds old, wherever it was made |
| Announcements.ReportedSavesAreSeen | internal/api/announcements.go:288-293 | no read that begins after a save reported success answers from before that save |

## Left out

- SQL, HTTP, sockets, signals, process launch and cloud calls: replaced by abstract state and a choice of success, failure or lost acknowledgement.
- The rest of `handleDeployApp`: upload, quota, manifest application and producer planning, status rows, metrics and audit text.
- The stop-first deploy path and the producer-barrier failure branch, which stop everything on purpose and are outside the cutover claim.
- Handoff.Deploy.BootCandidate: replica starts are sequential; the guard of each replica is independent, so only the order of the crash states is lost.
- Handoff.Deploy.StopAndForgetCandidate: the route of the candidate is never published when it is called, so aborting it is not a step; a survivor set stands for an unconfirmed stop.
- Handoff.Deploy.Run: the retirement of the previous generation and the retries of the ledger cleanup, which run later on their own, are proved separately.
- Retirement.RetireGenerationWhenIdle: timers are a choice of what ends each wait; pruning the app cache after the last delete is left out.
- Activation.Coordinator.ProcessNext: which due row the store hands out and which progress mark the runner leaves are left open; panics marked fatal end the process and are not modelled.
- Activation.CapacityAcrossRuns: one row at a time; a capacity deferral also copies its window to newer rows of the app and may be superseded by one of them, which is not part of this model.
- Activation.LostSuccessIsRecovered: what the two runners do inside a roll, beyond the marks they may leave and how they answer for work that is already serving.
- OwnerSpan.Owner.OpenGate: the two fence releases are one effect, publication first in the source, with nothing of the model in between.
- OwnerSpan.Owner.OwnerWork: best-effort recovery steps between the mandatory ones, the loops it starts and joins, and a panic in the span.
- OwnerSpan.Owner.Run: a lease lost before shutdown needs no release; only the decision at shutdown is modelled, and the watchdog that ends a hanging process is the end of the run.
- RelayOwner.PointerNamesOpenOwnerExactlyWhen: a service shutdown without an upgrade, after which no owner is expected.
- RelayOwner.RelayOwner.Close: the removal of the socket file and the bounded server shutdown before the restore.
- RelayAuthorization.AuthorizeContext: request signing, size limits and time-outs; a reply is whole, one verdict short, or failed.
- Announcements.ActiveAnnouncements: the sort order of the rows, which does not depend on the clock, and the text fields.
- `Rate`, `Burst` and `TryAdmit`, which only compute or wrap; floating-point rounding and wall-clock anomalies.
- Access decisions, tokens, cookies, HMAC and file permissions; the cgroup reader; the announcement editor and its receipts.
