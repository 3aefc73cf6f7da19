# Verified models of the KIS portfolio service

This project models seven parts of the service in Dafny and proves what they are for. Run
`dafny verify dfyconfig.toml` to check all of it.

**Call resilience** (`Circuit`, `RateLimiter`, `Bulkhead`, `RequestPolicy`, `RequestLoop`,
`RequestLaws`, `Protocol`, `ProtocolBudgets`, `ProtocolCooldowns`, `ProtocolTiming`, `ProtocolLog`,
`ProtocolLoop`, `ProtocolLaws`, `ProtocolWitnesses`). The circuit breaker, the rate limiter and the
bulkhead are classes updated in place; the first two are proved against a value (`Breaker`,
`Limiter`) that the protocol shares. `RequestLoop` is the retry loop of one caller against an
arbitrary environment: it is proved against a function that gives its outcome and every call it
makes, and the rules it keeps and the exact condition for a response are theorems about that
function. `Protocol` interleaves any number of callers: a step is the code between two awaits, and
every theorem holds of every schedule. The clock is monotone. Requests to one environment share one
limiter and one bulkhead; each endpoint has its own circuit. The modules beside it bound what one
request may spend, follow rejection streaks across callers, say which exits can be late in prompt
schedules, and prove that in such a schedule every request is a run of the loop: the calls it makes,
their times and its outcome are those of `RequestLoop` in some environment. Concrete schedules show
that the late exits occur.

**Managed pipeline** (`Pipeline`, `PipelineProgress`, `PipelineAttempts`). Control tables are maps;
each SQL write commits alone, and a call's `life` says after how many writes and handler invocations
the process dies. The theorems range over any sequence of `run` calls with failing, crashing or
succeeding handlers, and say both what a call may never do and that an owed run gets on.

**Signals and replay** (`Signals`, `Replay`, `ReplayLaws`). Decimal is exact `real`; the square root
is any non-negative value whose square is the variance. The incremental loops are proved against
functions that compute each figure directly from the accepted bars.

**Valuation and performance** (`Rounding`, `Sums`, `Valuation`, `ValuationLoaders`, `ValuationLaws`,
`Dietz`, `Performance`, `PerformanceLaws`, `LotThreads`, `LotLaws`). Amounts are exact reals;
displayed and published figures are whole quanta rounded half to even. `Names` holds lists without
repeats. A Python dictionary is a map, with a list of its keys where the order they are walked in
matters; `sorted(…)` over keys is a parameter that lists each key once.

**Point-in-time preview** (`CashPreview`, `PreviewLaws`). Instants are integers, hashing and the
cursor's encoding are injective constructors. The order of the selection is proved unique, so the
dictionary loop, the sort and the declarative choice agree.

**Token cache** (`TokenCache`, `TokenLaws`). One process, any number of callers and keys; what the
database, the legacy file and the upstream return is arbitrary at every lookup.

**Cleanup** (`CleanupPlan`, `PlanLaws`, `CalendarLaws`, `ArtifactCleanup`). The planner's loops are
proved against a direct definition of its plan. The executor runs against a registry that others may
change before every call, and any call may raise; a ghost log in the registry keeps what each
listing reported and each deletion ordered, and the whole execution is proved against a function of
the registry at the start.

The `…Laws` modules say what the specification functions mean in the fields of the inputs alone: the
policy's seconds, the rows' amounts, the published closes. They are written without the formulas of
those functions, so either side checks the other.

## Findings

Each is a property one would expect, with the exact extent to which the code has it.

- A failed pipeline run's row can count more calls than its succeeded stages: a handler that stays
  in the budget is counted before its evidence is written. Row and stages agree exactly when the
  failing handler raised, went over the budget or counted nothing (`Pipeline.FailedRowCounts`); one
  call from empty tables shows the excess (`Pipeline.FailedRowOvercounts`).
- The lineage published with a replay observation is built from the bars' reconstruction modes, not
  their revision hashes, so a revised price keeps its lineage (`Replay.LineageSeesOnlyModes`,
  `Replay.RevisionKeepsLineage`).
- Every contribution is rounded on its own while the reconciliation tolerance is one quantum, so a
  sound period can fail with three components or more and never with fewer
  (`Dietz.ReconciliationGuarantee`); for every size from three on there are inputs that pass all
  gates and are not published (`Performance.SoundPeriodUnavailable`).
- A component whose cash flag changes between two states is reported as an unexplained residual of
  its whole prior value, and the residual vanishes exactly when reclassifications cancel
  (`Valuation.ResidualExplained`). V1 ids rule this out; two loaded V2 states show it
  (`ValuationLoaders.FlagFlipLosesValue`, `ValuationLoaders.ReclassificationUnexplained`).
- The recency floor sorts creation times as text, which keeps the latest versions exactly when text
  and time agree within the package (`CleanupPlan.ChronologicalExactly`). Texts with different
  offsets disagree: nine o'clock in Seoul is kept, half past eight in UTC, which is later, becomes a
  candidate for deletion (`CleanupPlan.LaterVersionIsCandidate`).
- `request_kis` waits for the limiter's lock to impose a cooldown outside its deadline. In prompt
  schedules a request leaves late exactly when its last cooldown was imposed after the deadline; it
  then leaves with a rate-limit error, or with the deadline error of the next turn when the rejection
  was to be retried, and one of its rejections had found the lock held or awaited
  (`ProtocolTiming.LateExits`). Both happen (`ProtocolWitnesses.LateRateLimitError`,
  `ProtocolWitnesses.LateDeadlineError`).
- A transport failure backs off while it still holds its bulkhead permit: in every schedule a
  sleeping request holds one exactly when its last failure was of the transport
  (`ProtocolBudgets.SleeperHoldsPermit`), and such sleepers can take up the whole capacity and have
  another caller turned away (`ProtocolWitnesses.SleepersFillBulkhead`).

## Model

| member | source | states |
|---|---|---|
| Circuit.PruneIsFilter | src/kis_portfolio/clients/kis_resilience.py:359-360 | On a sorted deque the popleft loop drops exactly the times before the cutoff. |
| Circuit.DequeAfterRun | src/kis_portfolio/clients/kis_resilience.py:332-370 | After any run of requests, failures, successes and releases the deque is the failures since the last success within the window that ended at the last failure. |
| Circuit.FailureOpensExactlyAtThreshold | src/kis_portfolio/clients/kis_resilience.py:346-370 | After any run, a failure opens the circuit exactly when it came while the probe was out or the trailing window since the last success holds `threshold` failures; otherwise the open deadline stays. |
| Circuit.AdmissionAfterRun | src/kis_portfolio/clients/kis_resilience.py:320-343 | After any run a set probe means the circuit was opened and its period is over; admission happens exactly when closed, or over with no probe out, and then takes the probe of an opened circuit; only a success lowers `open_until`, and it closes the circuit; every other call frees the probe. |
| Circuit.RunsStayReachable | src/kis_portfolio/clients/kis_resilience.py:320-370 | Every run keeps the deadline within one open period of the clock and the probe flag to opened circuits. |
| Circuit.CircuitState.AllowCircuitRequest | src/kis_portfolio/clients/kis_resilience.py:320-329 | The three-way decision and the state it leaves; a rejection changes nothing. |
| Circuit.CircuitState.RecordCircuitSuccess | src/kis_portfolio/clients/kis_resilience.py:332-336 | The circuit is closed and forgets its failures. |
| Circuit.CircuitState.ReleaseCircuitProbe | src/kis_portfolio/clients/kis_resilience.py:339-343 | Only the probe flag is cleared. |
| Circuit.CircuitState.RecordCircuitFailure | src/kis_portfolio/clients/kis_resilience.py:346-370 | The in-place pruning loop and update leave the breaker of the specification and report whether it opened. |
| RateLimiter.StreakNeverEases | src/kis_portfolio/clients/kis_resilience.py:238-251 | With any grants and any other rejections in between, cooldowns of rejections without Retry-After never shrink, are positive, never pass the maximum, and are the adaptive delay of their place in the streak. |
| RateLimiter.ImposeOnlyDelays | src/kis_portfolio/clients/kis_resilience.py:249-250 | A cooldown moves the block no earlier, and to at least its own length from now. |
| RateLimiter.RateLimitState.BeginWait | src/kis_portfolio/clients/kis_resilience.py:218-223 | The delay reaches both the next allowed start and the end of the block. |
| RateLimiter.RateLimitState.FinishWait | src/kis_portfolio/clients/kis_resilience.py:224 | The slot is taken one interval ahead; nothing else changes. |
| RateLimiter.RateLimitState.ImposeRateLimitCooldown | src/kis_portfolio/clients/kis_resilience.py:238-251 | A positive Retry-After blocks for the smaller of it and the maximum; otherwise the base is doubled once per earlier rejection of the streak, up to the maximum. The block ends no earlier than before, and one more rejection is counted. |
| RateLimiter.RateLimitState.RecordRateLimitSuccess | src/kis_portfolio/clients/kis_resilience.py:254-258 | The streak is reset; the block stays. |
| RateLimiter.DoubledIs | src/kis_portfolio/clients/kis_resilience.py:246-248 | The adaptive delay is the base doubled once per rejection before this one. |
| RateLimiter.CooldownIs | src/kis_portfolio/clients/kis_resilience.py:245-251 | The cooldown is the non-zero Retry-After or else the adaptive delay, capped by the maximum. |
| Bulkhead.BulkheadState.Join | src/kis_portfolio/clients/kis_resilience.py:292-298 | Refused exactly when the queue is full; else one more waiter, counted. |
| Bulkhead.BulkheadState.Acquire | src/kis_portfolio/clients/kis_resilience.py:301-310 | A waiter gets in: one permit and one waiting place change hands, the capacity is conserved. |
| Bulkhead.BulkheadState.TimeOut | src/kis_portfolio/clients/kis_resilience.py:305-310 | The waiting place is given back and no permit is touched. |
| Bulkhead.BulkheadState.Leave | src/kis_portfolio/clients/kis_resilience.py:315-317 | Exactly the permit that was taken is released. |
| Bulkhead.BulkheadState.PassThrough | src/kis_portfolio/clients/kis_resilience.py:284-317 | A whole visit with nobody else acting meanwhile leaves permits and waiters as they were, and enters exactly with room in queue and capacity; `Protocol.EverythingIsGivenBack` says it of every schedule. |
| RequestLoop.Approach | src/kis_portfolio/clients/kis.py:168-217 | One attempt's way to the transport makes exactly the specified calls; it starts at the specified time, or leaves with the specified refusal. |
| RequestLoop.AwaitTransport | src/kis_portfolio/clients/kis.py:217-333 | From transport start to the next turn or the exit: the calls, the exit or the resumption time that the transport, its delay, the budgets and the deadline determine. |
| RequestLoop.RequestKis | src/kis_portfolio/clients/kis.py:156-354 | For every environment the loop leaves with the outcome and has made the calls of the specification, and these keep the rules. |
| RequestLoop.RulesKept | src/kis_portfolio/clients/kis.py:156-354 | For every sequence of outcomes and delays: admissions and permits are settled before the next attempt and the exit, at most `max_attempts` transports and at most one when not retry-safe, at most `rate_limit_retries` + 1 rejections, a returned response by the deadline, the final raise only with no attempt allowed, and each error only for its reason. |
| RequestLoop.RespondsExactly | src/kis_portfolio/clients/kis.py:167-352 | A response is returned exactly when some attempt is reached, every one before it having gone round, its transport starts and a good reply comes within its timeout. |
| RequestLoop.GoesRoundExactly | src/kis_portfolio/clients/kis.py:219-317 | A turn goes round exactly when its transport started, no good reply came, and the retry rule for what came instead, with the backoff inside the deadline, allows it. |
| RequestLoop.LeavesSomewhere | src/kis_portfolio/clients/kis.py:167-354 | With an attempt allowed some reached turn leaves, and the request leaves with its outcome. |
| RequestLoop.ApproachBooked | src/kis_portfolio/clients/kis.py:168-217 | The way to the transport gives everything back, or starts it strictly before the deadline with admission and permit held. |
| RequestLoop.AwaitBooked | src/kis_portfolio/clients/kis.py:219-333 | After the transport the breaker has been told, the permit is back, and a backoff ends before the deadline. |
| RequestLoop.OrderlyMeans | src/kis_portfolio/clients/kis.py:128-132 | An orderly ledger means every transport start and backoff end lies before the deadline and every admission is settled before the next one and before the exit. |
| RequestLaws.WaitsAre | src/kis_portfolio/clients/kis.py:168-219 | In seconds of the policy: a transport starts exactly when admitted, queued within `queue_timeout` and paced before the deadline; its reply counts exactly within `attempt_timeout` and the deadline; otherwise the failure is noticed at the sooner of the two. |
| RequestLaws.TurnExactly | src/kis_portfolio/clients/kis.py:168-317 | A turn goes round exactly when it started, was not well answered, may be retried, has tries left, and a rejection is within the rejection budget or the jittered backoff ends before the deadline; and it resumes at that time. |
| RequestLaws.LeavesExactly | src/kis_portfolio/clients/kis.py:167-352 | What any other turn leaves with, in order: deadline, open circuit, bulkhead, deadline while paced, and then by the reply, its lateness and the tries left. |
| RequestLaws.ReachesNext | src/kis_portfolio/clients/kis.py:167-317 | The next attempt is reached exactly when this one is and goes round, at that time and with that many rejections. |
| RequestLaws.ReturnsExactly | src/kis_portfolio/clients/kis.py:156-354 | For every environment and moment: the request returns its response then exactly when some reached attempt starts and is well answered then, within `attempt_timeout` of its start and `total_timeout` of the request's. |
| RequestLaws.ResponseWithinAttempt | src/kis_portfolio/clients/kis.py:212-219 | Every response ends the last transport of the trace, which started at most `attempt_timeout` earlier. |
| RequestLaws.SilenceIsFailure | src/kis_portfolio/clients/kis.py:212-223 | A started transport that brings no reply within `attempt_timeout` and the deadline is recorded as a breaker failure right after its start. |
| Protocol.EveryRunIsSound | src/kis_portfolio/clients/kis_resilience.py:207-370 | Every interleaving keeps circuits equal to their own call histories, probes owned, the lock exclusive, grants paced, permits and waiters conserved and timers inside deadlines. |
| Protocol.NoProbeIsStranded | src/kis_portfolio/clients/kis.py:167-352 | A set probe flag belongs to a request still between admission and settlement; with none on the endpoint the flag is clear. |
| Protocol.CircuitGate | src/kis_portfolio/clients/kis_resilience.py:320-329 | Whatever step comes next, a request enters an endpoint only with the circuit closed, or as the taker of a free probe after the open period. |
| Protocol.OnlyAnswersClose | src/kis_portfolio/clients/kis.py:263-264 | `open_until` falls only when the upstream answered that endpoint, and `blocked_until` never falls. |
| Protocol.StartsArePaced | src/kis_portfolio/clients/kis_resilience.py:207-251 | Over any interleaving two slot grants are an interval apart and no grant precedes the end of a cooldown imposed before it. |
| Protocol.FailureUnderInterleaving | src/kis_portfolio/clients/kis.py:219-309 | After a transport failure or a transient status in any run, the deque is the endpoint's failures of the trailing window, whoever recorded them, and the circuit opens exactly at the threshold or on a failed probe. |
| Protocol.EverythingIsGivenBack | src/kis_portfolio/clients/kis_resilience.py:284-317 | At most `capacity` requests inside and `max_waiters` waiting; once all have left, every permit, waiting place, lock and probe is back. |
| Protocol.ResponsesInTime | src/kis_portfolio/clients/kis.py:163-352 | Under every schedule a response, a transport timeout and the end of a backoff respect the request's deadline. |
| Protocol.AdmitNext | src/kis_portfolio/clients/kis.py:167-192 | The head of the loop keeps the per-request rules: probe, gate, deadline, permits and waiting places. |
| Protocol.AcquireNext | src/kis_portfolio/clients/kis.py:194-198 | Taking the semaphore keeps them, and a queue that used up the deadline gives the place back. |
| Protocol.GrantNext | src/kis_portfolio/clients/kis.py:199-217 | Granting a slot keeps them and starts the transport only inside the deadline. |
| Protocol.EnterSlotNext | src/kis_portfolio/clients/kis_resilience.py:218-224 | Taking the limiter's lock keeps them, with a sleep exactly as long as the limiter asks. |
| Protocol.SlotTimeoutNext | src/kis_portfolio/clients/kis.py:202-205 | A deadline during pacing keeps them and frees permit, lock and probe. |
| Protocol.TransportFailsNext | src/kis_portfolio/clients/kis.py:219-247 | A transport failure keeps them; the backoff holds the permit. |
| Protocol.RespondsNext | src/kis_portfolio/clients/kis.py:263-352 | A reply of any kind keeps them: rejection, transient status or success. |
| Protocol.CoolDownNext | src/kis_portfolio/clients/kis.py:267-300 | Imposing a cooldown keeps them and retries only within both budgets. |
| Protocol.QueueTimeoutNext | src/kis_portfolio/clients/kis_resilience.py:301-310 | A queue timeout keeps them and gives the waiting place and the probe back. |
| Protocol.BackoffEndsNext | src/kis_portfolio/clients/kis.py:243-247 | The end of a backoff keeps them and frees a held permit. |
| ProtocolBudgets.BudgetsHold | src/kis_portfolio/clients/kis.py:156-354 | Under every schedule a request starts at most `max_attempts` transports, at most one when not retry-safe, sees at most `rate_limit_retries` + 1 rejections, and has left only for the reason its outcome names. |
| ProtocolBudgets.SleeperHoldsPermit | src/kis_portfolio/clients/kis.py:219-247 | Under every schedule a sleeping request holds a permit exactly when its last failure was of the transport. |
| ProtocolCooldowns.StreakCounts | src/kis_portfolio/clients/kis_resilience.py:238-258 | Under every schedule the rejection count grows by the cooldowns imposed, whoever imposes them, until a reply that is not a rejection. |
| ProtocolCooldowns.CooldownsNeverEase | src/kis_portfolio/clients/kis_resilience.py:239-251 | Under every schedule, between two cooldowns without Retry-After and no reply but rejections, the later is at least as long, within the maximum, and the adaptive delay of its place in the streak. |
| ProtocolCooldowns.CooldownImposed | src/kis_portfolio/clients/kis_resilience.py:249-251 | The step that imposes a cooldown extends the shared block to at least its end, and the history records it. |
| ProtocolTiming.TimelyRunsOnTime | src/kis_portfolio/clients/kis.py:163-354 | In prompt schedules every wait of every request is over by its timer, except a cooldown behind a held or awaited lock. |
| ProtocolTiming.LateExits | src/kis_portfolio/clients/kis.py:168-300 | In prompt schedules a request leaves late exactly when its last cooldown was imposed after its deadline, at that moment, with a rate-limit or deadline error, and only if a rejection found the lock held or awaited. |
| ProtocolLog.DeedsAreCalls | src/kis_portfolio/clients/kis.py:167-333 | The log kept of a request is of real calls: each step tells its breaker exactly what the events say, a request turned away by the breaker apart, and takes or frees the permits they name. |
| ProtocolLoop.RequestsFollowTheLoop | src/kis_portfolio/clients/kis.py:156-354 | In every prompt schedule a request that has left made exactly the calls, at exactly the times, and left with the outcome, of the loop in some environment; so its log keeps the rules, and it holds a response exactly when that environment answers a reached attempt. |
| ProtocolLaws.TimersFollowPolicy | src/kis_portfolio/clients/kis.py:193-217 | Over every schedule a queue timer is the sooner of `queue_timeout` after the admission and the deadline, a transport timer the sooner of `attempt_timeout` after its start and the deadline, and a response came within both of the last transport start. |
| ProtocolLaws.DeadlineSinceStart | src/kis_portfolio/clients/kis.py:163 | Over every schedule a request's deadline is `total_timeout` after the step that started it. |
| ProtocolLaws.AcquireDecides | src/kis_portfolio/clients/kis.py:194-198 | Over every schedule a caller let in by the semaphore takes a permit exactly while its deadline has not come, and else leaves with the deadline error. |
| ProtocolLaws.FailureDecides | src/kis_portfolio/clients/kis.py:219-332 | Over every schedule a failure of either kind leads to a transient error without a try left, a deadline error without time for the backoff, and else to exactly the jittered backoff. |
| ProtocolLaws.RejectionDecides | src/kis_portfolio/clients/kis.py:267-304 | Over every schedule a cooled rejection is retried exactly while rejections and tries are left. |
| ProtocolLaws.NoSlotInCooldown | src/kis_portfolio/clients/kis_resilience.py:207-251 | Over every schedule, whoever was rejected: no slot is granted before the imposing step's time plus the smaller of Retry-After and the maximum, or without Retry-After plus the doubled base. |
| ProtocolLaws.StreakIsHistory | src/kis_portfolio/clients/kis_resilience.py:238-258 | Over every schedule the limiter counts exactly the cooldowns imposed since the last reply that was no rejection, and a cooldown without Retry-After is the base doubled that often, up to the maximum. |
| ProtocolLaws.LimiterIsHistory | src/kis_portfolio/clients/kis_resilience.py:218-251 | Over every schedule the next slot is one interval after the last grant and the block ends with the longest cooldown, nothing else. |
| ProtocolLaws.WaitsForHistory | src/kis_portfolio/clients/kis_resilience.py:218-224 | A caller that gets the lock is granted its slot at once exactly when both bounds have passed, and else sleeps until exactly the later. |
| ProtocolWitnesses.LateRateLimitError | src/kis_portfolio/clients/kis.py:263-300 | A prompt schedule in which a rate-limit error leaves after the deadline. |
| ProtocolWitnesses.LateDeadlineError | src/kis_portfolio/clients/kis.py:168-172 | A prompt schedule in which the deadline error of a retried rejection leaves after the deadline. |
| ProtocolWitnesses.SleepersFillBulkhead | src/kis_portfolio/clients/kis.py:243-247 | A prompt schedule in which a caller is turned away while every permit is held by a sleeper. |
| Pipeline.PipelineRegistry.Register | src/kis_portfolio/platform/pipeline.py:89-95 | A version is registered once, never replaced, and only with a non-empty list of distinct stage names. |
| Pipeline.ManagedPipelineRunner.ClaimRun | src/kis_portfolio/platform/pipeline.py:131-158 | The existing row, a fresh one, or a refusal exactly when the id is bound elsewhere. |
| Pipeline.ManagedPipelineRunner.RunStage | src/kis_portfolio/platform/pipeline.py:195-222 | One owed stage updates the tables as specified for every outcome of handler and evidence and every moment of death. |
| Pipeline.ManagedPipelineRunner.FailRow | src/kis_portfolio/platform/pipeline.py:213-222 | The two writes of the failure branch, either of which may be the last. |
| Pipeline.ManagedPipelineRunner.Run | src/kis_portfolio/platform/pipeline.py:160-226 | The imperative run leaves exactly the tables, ending and invoked stages of the specification. |
| Pipeline.StagesRun | src/kis_portfolio/platform/pipeline.py:188-226 | From the first p stages succeeded the loop invokes a contiguous run of stages from p, leaves a longer prefix succeeded within the budget, and completes only with all of them. |
| Pipeline.FailedRowCounts | src/kis_portfolio/platform/pipeline.py:160-222 | From any valid tables a failing `run` call leaves a row that counts the succeeded stages plus, when only the evidence failed, the failing handler's calls; the two agree exactly when that handler raised, went over the budget or counted nothing. |
| Pipeline.FailedRowOvercounts | src/kis_portfolio/platform/pipeline.py:207-221 | One call from empty tables leaves a failed row that counts one call with no succeeded stage. |
| Pipeline.CallDid | src/kis_portfolio/platform/pipeline.py:131-226 | One call keeps the tables valid, touches nothing that has succeeded and invokes no stage that had. |
| Pipeline.AnySequence | src/kis_portfolio/platform/pipeline.py:131-226 | Any sequence of calls keeps the tables valid and everything succeeded durable. |
| Pipeline.SucceededStagesArePrefix | src/kis_portfolio/platform/pipeline.py:188-226 | After any sequence of calls each logical run's succeeded stages are a prefix of its definition within the budget, and a succeeded run row holds their exact sum. |
| Pipeline.CompletedIsFinal | src/kis_portfolio/platform/pipeline.py:174-178 | A completed logical run answers every later call with the same id and count, without a handler and without a write. |
| Pipeline.SucceededStageNeverRuns | src/kis_portfolio/platform/pipeline.py:189-194 | A stage that has succeeded is never handed to a handler again. |
| PipelineProgress.OwedRunCompletes | src/kis_portfolio/platform/pipeline.py:174-226 | From any valid tables with a run left running or failed after its first p stages: a call with life for the rest, whose handlers are all recorded within the budget, invokes exactly the stages from p on and completes that run, reused, with the exact sum and every stage succeeded. |
| PipelineProgress.OwedRunFails | src/kis_portfolio/platform/pipeline.py:188-222 | The first owed stage whose handler raises, goes over the budget or is not recorded is where the call fails, with exactly the stages before it succeeded. |
| PipelineProgress.FreshRunCompletes | src/kis_portfolio/platform/pipeline.py:131-226 | A key never run completes likewise with every stage invoked, not reused. |
| PipelineProgress.ClaimBinds | src/kis_portfolio/platform/pipeline.py:131-158 | A key never run is bound to the id asked for, or a new one when none or an empty one is; refused exactly when another key has it, and then nothing changes. |
| PipelineProgress.FreshRunFails | src/kis_portfolio/platform/pipeline.py:131-222 | A key never run fails likewise at the first stage that is not recorded. |
| PipelineProgress.LeftOpenCanComplete | src/kis_portfolio/platform/pipeline.py:131-226 | Whatever calls came before, however they failed or died, a run left open is completed by one more call whose owed stages are recorded. |
| PipelineProgress.CompletionTakesLife | src/kis_portfolio/platform/pipeline.py:174-226 | A call that completes an open run began three writes and handlers for every stage it invoked, and three besides, four for a fresh key; so the life asked for above is exact. |
| PipelineAttempts.CallCounts | src/kis_portfolio/platform/pipeline.py:189-204 | One call on any tables adds to each attempt count the times that stage's handler was begun, and one more only where the process died between the row and the handler; other runs keep theirs. |
| PipelineAttempts.AttemptsCountHandlers | src/kis_portfolio/platform/pipeline.py:189-204 | Over any sequence of calls the attempts of a stage grow by the times its handler was begun, and beyond that by at most one per call that died. |
| Signals.WilderRsi | src/kis_portfolio/application/signal_replay.py:51-67 | The loop returns the index of the smoothed averages of the last 120 closes. |
| Signals.StrengthIsShare | src/kis_portfolio/application/signal_replay.py:63-67 | Off the flat case the index is the gains' share of all smoothed movement. |
| Signals.RsiInRange | src/kis_portfolio/application/signal_replay.py:51-67 | RSI exists exactly from 15 closes on and lies in [0, 100]. |
| Signals.RsiExtremes | src/kis_portfolio/application/signal_replay.py:63-66 | 100 exactly with a rise and no fall in the window, 0 exactly with a fall and no rise, 50 when flat. |
| Signals.RsiScaleInvariant | src/kis_portfolio/application/signal_replay.py:51-67 | Scaling all prices by a positive constant changes nothing. |
| Signals.RsiMirror | src/kis_portfolio/application/signal_replay.py:51-67 | Mirroring prices turns RSI into 100 - RSI, zero averages included. |
| Signals.WeightOfOne | src/kis_portfolio/application/signal_replay.py:59-62 | Among the first fourteen changes each counts a fourteenth; each later one counts a fourteenth when it enters; and every bar after it leaves thirteen fourteenths of what it counted. |
| Signals.FallbackOnlyWhenFlat | src/kis_portfolio/application/signal_replay.py:70-79 | The bands coincide, and %b is 0.5, exactly when all 20 closes are equal. |
| Signals.LastDeviation | src/kis_portfolio/application/signal_replay.py:37-48 | The last close's squared deviation is at most 19 population variances. |
| Signals.PercentBBounded | src/kis_portfolio/application/signal_replay.py:70-79 | (%b - 1/2)^2 is at most 19/16 off the flat window. |
| Signals.BoundAttained | src/kis_portfolio/application/signal_replay.py:70-79 | A window that moves only on its last bar meets that bound. |
| Replay.Publish | src/kis_portfolio/application/signal_replay.py:137-198 | One accepted bar, computed from the kept history and returns, is the observation computed directly from all accepted bars. |
| Replay.ReplayInstrument | src/kis_portfolio/application/signal_replay.py:134-198 | The loop over one instrument's rows publishes the direct observation of every accepted bar. |
| Replay.GroupRows | src/kis_portfolio/application/signal_replay.py:129-131 | Each instrument's group is its rows in row order. |
| Replay.LoadPriceReplayObservations | src/kis_portfolio/application/signal_replay.py:129-200 | The whole load is the instruments' replays one after the other. |
| Replay.NoLookAhead | src/kis_portfolio/application/signal_replay.py:136-198 | A prefix of the rows gives a prefix of the observations. |
| Replay.OthersAreIrrelevant | src/kis_portfolio/application/signal_replay.py:129-200 | What is published for an instrument is the replay of its own rows, whatever other rows there are. |
| Replay.PreviousValuesChain | src/kis_portfolio/application/signal_replay.py:142-145 | Previous close and previous 20-bar mean are those the observation before published, and the return relates the two closes. |
| Replay.GrowthTelescopes | src/kis_portfolio/application/signal_replay.py:146-148 | The product of one plus the returns is last close over first close. |
| Replay.FiguresPresent | src/kis_portfolio/application/signal_replay.py:143-192 | Each mean, index, deviation and return is present exactly from its own number of bars on. |
| Replay.RatioPresent | src/kis_portfolio/application/signal_replay.py:145-156 | The volume ratio is present exactly when the twenty bars before all have volumes not averaging zero and the bar has one. |
| Replay.LineageSeesOnlyModes | src/kis_portfolio/application/signal_replay.py:193-195 | Two observations share their lineage exactly when their last 120 bars agree on the reconstruction mode. |
| Replay.RevisionKeepsLineage | src/kis_portfolio/application/signal_replay.py:149 | A revised close with a new revision hash keeps the lineage. |
| ReplayLaws.FurtherBar | src/kis_portfolio/application/signal_replay.py:136-141 | A further bar with a positive close adds one observation of it at the end; any other bar changes nothing. |
| ReplayLaws.MeansAreMeans | src/kis_portfolio/application/signal_replay.py:186-188 | On the published observations, for 20, 50 and 120: the mean is there from that bar on and is the sum of that many last published closes over their number. |
| ReplayLaws.MeansMove | src/kis_portfolio/application/signal_replay.py:186-188 | From bar to bar the mean moves by the close that enters less the close that leaves, over their number. |
| ReplayLaws.VolIsDeviation | src/kis_portfolio/application/signal_replay.py:41-48 | The volatility is the root of the mean squared distance of the last 20 published returns from their mean, from the 21st bar on. |
| ReplayLaws.PercentBPlacesClose | src/kis_portfolio/application/signal_replay.py:70-79 | The %b places the close between two deviations below and above the published 20-bar mean, the deviation being the root of the published closes' population variance; one half with no room between. |
| ReplayLaws.RatioIsShare | src/kis_portfolio/application/signal_replay.py:145-156 | The volume ratio is there exactly with a volume and twenty before it that do not add up to zero, and is twenty times the volume over their sum. |
| ReplayLaws.RsiOfCloses | src/kis_portfolio/application/signal_replay.py:51-67 | The index of every observation is that of the published closes up to it. |
| ReplayLaws.ObservationsDescribeBars | src/kis_portfolio/application/signal_replay.py:157-167 | Instrument, session, bar count, provenance and quality follow the accepted bar, with the unsupported mode marked. |
| Rounding.HalfEven | src/kis_portfolio/application/valuation_change.py:54-55 | The result is within half a quantum, and even at a tie. |
| Rounding.HalfEvenUnique | src/kis_portfolio/application/valuation_change.py:54-55 | Those two facts determine it. |
| Rounding.RoundingGap | src/kis_portfolio/application/valuation_change.py:184 | n rounded values add up to within (n + 1)/2 quanta of their rounded sum. |
| Sums.ChangesAcross | src/kis_portfolio/application/valuation_change.py:148-162 | Changes key by key over the union of two dictionaries add up to the change of their totals. |
| Sums.CreditMeans | src/kis_portfolio/application/valuation_change.py:335 | Adding under a key raises that amount and the total, and touches no other entry. |
| Sums.ChangesAddUp | src/kis_portfolio/application/valuation_change.py:163-174 | Account by account changes add up to the change of the totals. |
| Valuation.BuildValuationChangeResult | src/kis_portfolio/application/valuation_change.py:131-220 | The loops return the specified comparison: change by contributor, holding and cash change, residual, tolerance, status and inferences. |
| Valuation.ResidualExplained | src/kis_portfolio/application/valuation_change.py:143-205 | For any two states the residual is the change of the unattributed total plus net reclassification between cash and instruments, and is the former exactly when reclassifications cancel. |
| Valuation.SameFlagsResidual | src/kis_portfolio/application/valuation_change.py:143-205 | With consistent cash flags it is the change of the total less the components. |
| Valuation.SummedStatesReconcile | src/kis_portfolio/application/valuation_change.py:204-211 | States whose total is their sum reconcile exactly with consistent flags, and only quality can degrade the comparison. |
| Valuation.DisplayedSumClose | src/kis_portfolio/application/valuation_change.py:153-204 | For n contributors the displayed changes add up to within (n + 1)/2 hundredths of the displayed holding sum. |
| Valuation.BreakdownAddsUp | src/kis_portfolio/application/valuation_change.py:163-174 | Before rounding an account breakdown adds up to its contributor's change. |
| Valuation.ToleranceAtLeastOne | src/kis_portfolio/application/valuation_change.py:65-67 | The tolerance is at least one KRW. |
| Valuation.Infer | src/kis_portfolio/application/valuation_change.py:212-220 | New and sold positions are told from the displayed values of comparable pairs. |
| ValuationLaws.ToleranceIs | src/kis_portfolio/application/valuation_change.py:65-67 | The tolerance is one KRW or a millionth of the larger total if that is more, to the nearest hundredth. |
| ValuationLaws.ComparableExactly | src/kis_portfolio/application/valuation_change.py:204-211 | A comparison is comparable exactly when both states are complete, without blockers, with every required account observed, of the same required accounts, and the residual is within the tolerance. |
| ValuationLaws.FiguresShown | src/kis_portfolio/application/valuation_change.py:143-220 | Each contributor and account shows the nearest hundredths of its amounts and change, and the inferences are those of the shown values, only when comparable. |
| ValuationLoaders.Group | src/kis_portfolio/application/valuation_change.py:318-336 | The grouping loop builds the specified components. |
| ValuationLoaders.PostAllHolds | src/kis_portfolio/application/valuation_change.py:322-336 | A component holds exactly the amounts of its rows, in total and account by account, and the flag of its first row. |
| ValuationLoaders.GroupingConserves | src/kis_portfolio/application/valuation_change.py:384-429 | Component values add up to the rows' amounts. |
| ValuationLoaders.LoadV1CanonicalState | src/kis_portfolio/application/valuation_change.py:314-364 | One overview becomes the specified state with its blockers. |
| ValuationLoaders.ScanRows | src/kis_portfolio/application/valuation_change.py:385-412 | Observed accounts, latest cutoff, quality blockers, and whether the cutoffs are mixed. |
| ValuationLoaders.LoadV2CanonicalState | src/kis_portfolio/application/valuation_change.py:382-435 | The rows become the specified state, or none when there are none. |
| ValuationLoaders.LoadedStatesBalance | src/kis_portfolio/application/valuation_change.py:337-347 | Every loaded state is a dictionary of components worth their accounts, by row sums. |
| ValuationLoaders.V2IsSummed | src/kis_portfolio/application/valuation_change.py:429 | A V2 total is the sum of its rows and of its components. |
| ValuationLoaders.V2Residual | src/kis_portfolio/application/valuation_change.py:384-435 | Two V2 states leave exactly their net reclassification, hence zero with consistent flags. |
| ValuationLoaders.FlagFlipLosesValue | src/kis_portfolio/application/valuation_change.py:143-206 | A position written as cash the next time loads without a blocker and is reported as an unexplained loss of its whole value. |
| ValuationLoaders.ReclassificationUnexplained | src/kis_portfolio/application/valuation_change.py:143-206 | With 100 KRW so held the residual is -100 and the comparison is refused, though nothing moved. |
| ValuationLoaders.V1FlagInId | src/kis_portfolio/application/valuation_change.py:290-293 | A V1 component is cash exactly when its id says so. |
| ValuationLoaders.V1Residual | src/kis_portfolio/application/valuation_change.py:290-364 | V1 flags are always consistent, so the residual is what the stated totals have beyond their rows. |
| ValuationLaws.V2Sound | src/kis_portfolio/application/valuation_change.py:384-435 | A V2 state is complete exactly without blockers, taken at the latest cutoff, and fit exactly with passing rows of one cutoff from exactly the registered accounts. |
| ValuationLaws.V1Sound | src/kis_portfolio/application/valuation_change.py:314-364 | A V1 state is complete as the overview says and without blockers exactly with no flags, some rows, and a stated total that the rows add up to within the tolerance. |
| ValuationLaws.V1RowGoesTo | src/kis_portfolio/application/valuation_change.py:290-335 | Cash goes by currency and anything else by market and symbol, with the stated substitutes; a missing amount counts nothing. |
| ValuationLaws.V2RowGoesTo | src/kis_portfolio/application/valuation_change.py:413-429 | A row goes to its instrument and account, as cash exactly by its level. |
| Dietz.WeightInUnit | src/kis_portfolio/application/portfolio_performance.py:576-578 | Each flow weight is in [0, 1). |
| Dietz.GainsAddUp | src/kis_portfolio/application/portfolio_performance.py:611-646 | Component gains add up to the portfolio's gain plus the flows into components neither state holds. |
| Dietz.ExactResidual | src/kis_portfolio/application/portfolio_performance.py:555-664 | Before rounding the residual is minus those flows over the denominator. |
| Dietz.ResidualVanishes | src/kis_portfolio/application/portfolio_performance.py:388-395 | Owner flows go to KRW cash, so it is zero exactly when a state holds KRW cash or the flows net to zero. |
| Dietz.ResidualBound | src/kis_portfolio/modules/monitoring/portfolio_performance.py:16-56 | The published residual of n components is at most (n + 1)/2 quanta. |
| Dietz.RoundingBreaksReconciliation | src/kis_portfolio/application/portfolio_performance.py:665-674 | For every n from three on a sound period without flows has a residual of two quanta and fails. |
| Dietz.ReconciliationGuarantee | src/kis_portfolio/application/portfolio_performance.py:665-674 | Sound periods of n components always reconcile exactly when n is at most two. |
| Performance.CashFlows | src/kis_portfolio/application/portfolio_performance.py:365-396 | All owner flows in order, or the reason of the first refused row. |
| Performance.OwnerFlowsMean | src/kis_portfolio/application/portfolio_performance.py:379-395 | Every flow goes to KRW cash and keeps an instant inside the period. |
| PerformanceLaws.OwnerFlowsAreRows | src/kis_portfolio/application/portfolio_performance.py:365-396 | The flows are exactly the deposits and withdrawals, in row order, each with its own amount and instant into KRW cash, deposits never negative and withdrawals never positive; they exist exactly when no row stops the period. |
| PerformanceLaws.FirstObjectionCounts | src/kis_portfolio/application/portfolio_performance.py:375-387 | The first row that stops the period gives the reason, by its own first objection. |
| Performance.WeighFlows | src/kis_portfolio/application/portfolio_performance.py:575-590 | The loop computes the denominator. |
| Performance.FlowsByComponent | src/kis_portfolio/application/portfolio_performance.py:612-614 | The dictionary lists each component's flows with their exact sum. |
| Performance.Contribute | src/kis_portfolio/application/portfolio_performance.py:615-646 | The loop computes every published contribution and their sum. |
| Performance.Evaluate | src/kis_portfolio/application/portfolio_performance.py:460-465 | Whatever the outcome, the chain is broken, linked to the new wealth with a drawdown of at most zero, or left alone. |
| Performance.EvaluatePeriodAndStore | src/kis_portfolio/application/portfolio_performance.py:477-739 | The gates in order, then the published figures and the chain. |
| Performance.EvaluateHistoryAndStore | src/kis_portfolio/application/portfolio_performance.py:741-768 | The loop threads the chain through all periods and stops at the first raise. |
| Performance.PublishedAddsUp | src/kis_portfolio/application/portfolio_performance.py:647-674 | Published contributions and residual add up to the published return, and the residual is at most one quantum. |
| Performance.ChainMeans | src/kis_portfolio/application/portfolio_performance.py:675-716 | High water is the greatest wealth published, wealth is published exactly while no period was unavailable, and drawdowns are at most zero. |
| Performance.GapIsFinal | src/kis_portfolio/application/portfolio_performance.py:717-736 | After the first unavailable period the chain stays unavailable and unchanged. |
| PerformanceLaws.PassesGates | src/kis_portfolio/application/portfolio_performance.py:477-554 | A period passes exactly with two passing states of one fully covered account set, in order, calendar and coverage sound, and no stopping row. |
| PerformanceLaws.GateIsFirst | src/kis_portfolio/application/portfolio_performance.py:477-554 | The reason given is that of the first gate in order that does not pass. |
| PerformanceLaws.PublishedShares | src/kis_portfolio/application/portfolio_performance.py:555-646 | A published return is the gain beyond the owner's rows over what was invested on average, each contribution its component's, to the nearest quantum. |
| PerformanceLaws.PublishedChain | src/kis_portfolio/application/portfolio_performance.py:675-716 | The wealth is the wealth before grown by the published return, the high water the greater of the two, the drawdown the share below it, to the nearest quantum. |
| PerformanceLaws.PureFlowsEarnNothing | src/kis_portfolio/application/portfolio_performance.py:555-716 | A published period whose total changed by exactly the owner's rows has return zero and leaves the wealth as it was. |
| PerformanceLaws.OutcomeExactly | src/kis_portfolio/application/portfolio_performance.py:470-739 | What any period comes to, case by case in order, down to the tolerance of one quantum, in the fields of its inputs. |
| Performance.SmallPortfoliosReconcile | src/kis_portfolio/application/portfolio_performance.py:655-674 | With at most two components, KRW cash among them, a period that passes the gates is published. |
| Performance.SoundPeriodUnavailable | src/kis_portfolio/application/portfolio_performance.py:655-674 | For every size from three on, KRW cash among the components, there are valid inputs that pass every gate and are reported as a failed reconciliation. |
| LotThreads.SumLots | src/kis_portfolio/application/lot_thread_risk.py:391-397 | The loop sums what each episode's lots hold. |
| LotThreads.CheckEpisodes | src/kis_portfolio/application/lot_thread_risk.py:398-403 | Either some episode disagrees with its lots, or the open quantities by scope. |
| LotThreads.CheckBaseQuality | src/kis_portfolio/application/lot_thread_risk.py:377-411 | The first gate that fails, in the order of the code. |
| LotThreads.GroupThreads | src/kis_portfolio/application/lot_thread_risk.py:617-620 | Each thread's list is its open lots in order. |
| LotThreads.ThreadsMatchPositions | src/kis_portfolio/application/lot_thread_risk.py:377-411 | With no fault, non-negative quantities, distinct episode ids and lots carrying their episode's scope, lot quantities over all threads equal the canonical quantity of every account and instrument, zero where absent. |
| LotThreads.OpenLotsInOneThread | src/kis_portfolio/application/lot_thread_risk.py:617-620 | With no fault a lot is in a thread exactly when it is open, and then in one only. |
| LotThreads.InThreadOnce | src/kis_portfolio/application/lot_thread_risk.py:617-620 | No lot is listed twice. |
| LotLaws.QualityExactly | src/kis_portfolio/application/lot_thread_risk.py:377-411 | What the gate answers in order, in the fields of episodes, lots, links and canonical quantities, down to the first lot at fault. |
| LotLaws.CanonicalMatches | src/kis_portfolio/application/lot_thread_risk.py:398-406 | The canonical check passes exactly when the positions are the scopes of open episodes with their summed quantities. |
| LotLaws.ThreadExactly | src/kis_portfolio/application/lot_thread_risk.py:617-620 | A thread lists exactly the open lots linked to it and to nothing else. |
| CashPreview.EvaluationHistory.Append | src/kis_portfolio/services/cash_reconciliation.py:313-322 | A repeated input returns the recorded row; otherwise the interval's next revision is appended. |
| CashPreview.AppendKeepsNumbering | src/kis_portfolio/services/cash_reconciliation.py:313-322 | Revisions number the rows of each interval from one, in every history. |
| PreviewLaws.AppendRecordsOnce | src/kis_portfolio/services/cash_reconciliation.py:313-322 | An interval's inputs are recorded once: the history grows exactly when they were not there, and the row returned carries them. |
| CashPreview.SelectionCorrect | src/kis_portfolio/application/cash_reconciliation_preview.py:31-42 | The selection is exactly the newest eligible revision of each interval, strictly ordered. |
| CashPreview.EachIntervalOnce | src/kis_portfolio/application/cash_reconciliation_preview.py:31-42 | Each interval with an eligible revision appears once, with the greatest (knowledge cutoff, revision). |
| CashPreview.SelectionIgnoresOrder | src/kis_portfolio/application/cash_reconciliation_preview.py:30-42 | Histories with the same rows in any order have the same selection. |
| CashPreview.Choose | src/kis_portfolio/application/cash_reconciliation_preview.py:31-41 | The dictionary loop holds exactly the selection. |
| CashPreview.SortedRows | src/kis_portfolio/application/cash_reconciliation_preview.py:42 | Sorting its values gives the selection in order. |
| CashPreview.ReadPreview | src/kis_portfolio/application/cash_reconciliation_preview.py:23-78 | The read returns the page of the specification or its error. |
| CashPreview.PagesCoverSelection | src/kis_portfolio/application/cash_reconciliation_preview.py:45-74 | Following cursors from the start with any limits ends and reads the whole selection once, in order. |
| CashPreview.CursorBoundToSelection | src/kis_portfolio/application/cash_reconciliation_preview.py:43-56 | An issued cursor is honoured exactly when scope, range, cutoff and the selected evaluations and revisions are the same. |
| CashPreview.LaterKnowledgeChangesNothing | src/kis_portfolio/application/cash_reconciliation_preview.py:36-44 | Rows known only after the cutoff change no page, so issued cursors stay good. |
| PreviewLaws.PageShowsAsked | src/kis_portfolio/application/cash_reconciliation_preview.py:31-42 | Every row of a page is recorded, of the account and currency asked for, with `start <= t1 <= end`, known by the cutoff, and superseded by no other such row. |
| PreviewLaws.PagesShowEveryInterval | src/kis_portfolio/application/cash_reconciliation_preview.py:31-74 | Following the cursors shows one row of every interval that has such a row. |
| PreviewLaws.AnswersExactly | src/kis_portfolio/application/cash_reconciliation_preview.py:23-78 | Each refusal exactly for its reason, in order, and else the next `limit` rows with a cursor exactly when some are left. |
| TokenCache.QuietWhileFresh | src/kis_portfolio/auth.py:644-720 | Over any interleaving no unforced caller starts a refresh while the latest stored token is fresh. |
| TokenCache.OneRefreshAtATime | src/kis_portfolio/auth.py:644 | A key has at most one refresh in flight. |
| TokenCache.RefreshesAreSpaced | src/kis_portfolio/auth.py:588-798 | Between two successive successful refreshes, the second unforced, the first token came within the safety margin of its expiry. |
| TokenCache.AtMostOneRefresh | src/kis_portfolio/auth.py:588-798 | Whatever the database does, unforced callers refresh a key at most once while its stored tokens stay fresh. |
| TokenCache.ServedIsFresh | src/kis_portfolio/auth.py:591-692 | Whatever a lookup serves has a text and more than the safety margin left, and comes from the row, the memory or the legacy file. |
| TokenLaws.ArrivalExactly | src/kis_portfolio/auth.py:588-640 | Before the lock an unforced caller gets the row's token, else the memory's, else waits; a valid row that cannot be decrypted raises. |
| TokenLaws.EntryExactly | src/kis_portfolio/auth.py:644-720 | Under the lock the row, the memory and the legacy file are asked in order, the file only with no row; else a request goes out and the lock is kept. |
| TokenLaws.AnswerExactly | src/kis_portfolio/auth.py:510-538 | The stored token has the text answered and the expiry given, else now plus a non-zero `expires_in`, else now plus 23 hours and 50 minutes; the lock is freed. |
| TokenLaws.StoredTokenIsReused | src/kis_portfolio/auth.py:591-692 | After any run an unforced caller whose row serves nothing is given exactly the token last stored, while it has more than the margin left. |
| TokenCache.ProcessTokens.ReadValid | src/kis_portfolio/auth.py:142-152 | The cached text exactly when the record is valid and its text is not empty. |
| TokenCache.ProcessTokens.EnterLocked | src/kis_portfolio/auth.py:644-720 | The lookups under the lock: an outcome, or the lock kept for the request. |
| TokenCache.ProcessTokens.StoreAnswer | src/kis_portfolio/auth.py:730-807 | The answer is remembered under the key and the lock released, persisted or not. |
| CleanupPlan.ValidateVersions | src/kis_portfolio/platform/production_guardrails.py:169-201 | Repeats are reported exactly when two versions share repository, package and digest. |
| CleanupPlan.CandidateExactly | src/kis_portfolio/platform/production_guardrails.py:740-767 | Entry i is version i, and it is a candidate exactly when untagged, unnamed by any target, old enough and not recent. |
| PlanLaws.EntryExactly | src/kis_portfolio/platform/production_guardrails.py:740-775 | Each version's age in whole days, every reason exactly when it applies, and the action they lead to, in the fields of inventory and manifest. |
| PlanLaws.CompleteExactly | src/kis_portfolio/platform/production_guardrails.py:690-728 | A plan is complete exactly with a complete inventory, a restore verified in the past within the retention days, every running resource covered by digest and rollback, and every target in stock. |
| CalendarLaws.NextDay | src/kis_portfolio/platform/production_guardrails.py:54-66 | The day count behind a timestamp starts at the first of January of year one and adds one for every next day, across months and leap years. |
| CalendarLaws.TimeRuns | src/kis_portfolio/platform/production_guardrails.py:54-66 | Two timestamps of one zone lie apart by the days, hours, minutes and seconds they show. |
| CalendarLaws.ZoneShifts | src/kis_portfolio/platform/production_guardrails.py:54-66 | The same date and clock with a positive offset name an instant earlier by that offset, and with a negative one later. |
| CleanupPlan.FloorIsKept | src/kis_portfolio/platform/production_guardrails.py:731-738 | Every package keeps the smaller of floor and size as protected versions, and none of the others sorts newer. |
| CleanupPlan.ChronologicalExactly | src/kis_portfolio/platform/production_guardrails.py:737 | The kept versions are the latest in time for every floor exactly when text order agrees with time. |
| CleanupPlan.FloorPrefersText | src/kis_portfolio/platform/production_guardrails.py:731-767 | Whenever the earlier of two creation texts does not sort below the later, some validated inventory and manifest without blockers keep the earlier version and leave the later a candidate. |
| CleanupPlan.EarlierSortsLater | src/kis_portfolio/platform/production_guardrails.py:54-66 | Two accepted texts whose order as text is the reverse of their order in time. |
| CleanupPlan.LaterVersionIsCandidate | src/kis_portfolio/platform/production_guardrails.py:731-767 | With those texts a plan keeps the earlier version for recency and makes the later a candidate. |
| CleanupPlan.RunningImagesAreProtected | src/kis_portfolio/platform/production_guardrails.py:704-729 | In a complete plan each running compute digest is its manifest target's, and that target and its rollback are present with every version protected. |
| CleanupPlan.NewestFirstSorts | src/kis_portfolio/platform/production_guardrails.py:737 | The newest-first order is a descending permutation. |
| CleanupPlan.CheckResource | src/kis_portfolio/platform/production_guardrails.py:707-714 | The blockers of one running resource. |
| CleanupPlan.CheckTargets | src/kis_portfolio/platform/production_guardrails.py:716-724 | The targets absent from the inventory. |
| CleanupPlan.CollectRecent | src/kis_portfolio/platform/production_guardrails.py:732-738 | The recent keys are those of the newest versions of every package. |
| CleanupPlan.PlanArtifactCleanup | src/kis_portfolio/platform/production_guardrails.py:680-788 | The loops return the specified blockers and one entry per version. |
| ArtifactCleanup.FlattenGroups | src/kis_portfolio/platform/artifact_cleanup.py:54-55 | The set of all images of a package map. |
| ArtifactCleanup.CountGroupFaults | src/kis_portfolio/platform/artifact_cleanup.py:77-93 | No fault exactly when the map is non-empty with non-empty lists of distinct digests. |
| ArtifactCleanup.ReferencesRetained | src/kis_portfolio/platform/artifact_cleanup.py:107-117 | Accepted exactly when there are references and all are retained and not removed. |
| ArtifactCleanup.ValidateSpec | src/kis_portfolio/platform/artifact_cleanup.py:58-120 | Accepted exactly when every requirement holds. |
| ArtifactCleanup.SpecConserves | src/kis_portfolio/platform/artifact_cleanup.py:98-117 | In an accepted specification the counts add up and every protected reference survives. |
| ArtifactCleanup.Observe | src/kis_portfolio/platform/artifact_cleanup.py:252-266 | The registry is listed, then the running services, each as it is at that moment, and the verdict is that of the specification. |
| ArtifactCleanup.DeleteInOrder | src/kis_portfolio/platform/artifact_cleanup.py:273-280 | One delete command per image in order, stopping at the first that raises; log and registry are those of the specification. |
| ArtifactCleanup.Recheck | src/kis_portfolio/platform/artifact_cleanup.py:282-291 | The registry is listed again, and passes exactly when nothing removed is left and nothing retained is missing. |
| ArtifactCleanup.ExecuteArtifactCleanup | src/kis_portfolio/platform/artifact_cleanup.py:235-292 | Outcome, registry and everything seen and ordered are those of the specification, whatever others do and whichever call raises. |
| ArtifactCleanup.OrdersAreSafe | src/kis_portfolio/platform/artifact_cleanup.py:245-280 | In every execution a deletion is ordered only on an approved apply from master, after a listing of the registry as it was that equals the specification and a look at what was running; the image was listed untagged, is not running, retained or protected, and follows the approved order, once. |
| ArtifactCleanup.AppliedMeansGone | src/kis_portfolio/platform/artifact_cleanup.py:273-292 | `applied` means every removable image was ordered once and reported done, as many as approved, and the final listing is the registry left: none of the removed, all of the retained. |
| ArtifactCleanup.UndisturbedExecution | src/kis_portfolio/platform/artifact_cleanup.py:245-292 | With nobody else acting an execution passes exactly when every gate does, an apply leaves exactly the retained images, and anything else leaves the registry alone. |
| ArtifactCleanup.OthersAreSpared | src/kis_portfolio/platform/artifact_cleanup.py:245-292 | However an execution ends, an image not approved for removal that nobody else removes is still there. |
| ArtifactCleanup.FailedDeleteKeepsImage | src/kis_portfolio/platform/artifact_cleanup.py:273-280 | When a deletion raises it is the last one ordered, and its image is still there unless others removed it. |

## Left out

- HTTP, gcloud, Firestore, SQL text, environment parsing, logging and the random draw of the jitter: results are parameters, the draw is any value up to its cap.
- Cancellation of a caller from outside and client exceptions other than timeouts and transport errors, which the retry loop does not handle.
- A claim that only one physical probe is in flight: failures and releases do not check who took the probe.
- Prompt timers: a queue or transport timer ends its wait before anything later happens to the same request, so no step takes a permit or a reply after its timer is due; this is what `Protocol.ResponsesInTime` rests on. Only `ProtocolTiming` further assumes that no due timer or runnable request waits while the clock moves.
- First-come order at the semaphore and the limiter's lock: any waiter may be next, which allows more schedules than the event loop does.
- The token request's own slot wait and its one retry are inside a single in-flight phase; the limiter of the token scope is not connected to it.
- The distributed refresh lease, encryption and the status report of the token cache; the wall clock is taken as monotone.
- Two runs of one logical pipeline key at the same time, re-registration of a changed definition under one version, and the quality and lineage rows of a stage.
- The source-call sum of a run is taken over the stages of its definition, which are all its rows while a version keeps one definition.
- Joined keys are taken as injective: reconstruction modes and the five fields of a logical run key contain no `|`.
- Replay's presentation columns (slot, asset class, session key, label) and the row-budget check.
- Decimal context precision, the float conversion of displayed amounts and percentages, ranking of the top contributors, and the texts of blockers.
- Unicode case folding: text columns arrive already cased.
- The calendar, account-coverage and cash-coverage queries of performance: their verdicts are parameters, as is the grouping of rows into a portfolio state.
- Price paths, plans, currency rates and the risk formulas of lots and threads.
- The response size cap of the preview, and the fields of a row that the choice does not read.
- The listing of several repositories, and the queries for services, revisions and jobs, are each one moment of the registry; only the repositories of retained packages are listed, and the registry stands for those.
- Schema, format and timestamp validation of cleanup inputs: one flag stands for them; the final sort of plan entries only reorders them.
