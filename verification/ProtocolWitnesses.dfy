/**
 Three prompt schedules, step by step: a rate-limit error that leaves after its deadline, the
 deadline error of a retried rejection that does, and a caller turned away by a bulkhead all of
 whose permits are held by sleepers.
 */
module ProtocolWitnesses {
  import opened Protocol
  import opened ProtocolTiming
  import opened RequestPolicy
  import opened Wrappers
  import Circuit
  import RateLimiter

  const SCOPE := "real:/quote"

  /** One request every ten seconds, cooldowns from one second. */
  function Setting(capacity: nat): Config {
    Config(Circuit.Config(5, 60.0, 30.0), RateLimiter.Config(10.0, 1.0, 60.0), capacity, 10)
  }

  /** What a step reads of a system whose one endpoint is closed. */
  datatype View = View(
    now: real, requests: map<Id, Request>, failures: seq<real>, limiter: RateLimiter.Limiter, lockedBy: Option<Id>,
    permits: int, waiters: int)

  ghost predicate Looks(s: System, v: View) {
    && v == View(s.now, s.requests, v.failures, s.limiter, s.lockedBy, s.permits, s.waiters) && 0.0 <= s.now
    && s.Breaker(SCOPE) == Circuit.Breaker(v.failures, 0.0, false)
    && forall id :: id in v.requests ==> v.requests[id].scope == SCOPE
  }

  /** A prompt run that ends like this. */
  ghost predicate Shows(cfg: Config, steps: seq<Step>, v: View)
    requires cfg.Valid()
  {
    TimelyRun(cfg, steps) && Looks(Run(cfg, steps), v)
  }

  lemma Extend(cfg: Config, steps: seq<Step>, step: Step)
    requires cfg.Valid() && TimelyRun(cfg, steps) && Timely(Run(cfg, steps), step)
    ensures TimelyRun(cfg, steps + [step]) && Run(cfg, steps + [step]) == Next(cfg, Run(cfg, steps), step)
  {
    hide Timely, Next;
    assert (steps + [step])[..|steps|] == steps;
  }

  /** Nobody is about to take the lock, so any step but the clock's is prompt. */
  ghost predicate NoneCooling(v: View) {
    forall id :: id in v.requests && v.requests[id].place.Cooling? ==> v.requests[id].place.behind
  }

  /** A request's step shows in the view as its reach. */
  lemma Committed(cfg: Config, steps: seq<Step>, v: View, step: Step) returns (longer: seq<Step>, after: View)
    requires cfg.Valid() && Shows(cfg, steps, v) && NoneCooling(v)
    requires Enabled(Run(cfg, steps), step) && !step.Tick? && !step.Start?
    requires var e := Moved(cfg, Run(cfg, steps), step);
             e.breaker.openUntil == 0.0 && !e.breaker.probe && e.request.scope == SCOPE
    ensures var e := Moved(cfg, Run(cfg, steps), step);
            Shows(cfg, longer, after)
            && after == View(v.now, v.requests[step.id := e.request], e.breaker.failures, e.limiter, e.lockedBy,
                        e.permits, e.waiters)
  {
    longer := steps + [step];
    Extend(cfg, steps, step);
    var e := Moved(cfg, Run(cfg, steps), step);
    after := View(v.now, v.requests[step.id := e.request], e.breaker.failures, e.limiter, e.lockedBy, e.permits, e.waiters);
    hide Run, TimelyRun, Local, Moved, Enabled;
  }

  lemma ShownAs(cfg: Config, steps: seq<Step>, v: View)
    requires cfg.Valid() && Shows(cfg, steps, v)
    ensures TimelyRun(cfg, steps) && Looks(Run(cfg, steps), v)
    ensures var s := Run(cfg, steps);
            && 0.0 <= s.now == v.now && s.requests == v.requests && s.limiter == v.limiter && s.lockedBy == v.lockedBy
            && s.permits == v.permits && s.waiters == v.waiters
            && s.Breaker(SCOPE) == Circuit.Breaker(v.failures, 0.0, false)
    ensures forall id :: id in v.requests ==> v.requests[id].scope == SCOPE
  {
  }

  lemma Started(cfg: Config, steps: seq<Step>, v: View, id: Id, terms: Terms) returns (longer: seq<Step>, after: View)
    requires cfg.Valid() && Shows(cfg, steps, v) && NoneCooling(v) && id !in v.requests && terms.policy.Valid()
    ensures Shows(cfg, longer, after)
    ensures after == v.(requests := v.requests[id := Request(SCOPE, terms, terms.Deadline(v.now), 0, 0, Top, FRESH)])
  {
    longer := steps + [Start(id, SCOPE, terms)];
    Extend(cfg, steps, Start(id, SCOPE, terms));
    after := v.(requests := v.requests[id := Request(SCOPE, terms, terms.Deadline(v.now), 0, 0, Top, FRESH)]);
    hide Run, TimelyRun;
  }

  lemma Admitted(cfg: Config, steps: seq<Step>, v: View, id: Id) returns (longer: seq<Step>, after: View)
    requires cfg.Valid() && Shows(cfg, steps, v) && NoneCooling(v) && id in v.requests && v.requests[id].place.Top?
    requires var r := v.requests[id];
             r.attempt < r.terms.MaxAttempts() && v.now < r.deadline && v.waiters < cfg.maxWaiters
    ensures var r := v.requests[id];
            var end := v.now + r.terms.QueueTimeout(r.deadline - v.now);
            Shows(cfg, longer, after)
            && after == v.(requests := v.requests[id := r.(place := Queued(end))], waiters := v.waiters + 1)
  {
    hide Shows, Looks, NoneCooling, Local, TimelyRun, Run, Terms.MaxAttempts, Terms.QueueTimeout;
    ShownAs(cfg, steps, v);
    longer, after := Committed(cfg, steps, v, Admit(id));
  }

  lemma AdmittedLate(cfg: Config, steps: seq<Step>, v: View, id: Id) returns (longer: seq<Step>, after: View)
    requires cfg.Valid() && Shows(cfg, steps, v) && NoneCooling(v) && id in v.requests && v.requests[id].place.Top?
    requires v.requests[id].attempt < v.requests[id].terms.MaxAttempts() && v.requests[id].deadline < v.now
    ensures Shows(cfg, longer, after)
    ensures after == v.(requests := v.requests[id := v.requests[id].(place := Done(DeadlineExceeded, v.now))])
  {
    hide Shows, Looks, NoneCooling, Local, TimelyRun, Run, Terms.MaxAttempts;
    ShownAs(cfg, steps, v);
    longer, after := Committed(cfg, steps, v, Admit(id));
  }

  lemma Acquired(cfg: Config, steps: seq<Step>, v: View, id: Id) returns (longer: seq<Step>, after: View)
    requires cfg.Valid() && Shows(cfg, steps, v) && NoneCooling(v) && id in v.requests && v.requests[id].place.Queued?
    requires v.permits > 0 && v.now <= v.requests[id].place.until && v.now < v.requests[id].deadline
    ensures Shows(cfg, longer, after)
    ensures after == v.(requests := v.requests[id := v.requests[id].(place := AwaitingSlot)],
                                  permits := v.permits - 1, waiters := v.waiters - 1)
  {
    hide Shows, Looks, NoneCooling, Local, TimelyRun, Run;
    ShownAs(cfg, steps, v);
    longer, after := Committed(cfg, steps, v, Acquire(id));
  }

  lemma TimedOut(cfg: Config, steps: seq<Step>, v: View, id: Id) returns (longer: seq<Step>, after: View)
    requires cfg.Valid() && Shows(cfg, steps, v) && NoneCooling(v) && id in v.requests && v.requests[id].place.Queued?
    requires v.requests[id].place.until <= v.now
    ensures Shows(cfg, longer, after)
    ensures after == v.(requests := v.requests[id := v.requests[id].(place := Done(BulkheadRejected, v.now))],
                                  waiters := v.waiters - 1)
  {
    hide Shows, Looks, NoneCooling, Local, TimelyRun, Run;
    ShownAs(cfg, steps, v);
    longer, after := Committed(cfg, steps, v, QueueTimeout(id));
  }

  function SentOff(v: View, r: Request): Request {
    r.(place := InFlight(v.now + r.terms.AttemptTimeout(r.deadline - v.now)),
       past := r.past.(transports := r.past.transports + 1))
  }

  lemma Sent(cfg: Config, steps: seq<Step>, v: View, id: Id) returns (longer: seq<Step>, after: View)
    requires cfg.Valid()
    requires Shows(cfg, steps, v) && NoneCooling(v) && id in v.requests && v.now < v.requests[id].deadline
    requires || (v.requests[id].place.AwaitingSlot? && v.lockedBy.None? && RateLimiter.AllowedAt(v.limiter) <= v.now)
             || (v.requests[id].place.Pacing? && v.requests[id].place.wakeAt <= v.now)
    ensures Shows(cfg, longer, after)
    ensures after == v.(requests := v.requests[id := SentOff(v, v.requests[id])], lockedBy := None,
                        limiter := RateLimiter.Grant(cfg.limiter, v.limiter, v.now))
  {
    hide Shows, Looks, NoneCooling, Local, TimelyRun, Run, Terms.AttemptTimeout;
    ShownAs(cfg, steps, v);
    longer, after := Committed(cfg, steps, v, if v.requests[id].place.Pacing? then WakeInSlot(id) else EnterSlot(id));
  }

  lemma Paces(cfg: Config, steps: seq<Step>, v: View, id: Id) returns (longer: seq<Step>, after: View)
    requires cfg.Valid()
    requires Shows(cfg, steps, v) && NoneCooling(v) && id in v.requests && v.now <= v.requests[id].deadline
    requires v.requests[id].place.AwaitingSlot? && v.lockedBy.None? && RateLimiter.AllowedAt(v.limiter) > v.now
    ensures Shows(cfg, longer, after)
    ensures after == v.(requests := v.requests[id := v.requests[id].(place := Pacing(RateLimiter.AllowedAt(v.limiter)))],
                        lockedBy := Some(id))
  {
    hide Shows, Looks, NoneCooling, Local, TimelyRun, Run, GrantNext, RateLimiter.AllowedAt;
    ShownAs(cfg, steps, v);
    longer, after := Committed(cfg, steps, v, EnterSlot(id));
  }

  /** A rate-limit rejection that finds the lock held. */
  lemma Rejected(cfg: Config, steps: seq<Step>, v: View, id: Id) returns (longer: seq<Step>, after: View)
    requires cfg.Valid()
    requires Shows(cfg, steps, v) && NoneCooling(v) && id in v.requests && v.requests[id].place.InFlight?
    requires v.now <= v.requests[id].place.until && v.lockedBy.Some?
    ensures var r := v.requests[id];
            Shows(cfg, longer, after) && after == v.(
                  requests := v.requests[id := r.(rejections := r.rejections + 1, place := Cooling(None, true),
                                                  past := r.past.(stalled := true))],
                  failures := [], permits := v.permits + 1)
  {
    hide Shows, Looks, NoneCooling, Local, TimelyRun, Run, Drawn;
    ShownAs(cfg, steps, v);
    longer, after := Committed(cfg, steps, v, Responds(id, RateLimited(None), 0.0));
  }

  lemma Cooled(cfg: Config, steps: seq<Step>, v: View, id: Id) returns (longer: seq<Step>, after: View)
    requires cfg.Valid() && Shows(cfg, steps, v) && NoneCooling(v) && id in v.requests && v.lockedBy.None?
    requires v.requests[id].place == Cooling(None, true)
    ensures var r := v.requests[id];
            var next := r.(past := r.past.(cooledAt := v.now));
            Shows(cfg, longer, after) && after == v.(
                  requests := v.requests[id := if r.terms.WillRetryRejection(r.attempt, r.rejections)
                                               then next.(place := Top, attempt := r.attempt + 1)
                                               else next.(place := Done(RateLimitError, v.now))],
                  limiter := RateLimiter.Impose(cfg.limiter, v.limiter, v.now, None))
  {
    hide Shows, Looks, NoneCooling, Local, TimelyRun, Run, Terms.WillRetryRejection, RateLimiter.Impose, RateLimiter.Cooldown;
    ShownAs(cfg, steps, v);
    longer, after := Committed(cfg, steps, v, CoolDown(id));
  }

  /** A transport failure that is to be retried after the whole of its backoff cap. */
  lemma Failed(cfg: Config, steps: seq<Step>, v: View, id: Id) returns (longer: seq<Step>, after: View)
    requires cfg.Valid() && |v.failures| + 1 < cfg.circuit.threshold
    requires Shows(cfg, steps, v) && NoneCooling(v) && id in v.requests
    requires var r := v.requests[id];
             && r.place.InFlight? && r.terms.WillRetry(r.attempt)
             && r.terms.BackoffCap(r.attempt) == 2.0 && v.now + 2.0 < r.deadline
    ensures var r := v.requests[id];
            Shows(cfg, longer, after)
            && after == v.(requests := v.requests[id := r.(place := HoldingBackoff(v.now + 2.0),
                                                                  past := r.past.(failed := Some(TransportFailure)))],
                                  failures := Circuit.PruneFront(v.failures, v.now - cfg.circuit.window) + [v.now])
  {
    hide Shows, Looks, NoneCooling, Local, TimelyRun, Run, Circuit.PruneFront, Terms.WillRetry, Terms.BackoffCap;
    ShownAs(cfg, steps, v);
    PruneShrinks(v.failures, v.now - cfg.circuit.window);
    longer, after := Committed(cfg, steps, v, TransportFails(id, 2.0));
  }

  lemma {:induction false} PruneShrinks(failures: seq<real>, cutoff: real)
    ensures |Circuit.PruneFront(failures, cutoff)| <= |failures|
  {
    if failures != [] && failures[0] < cutoff { PruneShrinks(failures[1..], cutoff); }
  }

  lemma Ticked(cfg: Config, steps: seq<Step>, v: View, elapsed: Duration) returns (longer: seq<Step>, after: View)
    requires cfg.Valid() && Shows(cfg, steps, v) && NoneCooling(v)
    requires forall id :: id in v.requests ==> MayWait(Run(cfg, steps), v.requests[id], v.now + elapsed)
    ensures Shows(cfg, longer, after) && after == v.(now := v.now + elapsed)
  {
    hide Shows, MayWait, Run, TimelyRun;
    ShownAs(cfg, steps, v);
    hide Looks;
    longer := steps + [Tick(elapsed)];
    after := v.(now := v.now + elapsed);
    Extend(cfg, steps, Tick(elapsed));
    hide NoneCooling, Timely;
    TickShows(cfg, Run(cfg, steps), v, elapsed);
    ShowsAfter(cfg, longer, after);
  }

  lemma TickShows(cfg: Config, s: System, v: View, elapsed: Duration)
    requires cfg.Valid() && Looks(s, v)
    ensures Looks(Next(cfg, s, Tick(elapsed)), v.(now := v.now + elapsed))
  {
  }

  lemma ShowsAfter(cfg: Config, steps: seq<Step>, v: View)
    requires cfg.Valid() && TimelyRun(cfg, steps) && Looks(Run(cfg, steps), v)
    ensures Shows(cfg, steps, v)
  {
  }

  // ------------------------------------------------- a lock held too long

  const SENT := Past(1, None, false, 0.0)

  /** Five seconds in all, and one retry of a rejection when `again`. */
  function Quick(again: bool): Terms {
    Terms(Policy(1, 5.0, 5.0, 5.0, 1.0, 1.0), again, 1)
  }

  /** Twenty seconds in all. */
  const PATIENT := Terms(Policy(1, 20.0, 20.0, 20.0, 1.0, 1.0), false, 0)

  function Caller(terms: Terms, deadline: real, place: Place, past: Past): Request {
    Request(SCOPE, terms, deadline, 0, 0, place, past)
  }

  /** Nothing has happened yet. */
  lemma Opening(cfg: Config)
    requires cfg.Valid()
    ensures Shows(cfg, [], View(0.0, map[], [], RateLimiter.IDLE, None, cfg.capacity, 0))
  {
  }

  /** The quick caller is at the upstream. */
  lemma QuickSent(again: bool) returns (steps: seq<Step>, v: View)
    ensures Shows(Setting(2), steps, v) && v.now == 0.0 && v.requests.Keys == {0}
    ensures v.requests[0] == Caller(Quick(again), 5.0, InFlight(5.0), SENT)
    ensures v.limiter == RateLimiter.Limiter(10.0, 0.0, 0) && v.lockedBy.None? && v.permits == 1 && v.waiters == 0
  {
    hide Shows;
    var cfg := Setting(2);
    Opening(cfg);
    steps, v := Started(cfg, [], View(0.0, map[], [], RateLimiter.IDLE, None, 2, 0), 0, Quick(again));
    steps, v := Admitted(cfg, steps, v, 0);
    steps, v := Acquired(cfg, steps, v, 0);
    steps, v := Sent(cfg, steps, v, 0);
  }

  /** The patient caller holds the lock until its slot comes up, ten seconds in. */
  lemma PatientPaces(again: bool) returns (steps: seq<Step>, v: View)
    ensures Shows(Setting(2), steps, v) && v.now == 0.0 && v.requests.Keys == {0, 1}
    ensures v.requests[0] == Caller(Quick(again), 5.0, InFlight(5.0), SENT)
    ensures v.requests[1] == Caller(PATIENT, 20.0, Pacing(10.0), FRESH)
    ensures v.lockedBy == Some(1) && v.permits == 0
  {
    hide Shows;
    var cfg := Setting(2);
    steps, v := QuickSent(again);
    steps, v := Started(cfg, steps, v, 1, PATIENT);
    steps, v := Admitted(cfg, steps, v, 1);
    steps, v := Acquired(cfg, steps, v, 1);
    steps, v := Paces(cfg, steps, v, 1);
  }

  /** The quick caller is rejected and waits for the lock past its deadline. */
  lemma QuickWaits(again: bool) returns (steps: seq<Step>, v: View)
    ensures Shows(Setting(2), steps, v) && v.now == 10.0 && v.lockedBy.None? && v.requests.Keys == {0, 1}
    ensures v.requests[0] == Caller(Quick(again), 5.0, Cooling(None, true), SENT.(stalled := true)).(rejections := 1)
    ensures v.requests[1].place.InFlight?
  {
    hide Shows;
    var cfg := Setting(2);
    steps, v := PatientPaces(again);
    steps, v := Rejected(cfg, steps, v, 0);
    ShownAs(cfg, steps, v);
    steps, v := Ticked(cfg, steps, v, 10.0);
    steps, v := Sent(cfg, steps, v, 1);
  }

  /** A prompt schedule in which a rate-limit error leaves five seconds after its deadline. */
  lemma LateRateLimitError() returns (steps: seq<Step>)
    ensures TimelyRun(Setting(2), steps) && 0 in Run(Setting(2), steps).requests
    ensures var r := Run(Setting(2), steps).requests[0];
            r.deadline == 5.0 && r.place == Done(RateLimitError, 10.0)
  {
    hide Shows;
    var v;
    steps, v := QuickWaits(false);
    steps, v := Cooled(Setting(2), steps, v, 0);
    ShownAs(Setting(2), steps, v);
  }

  /** The same with a retry allowed: the next turn finds the deadline passed. */
  lemma LateDeadlineError() returns (steps: seq<Step>)
    ensures TimelyRun(Setting(2), steps) && 0 in Run(Setting(2), steps).requests
    ensures var r := Run(Setting(2), steps).requests[0];
            r.deadline == 5.0 && r.place == Done(DeadlineExceeded, 10.0)
  {
    hide Shows;
    var v;
    steps, v := QuickWaits(true);
    steps, v := Cooled(Setting(2), steps, v, 0);
    steps, v := AdmittedLate(Setting(2), steps, v, 0);
    ShownAs(Setting(2), steps, v);
  }

  // ------------------------------------------ a bulkhead full of sleepers

  /** Two attempts, backoffs of up to two seconds, one second of queueing. */
  const RETRYING := Terms(Policy(2, 20.0, 20.0, 1.0, 2.0, 2.0), true, 0)

  /** The only permit is held by a request that sleeps until two seconds in. */
  lemma SleeperInside() returns (steps: seq<Step>, v: View)
    ensures Shows(Setting(1), steps, v) && v.now == 0.0 && v.requests.Keys == {0}
    ensures v.requests[0] == Caller(RETRYING, 20.0, HoldingBackoff(2.0), SENT.(failed := Some(TransportFailure)))
    ensures v.permits == 0 && v.waiters == 0
  {
    hide Shows;
    var cfg := Setting(1);
    Opening(cfg);
    steps, v := Started(cfg, [], View(0.0, map[], [], RateLimiter.IDLE, None, 1, 0), 0, RETRYING);
    steps, v := Admitted(cfg, steps, v, 0);
    steps, v := Acquired(cfg, steps, v, 0);
    steps, v := Sent(cfg, steps, v, 0);
    steps, v := Failed(cfg, steps, v, 0);
  }

  /**
   A prompt schedule in which a caller is turned away by the bulkhead after its full queue timeout
   while nobody is at the upstream: every permit is held by a sleeping request.
   */
  lemma SleepersFillBulkhead() returns (steps: seq<Step>)
    ensures TimelyRun(Setting(1), steps) && Run(Setting(1), steps).requests.Keys == {0, 1}
    ensures var s := Run(Setting(1), steps);
            && s.permits == 0 && s.requests[0].place.Asleep() && s.requests[0].place.HoldsPermit()
            && s.requests[1].place == Done(BulkheadRejected, 1.0)
  {
    hide Shows;
    var cfg, v := Setting(1), View(0.0, map[], [], RateLimiter.IDLE, None, 1, 0);
    steps, v := SleeperInside();
    steps, v := Started(cfg, steps, v, 1, RETRYING);
    steps, v := Admitted(cfg, steps, v, 1);
    ShownAs(cfg, steps, v);
    steps, v := Ticked(cfg, steps, v, 1.0);
    steps, v := TimedOut(cfg, steps, v, 1);
    ShownAs(cfg, steps, v);
  }
}
