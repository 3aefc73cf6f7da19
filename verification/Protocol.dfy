/**
 Many `request_kis` calls interleaved in one environment: they share the circuit of
 their endpoint, one rate limiter with its lock, and one bulkhead. A step is the code
 between two awaits of one request, or the passing of time; any enabled step may come
 next, so what holds of every run here holds of every schedule of the event loop.
 */
module Protocol {
  import opened Numbers
  import opened RequestPolicy
  import opened Wrappers
  import Circuit
  import RateLimiter

  type Id = nat
  type Scope = string

  datatype Config = Config(circuit: Circuit.Config, limiter: RateLimiter.Config, capacity: nat, maxWaiters: nat) {
    predicate Valid() {
      circuit.Valid() && limiter.Valid() && capacity > 0 && maxWaiters > 0
    }
  }

  /** Where a request is suspended. `Top` is the head of the retry loop. */
  datatype Place =
    | Top
    | Queued(until: real)           // awaiting the semaphore, counted as a waiter
    | AwaitingSlot                  // holds a permit, awaiting the limiter's lock
    | Pacing(wakeAt: real)          // holds a permit and the lock, asleep
    | InFlight(until: real)         // holds a permit, awaiting the transport
    | HoldingBackoff(wakeAt: real)  // asleep after a transport failure, still inside the bulkhead
    | Cooling(retryAfter: Option<real>, behind: bool)  // rejected by the rate limit; `behind` others for the lock
    | Backoff(wakeAt: real)         // asleep after a transient status
    | Done(outcome: Outcome, at: real)
  {
    predicate HoldsPermit() { AwaitingSlot? || Pacing? || InFlight? || HoldingBackoff? }
    /** Admitted by the breaker, and the breaker not yet told what came of it. */
    predicate Unsettled() { Queued? || AwaitingSlot? || Pacing? || InFlight? }
    predicate Asleep() { HoldingBackoff? || Backoff? }
  }

  datatype Failure = TransportFailure | StatusFailure

  /**
   What has happened to a request: its transport starts, its last failure, whether one of its
   rejections found the limiter's lock held or awaited, and when it last imposed a cooldown.
   */
  datatype Past = Past(transports: nat, failed: Option<Failure>, stalled: bool, cooledAt: real)

  const FRESH := Past(0, None, false, 0.0)

  datatype Request = Request(
    scope: Scope, terms: Terms, deadline: real, attempt: nat, rejections: nat, place: Place, past: Past)

  /** History of the limiter, oldest first. */
  datatype Mark = Granted(at: real) | Cooled(until: real)

  /**
   `calls` keeps every call made on each circuit and `takers` the request that last took its
   half-open probe; with `history` and each request's `past` they only remember, no step reads them.
   */
  datatype System = System(
    now: real,
    circuits: map<Scope, Circuit.Breaker>,
    calls: map<Scope, seq<Circuit.Call>>,
    takers: map<Scope, Id>,
    limiter: RateLimiter.Limiter,
    lockedBy: Option<Id>,
    history: seq<Mark>,
    permits: int,
    waiters: int,
    requests: map<Id, Request>)
  {
    function Breaker(scope: Scope): Circuit.Breaker {
      if scope in circuits then circuits[scope] else Circuit.CLOSED
    }

    function CallsOn(scope: Scope): seq<Circuit.Call> {
      if scope in calls then calls[scope] else []
    }
  }

  datatype Step =
    | Tick(elapsed: Duration)
    | Start(id: Id, scope: Scope, terms: Terms)
    | Admit(id: Id)
    | Acquire(id: Id)
    | QueueTimeout(id: Id)
    | EnterSlot(id: Id)
    | WakeInSlot(id: Id)
    | SlotTimeout(id: Id)
    | TransportFails(id: Id, jitter: Duration)
    | Responds(id: Id, reply: Reply, jitter: Duration)
    | CoolDown(id: Id)
    | BackoffEnds(id: Id)

  // ------------------------------------------------------------ the steps

  /** What one request's step may touch: itself, its own circuit, and what all requests share. */
  datatype Reach = Reach(
    request: Request,
    breaker: Circuit.Breaker,
    calls: seq<Circuit.Call>,
    takesProbe: bool,
    limiter: RateLimiter.Limiter,
    lockedBy: Option<Id>,
    marks: seq<Mark>,
    permits: int,
    waiters: int)
  {
    function To(place: Place): Reach {
      this.(request := request.(place := place))
    }

    function Leave(outcome: Outcome, now: real): Reach {
      To(Done(outcome, now))
    }

    function Remember(past: Past): Reach {
      this.(request := request.(past := past))
    }

    /** The next turn of the retry loop. */
    function Again(): Reach {
      this.(request := request.(place := Top, attempt := request.attempt + 1))
    }

    function Tell(cfg: Config, call: Circuit.Call): Reach {
      this.(breaker := Circuit.Apply(cfg.circuit, breaker, call), calls := calls + [call])
    }

    /** `release_circuit_probe`, then the exception that leaves the request. */
    function Abandon(cfg: Config, now: real, outcome: Outcome): Reach {
      Tell(cfg, Circuit.ProbeRelease(now)).Leave(outcome, now)
    }

    function FreePermit(): Reach {
      this.(permits := permits + 1)
    }
  }

  function ReachOf(s: System, id: Id): Reach
    requires id in s.requests
  {
    Reach(s.requests[id], s.Breaker(s.requests[id].scope), s.CallsOn(s.requests[id].scope), false,
          s.limiter, s.lockedBy, [], s.permits, s.waiters)
  }

  function Commit(s: System, id: Id, e: Reach): System {
    System(s.now, s.circuits[e.request.scope := e.breaker],
           s.calls[e.request.scope := e.calls],
           if e.takesProbe then s.takers[e.request.scope := id] else s.takers,
           e.limiter, e.lockedBy, s.history + e.marks, e.permits, e.waiters, s.requests[id := e.request])
  }

  /**
   What any step of one request keeps, as far as that request, its circuit and the bulkhead go:
   the flag rises only by taking the probe and settling clears it; entering an endpoint needs a
   closed circuit or the probe; only an upstream answer lowers `open_until`; timers stay inside
   the deadline; permits and waiting places follow the request's place.
   */
  ghost predicate Local(cfg: Config, now: real, e: Reach, r: Reach) {
    var before, after := e.request.place, r.request.place;
    && (r.request.scope, r.request.terms, r.request.deadline) == (e.request.scope, e.request.terms, e.request.deadline)
    && (r.breaker.probe ==>
          if r.takesProbe then after.Unsettled()
          else e.breaker.probe && (before.Unsettled() ==> after.Unsettled()))
    && (r.takesProbe && r.breaker.probe ==> before.Top? && !e.breaker.probe)
    && (!before.Unsettled() && after.Unsettled() ==>
          e.breaker.openUntil == 0.0 || (e.breaker.openUntil <= now && !e.breaker.probe && r.breaker.probe && r.takesProbe))
    && (Circuit.Reachable(cfg.circuit, e.breaker, now) && r.breaker.openUntil < e.breaker.openUntil ==>
          before.InFlight? && (after.Cooling? || (after.Done? && after.outcome.Response?)))
    && (TimerOk(e.request) ==> TimerOk(r.request))
    && r.permits + Count(after.HoldsPermit()) == e.permits + Count(before.HoldsPermit())
    && r.waiters - Count(after.Queued?) == e.waiters - Count(before.Queued?)
    && (e.permits >= 0 ==> r.permits >= 0)
    && (e.waiters <= cfg.maxWaiters ==> r.waiters <= cfg.maxWaiters)
  }

  function Count(b: bool): int { if b then 1 else 0 }

  /** Every await that can end in a transport start or a response ends by the request's deadline. */
  ghost predicate TimerOk(r: Request) {
    && r.terms.policy.Valid()
    && (r.place.Queued? ==> r.place.until <= r.deadline)
    && (r.place.InFlight? ==> r.place.until <= r.deadline)
    && (r.place.HoldingBackoff? || r.place.Backoff? ==> r.place.wakeAt < r.deadline)
    && (r.place.Done? && r.place.outcome.Response? ==> r.place.outcome.at <= r.deadline)
  }

  /** Head of the loop: deadline, breaker, queue. */
  function AdmitNext(cfg: Config, now: real, e: Reach): (r: Reach)
    requires cfg.Valid() && !e.takesProbe && e.request.place.Top?
    ensures Local(cfg, now, e, r)
  {
    var q := e.request;
    if q.attempt >= q.terms.MaxAttempts() then e.Leave(Exhausted, now)
    else if q.deadline - now <= 0.0 then e.Leave(DeadlineExceeded, now)
    else
      var asked := e.Tell(cfg, Circuit.Request(now));
      var admitted := asked.(takesProbe := e.breaker.openUntil != 0.0);
      if Circuit.Decide(e.breaker, now) != Circuit.Admitted then asked.Leave(CircuitOpen, now)
      else if e.waiters >= cfg.maxWaiters then admitted.Abandon(cfg, now, BulkheadRejected)
      else admitted.To(Queued(now + q.terms.QueueTimeout(q.deadline - now))).(waiters := e.waiters + 1)
  }

  function AcquireNext(cfg: Config, now: real, e: Reach): (r: Reach)
    requires cfg.Valid() && !e.takesProbe && e.request.place.Queued? && e.permits > 0
    ensures Local(cfg, now, e, r)
  {
    var left := e.(waiters := e.waiters - 1);
    if e.request.deadline - now <= 0.0 then left.Abandon(cfg, now, DeadlineExceeded)
    else left.To(AwaitingSlot).(permits := e.permits - 1)
  }

  /** The slot is granted and the lock released; then the last deadline check before the transport. */
  function GrantNext(cfg: Config, now: real, e: Reach): (r: Reach)
    requires cfg.Valid() && !e.takesProbe && (e.request.place.AwaitingSlot? || e.request.place.Pacing?)
    ensures Local(cfg, now, e, r)
  {
    var granted := e.(limiter := RateLimiter.Grant(cfg.limiter, e.limiter, now), marks := [Granted(now)], lockedBy := None);
    var remaining := e.request.deadline - now;
    if remaining <= 0.0 then granted.Abandon(cfg, now, DeadlineExceeded).FreePermit()
    else
      var past := e.request.past;
      granted.To(InFlight(now + e.request.terms.AttemptTimeout(remaining))).Remember(past.(transports := past.transports + 1))
  }

  function EnterSlotNext(cfg: Config, now: real, id: Id, e: Reach): (r: Reach)
    requires cfg.Valid() && !e.takesProbe && e.request.place.AwaitingSlot?
    ensures Local(cfg, now, e, r)
  {
    var delay := RateLimiter.Delay(e.limiter, now);
    if delay == 0.0 then GrantNext(cfg, now, e)
    else e.To(Pacing(now + delay)).(lockedBy := Some(id))
  }

  function SlotTimeoutNext(cfg: Config, now: real, id: Id, e: Reach): (r: Reach)
    requires cfg.Valid() && !e.takesProbe && (e.request.place.AwaitingSlot? || e.request.place.Pacing?)
    ensures Local(cfg, now, e, r)
  {
    e.Abandon(cfg, now, DeadlineExceeded).FreePermit().(lockedBy := if e.lockedBy == Some(id) then None else e.lockedBy)
  }

  /** A transport failure backs off inside the bulkhead, so it keeps its permit meanwhile. */
  function TransportFailsNext(cfg: Config, now: real, e: Reach, delay: real): (r: Reach)
    requires cfg.Valid() && !e.takesProbe && e.request.place.InFlight?
    ensures Local(cfg, now, e, r)
  {
    var q := e.request;
    var failed := e.Tell(cfg, Circuit.Failure(now)).Remember(q.past.(failed := Some(TransportFailure)));
    if !q.terms.WillRetry(q.attempt) then failed.Leave(TransientError, now).FreePermit()
    else if !MaySleep(delay, now, q.deadline) then failed.Abandon(cfg, now, DeadlineExceeded).FreePermit()
    else failed.To(HoldingBackoff(now + delay))
  }

  /** `contended` says whether the limiter's lock is held or awaited as the reply arrives. */
  function RespondsNext(cfg: Config, now: real, e: Reach, reply: Reply, delay: real, contended: bool): (r: Reach)
    requires cfg.Valid() && !e.takesProbe && e.request.place.InFlight? && now <= e.request.place.until
    ensures Local(cfg, now, e, r)
  {
    var q := e.request;
    var left := e.FreePermit();
    var noted := left.(limiter := RateLimiter.Succeed(e.limiter));
    match reply
    case RateLimited(retryAfter) =>
      left.Tell(cfg, Circuit.Success(now)).(
        request := q.(rejections := q.rejections + 1, place := Cooling(retryAfter, contended),
                      past := q.past.(stalled := q.past.stalled || contended)))
    case TransientStatus =>
      var failed := noted.Tell(cfg, Circuit.Failure(now)).Remember(q.past.(failed := Some(StatusFailure)));
      if !q.terms.WillRetry(q.attempt) then failed.Leave(TransientError, now)
      else if !MaySleep(delay, now, q.deadline) then failed.Leave(DeadlineExceeded, now)
      else failed.To(Backoff(now + delay))
    case Good => noted.Tell(cfg, Circuit.Success(now)).Leave(Response(now), now)
  }

  function CoolDownNext(cfg: Config, now: real, e: Reach, retryAfter: Option<real>): (r: Reach)
    requires cfg.Valid() && !e.takesProbe && e.request.place.Cooling?
    ensures Local(cfg, now, e, r)
  {
    var q := e.request;
    var cooled := e.(limiter := RateLimiter.Impose(cfg.limiter, e.limiter, now, retryAfter),
                     marks := [Cooled(now + RateLimiter.Cooldown(cfg.limiter, e.limiter, retryAfter))])
                   .Remember(q.past.(cooledAt := now));
    if q.terms.WillRetryRejection(q.attempt, q.rejections) then cooled.Again()
    else cooled.Leave(RateLimitError, now)
  }

  function QueueTimeoutNext(cfg: Config, now: real, e: Reach): (r: Reach)
    requires cfg.Valid() && !e.takesProbe && e.request.place.Queued?
    ensures Local(cfg, now, e, r)
  {
    e.Abandon(cfg, now, BulkheadRejected).(waiters := e.waiters - 1)
  }

  function BackoffEndsNext(cfg: Config, now: real, e: Reach): (r: Reach)
    requires cfg.Valid() && !e.takesProbe && (e.request.place.HoldingBackoff? || e.request.place.Backoff?)
    ensures Local(cfg, now, e, r)
  {
    if e.request.place.HoldingBackoff? then e.Again().FreePermit() else e.Again()
  }

  /** Whether the step may happen: the await it ends is over and nothing else holds what it needs. */
  predicate Enabled(s: System, step: Step) {
    match step
    case Tick(_) => true
    case Start(id, _, terms) => id !in s.requests && terms.policy.Valid()
    case Admit(id) => id in s.requests && s.requests[id].place.Top?
    case Acquire(id) =>
      id in s.requests && s.requests[id].place.Queued? && s.permits > 0 && s.now <= s.requests[id].place.until
    case QueueTimeout(id) =>
      id in s.requests && s.requests[id].place.Queued? && s.now >= s.requests[id].place.until
    case EnterSlot(id) =>
      id in s.requests && s.requests[id].place.AwaitingSlot? && s.lockedBy.None? && s.now <= s.requests[id].deadline
    case WakeInSlot(id) =>
      id in s.requests && s.requests[id].place.Pacing? && s.requests[id].place.wakeAt <= s.now <= s.requests[id].deadline
    case SlotTimeout(id) =>
      && id in s.requests && (s.requests[id].place.AwaitingSlot? || s.requests[id].place.Pacing?)
      && s.now >= s.requests[id].deadline
    case TransportFails(id, _) => id in s.requests && s.requests[id].place.InFlight?
    case Responds(id, _, _) =>
      id in s.requests && s.requests[id].place.InFlight? && s.now <= s.requests[id].place.until
    case CoolDown(id) => id in s.requests && s.requests[id].place.Cooling? && s.lockedBy.None?
    case BackoffEnds(id) =>
      && id in s.requests && (s.requests[id].place.HoldingBackoff? || s.requests[id].place.Backoff?)
      && s.requests[id].place.wakeAt <= s.now
  }

  /** Whether another request holds the limiter's lock or waits for it. */
  predicate Contended(s: System, id: Id) {
    || s.lockedBy.Some?
    || exists other :: other in s.requests && other != id
                       && (s.requests[other].place.AwaitingSlot? || s.requests[other].place.Cooling?)
  }

  function Drawn(r: Request, jitter: Duration): real {
    Min(jitter, r.terms.BackoffCap(r.attempt))
  }

  function Moved(cfg: Config, s: System, step: Step): (r: Reach)
    requires cfg.Valid() && Enabled(s, step) && !step.Tick? && !step.Start?
    ensures Local(cfg, s.now, ReachOf(s, step.id), r)
  {
    var e := ReachOf(s, step.id);
    match step
    case Admit(_) => AdmitNext(cfg, s.now, e)
    case Acquire(_) => AcquireNext(cfg, s.now, e)
    case QueueTimeout(_) => QueueTimeoutNext(cfg, s.now, e)
    case EnterSlot(id) => EnterSlotNext(cfg, s.now, id, e)
    case WakeInSlot(_) => GrantNext(cfg, s.now, e)
    case SlotTimeout(id) => SlotTimeoutNext(cfg, s.now, id, e)
    case TransportFails(_, jitter) => TransportFailsNext(cfg, s.now, e, Drawn(e.request, jitter))
    case Responds(_, reply, jitter) => RespondsNext(cfg, s.now, e, reply, Drawn(e.request, jitter), Contended(s, step.id))
    case CoolDown(_) => CoolDownNext(cfg, s.now, e, e.request.place.retryAfter)
    case BackoffEnds(_) => BackoffEndsNext(cfg, s.now, e)
  }

  /** A disabled step changes nothing. */
  function Next(cfg: Config, s: System, step: Step): System
    requires cfg.Valid()
  {
    if !Enabled(s, step) then s
    else if step.Tick? then s.(now := s.now + step.elapsed)
    else if step.Start? then
      s.(requests := s.requests[step.id := Request(step.scope, step.terms, step.terms.Deadline(s.now), 0, 0, Top, FRESH)])
    else Commit(s, step.id, Moved(cfg, s, step))
  }

  function Initial(cfg: Config): System {
    System(0.0, map[], map[], map[], RateLimiter.IDLE, None, [], cfg.capacity, 0, map[])
  }

  function Run(cfg: Config, steps: seq<Step>): System
    requires cfg.Valid()
  {
    if steps == [] then Initial(cfg)
    else Next(cfg, Run(cfg, steps[..|steps| - 1]), steps[|steps| - 1])
  }

  // ----------------------------------------------------------- invariants

  /** A set probe flag belongs to its last taker, which is still between admission and settlement. */
  ghost predicate ProbesOwned(s: System) {
    forall scope :: s.Breaker(scope).probe ==>
      && scope in s.takers && s.takers[scope] in s.requests
      && s.requests[s.takers[scope]].scope == scope
      && s.requests[s.takers[scope]].place.Unsettled()
  }

  /** The lock is held exactly across a pacing sleep, and that sleep covers the limiter's bound. */
  ghost predicate LockOk(s: System) {
    && (s.lockedBy.Some? ==> s.lockedBy.value in s.requests)
    && forall id :: id in s.requests ==>
      && (s.requests[id].place.Pacing? <==> s.lockedBy == Some(id))
      && (s.requests[id].place.Pacing? ==> s.requests[id].place.wakeAt >= RateLimiter.AllowedAt(s.limiter))
  }

  ghost predicate LimiterOk(cfg: Config, s: System) {
    forall i :: 0 <= i < |s.history| ==>
      match s.history[i]
      case Granted(at) => at + cfg.limiter.interval <= s.limiter.nextAllowedAt
      case Cooled(until) => until <= s.limiter.blockedUntil
  }

  /** The promise to the upstream: starts are spaced, and none falls inside a cooldown imposed before it. */
  ghost predicate Paced(cfg: Config, history: seq<Mark>) {
    forall i, j :: 0 <= i < j < |history| && history[j].Granted? ==>
      match history[i]
      case Granted(at) => history[j].at >= at + cfg.limiter.interval
      case Cooled(until) => history[j].at >= until
  }

  function Holders(requests: map<Id, Request>): set<Id> {
    set id | id in requests && requests[id].place.HoldsPermit()
  }

  function Queue(requests: map<Id, Request>): set<Id> {
    set id | id in requests && requests[id].place.Queued?
  }

  ghost predicate BulkheadOk(cfg: Config, s: System) {
    && 0 <= s.permits && s.permits + |Holders(s.requests)| == cfg.capacity
    && s.waiters == |Queue(s.requests)| <= cfg.maxWaiters
  }

  ghost predicate TimersOk(s: System) {
    forall id :: id in s.requests ==> TimerOk(s.requests[id])
  }

  /** Reading one circuit and the requests back from a committed step. */
  lemma CommitReads(s: System, id: Id, e: Reach, scope: Scope)
    ensures var s' := Commit(s, id, e);
            && s'.requests == s.requests[id := e.request] && s'.limiter == e.limiter
            && s'.Breaker(scope) == (if scope == e.request.scope then e.breaker else s.Breaker(scope))
            && s'.CallsOn(scope) == (if scope == e.request.scope then e.calls else s.CallsOn(scope))
            && (e.takesProbe ==> e.request.scope in s'.takers && s'.takers[e.request.scope] == id)
  {
  }

  lemma ProbesKept(cfg: Config, s: System, step: Step)
    requires cfg.Valid() && ProbesOwned(s)
    ensures ProbesOwned(Next(cfg, s, step))
  {
    hide Moved;
    if Enabled(s, step) && !step.Tick? && !step.Start? {
      var e, s' := Moved(cfg, s, step), Next(cfg, s, step);
      CommitProbes(s, step.id, e);
    }
  }

  lemma CommitProbes(s: System, id: Id, e: Reach)
    requires ProbesOwned(s) && id in s.requests && e.request.scope == s.requests[id].scope
    requires e.breaker.probe ==>
               if e.takesProbe then e.request.place.Unsettled()
               else s.Breaker(e.request.scope).probe && (s.requests[id].place.Unsettled() ==> e.request.place.Unsettled())
    ensures ProbesOwned(Commit(s, id, e))
  {
    var s' := Commit(s, id, e);
    forall scope | s'.Breaker(scope).probe
      ensures && scope in s'.takers && s'.takers[scope] in s'.requests
              && s'.requests[s'.takers[scope]].scope == scope
              && s'.requests[s'.takers[scope]].place.Unsettled()
    {
      if scope != e.request.scope { assert s.Breaker(scope).probe; }
    }
  }

  predicate InSlot(step: Step) {
    step.EnterSlot? || step.WakeInSlot? || step.SlotTimeout?
  }

  lemma MovedOutsideSlot(cfg: Config, s: System, step: Step)
    requires cfg.Valid() && Enabled(s, step) && !step.Tick? && !step.Start? && !InSlot(step)
    ensures Moved(cfg, s, step).lockedBy == s.lockedBy && !Moved(cfg, s, step).request.place.Pacing?
  {
    hide Local, Contended, Drawn, MaySleep, Circuit.Apply, Circuit.Decide, RateLimiter.Cooldown, Min;
    hide Terms.WillRetry, Terms.WillRetryRejection, Terms.MaxAttempts, Terms.QueueTimeout, Terms.AttemptTimeout;
    hide EnterSlotNext, GrantNext, SlotTimeoutNext, RateLimiter.Impose, RateLimiter.Succeed;
  }

  /** A step takes the lock only to pace, for as long as the limiter asks, and frees only its own. */
  lemma MovedLock(cfg: Config, s: System, step: Step)
    requires cfg.Valid() && Enabled(s, step) && !step.Tick? && !step.Start?
    requires s.requests[step.id].place.Pacing? <==> s.lockedBy == Some(step.id)
    ensures var e := Moved(cfg, s, step);
            && (e.request.place.Pacing? <==> e.lockedBy == Some(step.id))
            && (e.request.place.Pacing? ==> e.request.place.wakeAt >= RateLimiter.AllowedAt(e.limiter))
            && (e.lockedBy.Some? ==> e.lockedBy.value == step.id || e.lockedBy == s.lockedBy)
  {
    hide Local, Contended, Drawn, MaySleep, Circuit.Apply, Circuit.Decide, RateLimiter.Cooldown, Min;
    hide Terms.WillRetry, Terms.WillRetryRejection, Terms.MaxAttempts, Terms.QueueTimeout, Terms.AttemptTimeout;
    hide AdmitNext, AcquireNext, QueueTimeoutNext, TransportFailsNext, RespondsNext, CoolDownNext, BackoffEndsNext;
    if !InSlot(step) { MovedOutsideSlot(cfg, s, step); }
  }

  /** While another request holds the lock, a step leaves it and the bounds alone. */
  lemma MovedUnderLock(cfg: Config, s: System, step: Step)
    requires cfg.Valid() && Enabled(s, step) && !step.Tick? && !step.Start?
    requires s.requests[step.id].place.Pacing? <==> s.lockedBy == Some(step.id)
    requires s.lockedBy.Some? && s.lockedBy.value != step.id
    ensures var e := Moved(cfg, s, step);
            e.lockedBy == s.lockedBy && RateLimiter.AllowedAt(e.limiter) == RateLimiter.AllowedAt(s.limiter)
  {
    hide Local, Contended, Drawn, MaySleep, Circuit.Apply, Circuit.Decide, RateLimiter.Cooldown, Min;
    hide Terms.WillRetry, Terms.WillRetryRejection, Terms.MaxAttempts, Terms.QueueTimeout, Terms.AttemptTimeout;
  }

  lemma LockKept(cfg: Config, s: System, step: Step)
    requires cfg.Valid() && LockOk(s)
    ensures LockOk(Next(cfg, s, step))
  {
    hide Moved, Local;
    if Enabled(s, step) && !step.Tick? && !step.Start? {
      MovedLock(cfg, s, step);
      if s.lockedBy.Some? && s.lockedBy.value != step.id { MovedUnderLock(cfg, s, step); }
      CommitLock(s, step.id, Moved(cfg, s, step));
    }
  }

  lemma CommitLock(s: System, id: Id, e: Reach)
    requires LockOk(s) && id in s.requests
    requires e.request.place.Pacing? <==> e.lockedBy == Some(id)
    requires e.request.place.Pacing? ==> e.request.place.wakeAt >= RateLimiter.AllowedAt(e.limiter)
    requires e.lockedBy.Some? ==> e.lockedBy.value == id || e.lockedBy == s.lockedBy
    requires s.lockedBy.Some? && s.lockedBy.value != id ==>
               e.lockedBy == s.lockedBy && RateLimiter.AllowedAt(e.limiter) == RateLimiter.AllowedAt(s.limiter)
    ensures LockOk(Commit(s, id, e))
  {
  }

  lemma TimersKept(cfg: Config, s: System, step: Step)
    requires cfg.Valid() && TimersOk(s)
    ensures TimersOk(Next(cfg, s, step))
  {
    hide Moved;
    if Enabled(s, step) && !step.Tick? && !step.Start? {
      assert TimerOk(s.requests[step.id]);
      assert TimerOk(Moved(cfg, s, step).request);
      assert Next(cfg, s, step).requests == s.requests[step.id := Moved(cfg, s, step).request];
    }
  }

  /** What a step may do to the limiter's bounds: nothing, grant a slot that is due, or extend the block. */
  ghost predicate LimiterStep(cfg: Config, now: real, before: RateLimiter.Limiter, e: Reach) {
    || (e.marks == [] && e.limiter.nextAllowedAt == before.nextAllowedAt && e.limiter.blockedUntil == before.blockedUntil)
    || (e.marks == [Granted(now)] && now >= RateLimiter.AllowedAt(before) &&
        e.limiter == RateLimiter.Grant(cfg.limiter, before, now))
    || (&& |e.marks| == 1 && e.marks[0].Cooled? && e.limiter.nextAllowedAt == before.nextAllowedAt
        && e.limiter.blockedUntil == Max(before.blockedUntil, e.marks[0].until))
  }

  lemma MovedLimiter(cfg: Config, s: System, step: Step)
    requires cfg.Valid() && Enabled(s, step) && !step.Tick? && !step.Start? && LockOk(s)
    ensures LimiterStep(cfg, s.now, s.limiter, Moved(cfg, s, step))
  {
    hide Local, Contended, Drawn, MaySleep, Circuit.Apply, Circuit.Decide, Min;
    hide Terms.WillRetry, Terms.WillRetryRejection, Terms.MaxAttempts, Terms.QueueTimeout, Terms.AttemptTimeout;
  }

  /** The limiter's log stays consistent with its fields, and every new grant respects the whole log. */
  lemma LimiterKept(cfg: Config, s: System, step: Step)
    requires cfg.Valid() && LockOk(s) && LimiterOk(cfg, s) && Paced(cfg, s.history)
    ensures LimiterOk(cfg, Next(cfg, s, step)) && Paced(cfg, Next(cfg, s, step).history)
  {
    hide Moved, Local;
    if Enabled(s, step) && !step.Tick? && !step.Start? {
      MovedLimiter(cfg, s, step);
      CommitMarks(cfg, s, step.id, Moved(cfg, s, step));
    }
  }

  lemma CommitMarks(cfg: Config, s: System, id: Id, e: Reach)
    requires cfg.Valid() && LimiterOk(cfg, s) && Paced(cfg, s.history)
    requires LimiterStep(cfg, s.now, s.limiter, e)
    ensures LimiterOk(cfg, Commit(s, id, e)) && Paced(cfg, Commit(s, id, e).history)
  {
  }

  lemma Replace(before: set<Id>, after: set<Id>, id: Id, stays: bool)
    requires after == if stays then before + {id} else before - {id}
    ensures |after| == |before| - Count(id in before) + Count(stays)
  {
    if stays && id in before {
      assert after == before;
    }
    if !stays && id !in before {
      assert after == before;
    }
  }

  lemma Rehoused(requests: map<Id, Request>, id: Id, r: Request)
    ensures var before, after := Holders(requests), Holders(requests[id := r]);
            after == if r.place.HoldsPermit() then before + {id} else before - {id}
    ensures var before, after := Queue(requests), Queue(requests[id := r]);
            after == if r.place.Queued? then before + {id} else before - {id}
  {
  }

  lemma Counted(requests: map<Id, Request>, id: Id, r: Request)
    ensures |Holders(requests[id := r])| ==
              |Holders(requests)| - Count(id in requests && requests[id].place.HoldsPermit()) + Count(r.place.HoldsPermit())
    ensures |Queue(requests[id := r])| ==
              |Queue(requests)| - Count(id in requests && requests[id].place.Queued?) + Count(r.place.Queued?)
  {
    Rehoused(requests, id, r);
    assert id in Holders(requests) <==> id in requests && requests[id].place.HoldsPermit();
    assert id in Queue(requests) <==> id in requests && requests[id].place.Queued?;
    hide Holders, Queue;
    Replace(Holders(requests), Holders(requests[id := r]), id, r.place.HoldsPermit());
    Replace(Queue(requests), Queue(requests[id := r]), id, r.place.Queued?);
  }

  lemma BulkheadKept(cfg: Config, s: System, step: Step)
    requires cfg.Valid() && BulkheadOk(cfg, s)
    ensures BulkheadOk(cfg, Next(cfg, s, step))
  {
    hide Moved, TimerOk, Holders, Queue;
    if Enabled(s, step) && !step.Tick? {
      var id, s' := step.id, Next(cfg, s, step);
      if step.Start? {
        Counted(s.requests, id, s'.requests[id]);
      } else {
        Counted(s.requests, id, Moved(cfg, s, step).request);
      }
    }
  }

  /** Each circuit is in the state its own calls put it in, and those calls follow the clock. */
  ghost predicate CircuitsOk(cfg: Config, s: System) {
    forall scope :: CircuitOk(cfg, s, scope)
  }

  ghost predicate CircuitOk(cfg: Config, s: System, scope: Scope) {
    HistoryOk(cfg, s.now, s.Breaker(scope), s.CallsOn(scope))
  }

  ghost predicate HistoryOk(cfg: Config, now: real, b: Circuit.Breaker, calls: seq<Circuit.Call>) {
    && Circuit.Monotone(calls) && Circuit.LastAt(calls) <= now
    && b == Circuit.After(cfg.circuit, calls)
  }

  lemma HistoryGrows(cfg: Config, now: real, b: Circuit.Breaker, calls: seq<Circuit.Call>, c: Circuit.Call)
    requires HistoryOk(cfg, now, b, calls) && c.at == now && 0.0 <= now
    ensures HistoryOk(cfg, now, Circuit.Apply(cfg.circuit, b, c), calls + [c])
  {
    Circuit.MonotoneSnoc(calls, c);
    Circuit.AfterSnoc(cfg.circuit, calls, c);
    hide Circuit.After, Circuit.Monotone, Circuit.Apply;
  }

  /** A step makes at most two calls on its circuit: nothing, one call, or one call and a release. */
  lemma MovedTells(cfg: Config, s: System, step: Step)
    requires cfg.Valid() && Enabled(s, step) && !step.Tick? && !step.Start? && 0.0 <= s.now
    requires HistoryOk(cfg, s.now, s.Breaker(s.requests[step.id].scope), s.CallsOn(s.requests[step.id].scope))
    ensures var e := Moved(cfg, s, step);
            e.request.scope == s.requests[step.id].scope && HistoryOk(cfg, s.now, e.breaker, e.calls)
  {
    hide HistoryOk, Circuit.Apply, Circuit.Decide, Local;
    var now, scope := s.now, s.requests[step.id].scope;
    var b, calls := s.Breaker(scope), s.CallsOn(scope);
    var request, failure, release := Circuit.Request(now), Circuit.Failure(now), Circuit.ProbeRelease(now);
    HistoryGrows(cfg, now, b, calls, request);
    HistoryGrows(cfg, now, b, calls, failure);
    HistoryGrows(cfg, now, b, calls, release);
    HistoryGrows(cfg, now, b, calls, Circuit.Success(now));
    HistoryGrows(cfg, now, Circuit.Apply(cfg.circuit, b, request), calls + [request], release);
    HistoryGrows(cfg, now, Circuit.Apply(cfg.circuit, b, failure), calls + [failure], release);
  }

  lemma CircuitsKept(cfg: Config, s: System, step: Step)
    requires cfg.Valid() && 0.0 <= s.now && CircuitsOk(cfg, s)
    ensures CircuitsOk(cfg, Next(cfg, s, step))
  {
    hide Moved, Local;
    var s' := Next(cfg, s, step);
    forall scope ensures CircuitOk(cfg, s', scope) {
      assert CircuitOk(cfg, s, scope);
      if Enabled(s, step) && !step.Tick? && !step.Start? {
        assert CircuitOk(cfg, s, s.requests[step.id].scope);
        MovedTells(cfg, s, step);
        CommitReads(s, step.id, Moved(cfg, s, step), scope);
      }
    }
  }

  // ---------------------------------------------------- over every schedule

  ghost predicate Sound(cfg: Config, s: System) {
    && 0.0 <= s.now && CircuitsOk(cfg, s) && ProbesOwned(s)
    && LockOk(s) && LimiterOk(cfg, s) && Paced(cfg, s.history)
    && BulkheadOk(cfg, s) && TimersOk(s)
  }

  lemma SoundStep(cfg: Config, s: System, step: Step)
    requires cfg.Valid() && Sound(cfg, s)
    ensures Sound(cfg, Next(cfg, s, step))
  {
    CircuitsKept(cfg, s, step);
    ProbesKept(cfg, s, step);
    LockKept(cfg, s, step);
    LimiterKept(cfg, s, step);
    BulkheadKept(cfg, s, step);
    TimersKept(cfg, s, step);
  }

  lemma {:induction false} EveryRunIsSound(cfg: Config, steps: seq<Step>)
    requires cfg.Valid()
    ensures Sound(cfg, Run(cfg, steps))
  {
    if steps == [] {
      assert Holders(map[]) == {} && Queue(map[]) == {};
      assert forall scope :: CircuitOk(cfg, Initial(cfg), scope);
    } else {
      EveryRunIsSound(cfg, steps[..|steps| - 1]);
      SoundStep(cfg, Run(cfg, steps[..|steps| - 1]), steps[|steps| - 1]);
    }
  }

  lemma CircuitReachable(cfg: Config, s: System, scope: Scope)
    requires cfg.Valid() && Sound(cfg, s)
    ensures Circuit.Reachable(cfg.circuit, s.Breaker(scope), s.now)
  {
    assert CircuitOk(cfg, s, scope);
    Circuit.RunsStayReachable(cfg.circuit, s.CallsOn(scope));
  }

  /**
   No schedule strands a half-open probe: while the flag is set, its taker is still between
   admission and settlement, so with no such request on the endpoint the flag is clear.
   */
  lemma NoProbeIsStranded(cfg: Config, steps: seq<Step>, scope: Scope)
    requires cfg.Valid()
    ensures var s := Run(cfg, steps);
            && (s.Breaker(scope).probe ==>
                  && s.Breaker(scope).openUntil > 0.0
                  && scope in s.takers && s.takers[scope] in s.requests
                  && s.requests[s.takers[scope]].place.Unsettled())
            && ((forall id :: id in s.requests && s.requests[id].scope == scope ==> !s.requests[id].place.Unsettled()) ==>
                  !s.Breaker(scope).probe)
  {
    EveryRunIsSound(cfg, steps);
    CircuitReachable(cfg, Run(cfg, steps), scope);
  }

  /**
   After any run and whatever happens next: nothing enters an endpoint whose circuit is open or
   whose probe is out, and with a circuit that has been opened only the taker of the probe does;
   the flag rises only for the request that then holds it.
   */
  lemma CircuitGate(cfg: Config, steps: seq<Step>, step: Step, scope: Scope, id: Id)
    requires cfg.Valid() && id in Run(cfg, steps).requests && Run(cfg, steps).requests[id].scope == scope
    ensures var s, s' := Run(cfg, steps), Next(cfg, Run(cfg, steps), step);
            var b, b' := s.Breaker(scope), s'.Breaker(scope);
            && id in s'.requests
            && (!s.requests[id].place.Unsettled() && s'.requests[id].place.Unsettled() ==>
                  || b.openUntil == 0.0
                  || (b.openUntil <= s.now && !b.probe && b'.probe && scope in s'.takers && s'.takers[scope] == id))
            && (!b.probe && b'.probe ==> step.Admit? && scope in s'.takers && s'.takers[scope] == step.id)
  {
    hide Moved, TimerOk, Run;
    var s := Run(cfg, steps);
    if Enabled(s, step) && !step.Tick? && !step.Start? {
      assert Local(cfg, s.now, ReachOf(s, step.id), Moved(cfg, s, step));
      CommitReads(s, step.id, Moved(cfg, s, step), scope);
    }
  }

  /**
   `open_until` falls only when the upstream answered that endpoint, be it with a rate-limit
   rejection; and `blocked_until` never falls.
   */
  lemma OnlyAnswersClose(cfg: Config, steps: seq<Step>, step: Step, scope: Scope)
    requires cfg.Valid()
    ensures var s, s' := Run(cfg, steps), Next(cfg, Run(cfg, steps), step);
            && (s'.Breaker(scope).openUntil < s.Breaker(scope).openUntil ==>
                  step.Responds? && !step.reply.TransientStatus? && Enabled(s, step) && s.requests[step.id].scope == scope)
            && s'.limiter.blockedUntil >= s.limiter.blockedUntil
  {
    hide Sound, Run, LimiterOk;
    EveryRunIsSound(cfg, steps);
    var s := Run(cfg, steps);
    if Enabled(s, step) && !step.Tick? && !step.Start? {
      CircuitReachable(cfg, s, s.requests[step.id].scope);
      MovedLimiter(cfg, s, step);
      assert Local(cfg, s.now, ReachOf(s, step.id), Moved(cfg, s, step));
      CommitReads(s, step.id, Moved(cfg, s, step), scope);
    }
  }

  /** Slot grants are spaced by the interval and none precedes the end of a cooldown imposed before it. */
  lemma StartsArePaced(cfg: Config, steps: seq<Step>, i: nat, j: nat)
    requires cfg.Valid()
    requires i < j < |Run(cfg, steps).history| && Run(cfg, steps).history[j].Granted?
    ensures match Run(cfg, steps).history[i]
            case Granted(at) => Run(cfg, steps).history[j].at >= at + cfg.limiter.interval
            case Cooled(until) => Run(cfg, steps).history[j].at >= until
  {
    EveryRunIsSound(cfg, steps);
  }

  /** A transport failure, or a reply with a transient status. */
  predicate Fails(step: Step) {
    step.TransportFails? || (step.Responds? && step.reply.TransientStatus?)
  }

  /**
   A failure of either kind after any run leaves in the deque exactly the endpoint's failures of the
   trailing window since its last success, and opens the circuit exactly when the failed request
   found the probe out or the window holds `threshold` of them, whoever recorded them.
   */
  lemma FailureUnderInterleaving(cfg: Config, steps: seq<Step>, step: Step)
    requires cfg.Valid() && Fails(step) && Enabled(Run(cfg, steps), step)
    ensures var s := Run(cfg, steps);
            var scope := s.requests[step.id].scope;
            var calls := s.CallsOn(scope) + [Circuit.Failure(s.now)];
            var b' := Next(cfg, s, step).Breaker(scope);
            && b'.failures == Circuit.Within(Circuit.FailuresSinceSuccess(calls), s.now - cfg.circuit.window)
            && !b'.probe
            && b'.openUntil ==
                 if s.Breaker(scope).probe || Circuit.RecentFailures(cfg.circuit, calls, s.now) >= cfg.circuit.threshold
                 then s.now + cfg.circuit.openSeconds else s.Breaker(scope).openUntil
  {
    hide Local, Run, Moved, Circuit.After, Circuit.Within, Circuit.FailuresSinceSuccess, Circuit.Monotone, Circuit.Opens;
    EveryRunIsSound(cfg, steps);
    var s := Run(cfg, steps);
    var scope := s.requests[step.id].scope;
    assert CircuitOk(cfg, s, scope);
    Circuit.MonotoneSnoc(s.CallsOn(scope), Circuit.Failure(s.now));
    Circuit.FailureOpensExactlyAtThreshold(cfg.circuit, s.CallsOn(scope), s.now);
    Circuit.AfterSnoc(cfg.circuit, s.CallsOn(scope), Circuit.Failure(s.now));
    MovedFailure(cfg, s, step);
    CommitReads(s, step.id, Moved(cfg, s, step), scope);
  }

  /** Even when the backoff is refused and the probe released once more, the failure stands. */
  lemma MovedFailure(cfg: Config, s: System, step: Step)
    requires cfg.Valid() && Fails(step) && Enabled(s, step)
    ensures var e := Moved(cfg, s, step);
            && e.request.scope == s.requests[step.id].scope
            && e.breaker == Circuit.Fail(cfg.circuit, s.Breaker(s.requests[step.id].scope), s.now)
  {
    hide Local, Contended, Drawn, MaySleep, Circuit.PruneFront, Circuit.Opens;
  }

  /**
   At every moment at most `capacity` requests are inside the bulkhead and at most `maxWaiters`
   wait; and once every request has left, whatever errors it met, all is given back.
   */
  lemma EverythingIsGivenBack(cfg: Config, steps: seq<Step>)
    requires cfg.Valid()
    ensures var s := Run(cfg, steps);
            && |Holders(s.requests)| <= cfg.capacity && |Queue(s.requests)| <= cfg.maxWaiters
            && ((forall id :: id in s.requests ==> s.requests[id].place.Done?) ==>
                  && s.permits == cfg.capacity && s.waiters == 0 && s.lockedBy.None?
                  && forall scope :: !s.Breaker(scope).probe)
  {
    EveryRunIsSound(cfg, steps);
    var s := Run(cfg, steps);
    if forall id :: id in s.requests ==> s.requests[id].place.Done? {
      assert Holders(s.requests) == {} && Queue(s.requests) == {};
    }
  }

  /** Whatever the others do, a returned response is no later than its request's deadline. */
  lemma ResponsesInTime(cfg: Config, steps: seq<Step>, id: Id)
    requires cfg.Valid() && id in Run(cfg, steps).requests
    ensures var r := Run(cfg, steps).requests[id];
            && (r.place.Done? && r.place.outcome.Response? ==> r.place.outcome.at <= r.deadline)
            && (r.place.InFlight? ==> r.place.until <= r.deadline)
            && (r.place.Backoff? || r.place.HoldingBackoff? ==> r.place.wakeAt < r.deadline)
  {
    EveryRunIsSound(cfg, steps);
    assert TimerOk(Run(cfg, steps).requests[id]);
  }
}
