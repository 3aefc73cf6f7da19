/**
 The two views of a request meet: in every prompt schedule of `Protocol`, each request makes exactly
 the calls, at exactly the times, and leaves with the outcome that `RequestLoop` gives for some
 environment, namely what the other callers, the upstream and the clock did to it. So what is
 proved of the loop for every environment holds of every request among any number of others.
 */
module ProtocolLoop {
  import opened Numbers
  import opened Protocol
  import opened ProtocolBudgets
  import opened ProtocolLog
  import opened ProtocolTiming
  import opened RequestPolicy
  import opened Wrappers
  import Circuit
  import Loop = RequestLoop
  import RateLimiter

  type World = nat -> Loop.Attempt

  const QUIET := Loop.Attempt(true, false, 0.0, 0.0, Loop.TransportError(0.0), 0.0, 0.0, 0.0)

  function StartOf(r: Request): real {
    r.deadline - r.terms.policy.totalTimeout
  }

  function With(env: World, k: nat, e: Loop.Attempt): World {
    (i: nat) => if i == k then e else env(i)
  }

  /** The current attempt: the calls before it, when it began, took its permit, started its transport, and heard of it. */
  datatype Way = Way(before: Log, t0: real, queued: real, sent: real, heard: real)

  /** Every attempt before the current one went round, and this one began at `w.t0`. */
  predicate Heads(r: Request, env: World, w: Way, rejections: nat) {
    Loop.Reached(r.terms, StartOf(r), env, r.attempt) == Some(Loop.Standing(w.t0, rejections, w.before))
  }

  function TurnAt(r: Request, e: Loop.Attempt, w: Way, rejections: nat): Loop.Turn {
    Loop.TurnOf(r.terms, e, r.attempt, rejections, w.t0, r.deadline)
  }

  lemma {:induction false} ReachedWith(terms: Terms, start: real, env: World, k: nat, e: Loop.Attempt, n: nat)
    requires n <= k
    ensures Loop.Reached(terms, start, With(env, k, e), n) == Loop.Reached(terms, start, env, n)
  {
    hide Loop.TurnOf;
    if n > 0 { ReachedWith(terms, start, env, k, e, n - 1); }
  }

  /** An attempt that ends the request ends it so in every world that agrees up to it. */
  lemma TurnLeaves(r: Request, env: World, w: Way, rejections: nat, e: Loop.Attempt)
    requires Heads(r, env, w, rejections) && r.deadline == r.terms.Deadline(StartOf(r))
    requires r.attempt < r.terms.MaxAttempts() && TurnAt(r, e, w, rejections).Leaves?
    ensures var turn := TurnAt(r, e, w, rejections);
            Loop.Whole(r.terms, StartOf(r), With(env, r.attempt, e)) == Loop.Course(turn.outcome, w.before + turn.events)
  {
    hide Loop.TurnOf, Loop.Reached, Loop.Whole, Loop.Onward;
    var env' := With(env, r.attempt, e);
    ReachedWith(r.terms, StartOf(r), env, r.attempt, e, r.attempt);
    Loop.OnwardReached(r.terms, StartOf(r), env', r.attempt);
    Loop.OnwardTurns(r.terms, env', r.attempt, rejections, w.t0, r.deadline, w.before);
  }

  lemma TurnGoesRound(r: Request, env: World, w: Way, rejections: nat, e: Loop.Attempt)
    requires Heads(r, env, w, rejections) && r.deadline == r.terms.Deadline(StartOf(r))
    requires TurnAt(r, e, w, rejections).GoesRound?
    ensures var turn := TurnAt(r, e, w, rejections);
            Loop.Reached(r.terms, StartOf(r), With(env, r.attempt, e), r.attempt + 1) ==
              Some(Loop.Standing(turn.now, turn.rejections, w.before + turn.events))
  {
    ReachedWith(r.terms, StartOf(r), env, r.attempt, e, r.attempt);
    hide Loop.TurnOf;
  }

  predicate Waited(r: Request, w: Way, now: real) {
    w.t0 < r.deadline && w.t0 <= w.queued <= now && w.queued - w.t0 <= r.terms.QueueTimeout(r.deadline - w.t0)
  }

  predicate Departed(r: Request, w: Way, now: real) {
    Waited(r, w, w.queued) && w.queued <= w.sent <= now && w.sent < r.deadline
  }

  /** The calls of the current attempt up to its transport. */
  function Sent(w: Way): Log {
    [Loop.Admitted(w.t0), Loop.PermitTaken, Loop.TransportStarted(w.sent)]
  }

  /** The request stands where the loop stands in this world, and has made its calls. */
  ghost predicate Follows(now: real, r: Request, env: World, w: Way, log: Log) {
    && r.deadline == r.terms.Deadline(StartOf(r))
    && match r.place
       case Top => w.t0 == now && w.before == log && Heads(r, env, w, r.rejections)
       case Queued(until) =>
         && Heads(r, env, w, r.rejections) && w.t0 <= now && w.t0 < r.deadline
         && until == w.t0 + r.terms.QueueTimeout(r.deadline - w.t0) && log == w.before + [Loop.Admitted(w.t0)]
       case AwaitingSlot => Admitted(r, env, w, log) && Waited(r, w, now)
       case Pacing(_) => Admitted(r, env, w, log) && Waited(r, w, now)
       case InFlight(until) =>
         && Heads(r, env, w, r.rejections) && Departed(r, w, now)
         && until == w.sent + r.terms.AttemptTimeout(r.deadline - w.sent) && log == w.before + Sent(w)
       case HoldingBackoff(wakeAt) => GoesOnAt(r, env, w, wakeAt, log + [Loop.PermitFreed])
       case Backoff(wakeAt) => GoesOnAt(r, env, w, wakeAt, log)
       case Cooling(_, _) =>
         && r.rejections > 0 && Heads(r, env, w, r.rejections - 1) && Departed(r, w, w.sent)
         && w.sent <= w.heard <= now && w.heard - w.sent <= r.terms.AttemptTimeout(r.deadline - w.sent)
         && log == w.before + (Sent(w) + [Loop.PermitFreed, Loop.SuccessRecorded, Loop.RateRejected])
       case Done(outcome, _) => Loop.Whole(r.terms, StartOf(r), env) == Loop.Course(outcome, log)
  }

  predicate Admitted(r: Request, env: World, w: Way, log: Log) {
    Heads(r, env, w, r.rejections) && log == w.before + [Loop.Admitted(w.t0), Loop.PermitTaken]
  }

  /** The turn is decided: its calls are made up to `log`, and the next turn begins at `wakeAt`. */
  predicate GoesOnAt(r: Request, env: World, w: Way, wakeAt: real, log: Log) {
    Heads(r, env, w, r.rejections)
    && var turn := TurnAt(r, env(r.attempt), w, r.rejections);
       turn.GoesRound? && turn.now == wakeAt && turn.rejections == r.rejections && log == w.before + turn.events
  }

  // --------------------------------------------- the attempt that happened

  /** A way to the transport as the loop's environment has it. */
  function Met(w: Way, transport: Loop.Transport, jitter: Duration, cooled: real): Loop.Attempt
    requires w.t0 <= w.queued <= w.sent && cooled >= 0.0
  {
    Loop.Attempt(true, false, w.queued - w.t0, w.sent - w.queued, transport, jitter, 0.0, cooled)
  }

  lemma MetStarts(r: Request, w: Way, transport: Loop.Transport, jitter: Duration, cooled: real)
    requires Departed(r, w, w.sent) && cooled >= 0.0
    ensures var e := Met(w, transport, jitter, cooled);
            Loop.StartsAt(r.terms, e, w.t0, r.deadline) == Some(w.sent) && Loop.EventsTo(r.terms, e, w.t0, r.deadline) == Sent(w)
  {
  }

  /** The attempt whose transport failed, or was answered with a transient status, at `now`. */
  function FailedAttempt(w: Way, now: real, jitter: Duration, replied: bool): Loop.Attempt
    requires w.t0 <= w.queued <= w.sent <= now
  {
    var after: Duration := now - w.sent;
    Met(w, if replied then Loop.Replied(after, TransientStatus) else Loop.TransportError(after), jitter, 0.0)
  }

  lemma FailedTurn(r: Request, w: Way, now: real, jitter: Duration, replied: bool)
    requires Departed(r, w, now) && now - w.sent <= r.terms.AttemptTimeout(r.deadline - w.sent)
    ensures var delay := Min(jitter, r.terms.BackoffCap(r.attempt));
            var turn := TurnAt(r, FailedAttempt(w, now, jitter, replied), w, r.rejections);
            if !r.terms.WillRetry(r.attempt) then
              turn == Loop.Leaves(TransientError, Sent(w) + if replied then [Loop.PermitFreed, Loop.FailureRecorded]
                                                            else [Loop.FailureRecorded, Loop.PermitFreed])
            else if !MaySleep(delay, now, r.deadline) then
              turn == Loop.Leaves(DeadlineExceeded, Sent(w) + if replied then [Loop.PermitFreed, Loop.FailureRecorded]
                                                              else [Loop.FailureRecorded, Loop.PermitFreed, Loop.ProbeReleased])
            else
              turn == Loop.GoesRound(now + delay, r.rejections,
                                     Sent(w) + if replied then [Loop.PermitFreed, Loop.FailureRecorded, Loop.BackoffUntil(now + delay)]
                                               else [Loop.FailureRecorded, Loop.BackoffUntil(now + delay), Loop.PermitFreed])
  {
    var after: Duration := now - w.sent;
    MetStarts(r, w, if replied then Loop.Replied(after, TransientStatus) else Loop.TransportError(after), jitter, 0.0);
    hide Departed, Loop.StartsAt, Loop.EventsTo, Terms.AttemptTimeout, Terms.BackoffCap, Terms.WillRetry, Sent;
  }

  lemma AnsweredTurn(r: Request, w: Way, now: real)
    requires Departed(r, w, now) && now - w.sent <= r.terms.AttemptTimeout(r.deadline - w.sent)
    ensures TurnAt(r, Met(w, Loop.Replied(now - w.sent, Good), 0.0, 0.0), w, r.rejections) ==
            Loop.Leaves(Response(now), Sent(w) + [Loop.PermitFreed, Loop.SuccessRecorded])
  {
    MetStarts(r, w, Loop.Replied(now - w.sent, Good), 0.0, 0.0);
    hide Departed, Loop.StartsAt, Loop.EventsTo, Terms.AttemptTimeout, Sent;
  }

  lemma RejectedTurn(r: Request, w: Way, now: real, retryAfter: Option<real>)
    requires r.rejections > 0 && Departed(r, w, w.sent) && w.sent <= w.heard <= now
    requires w.heard - w.sent <= r.terms.AttemptTimeout(r.deadline - w.sent)
    ensures var e := Met(w, Loop.Replied(w.heard - w.sent, RateLimited(retryAfter)), 0.0, now - w.heard);
            var events := Sent(w) + [Loop.PermitFreed, Loop.SuccessRecorded, Loop.RateRejected];
            TurnAt(r, e, w, r.rejections - 1) ==
              if r.terms.WillRetryRejection(r.attempt, r.rejections) then Loop.GoesRound(now, r.rejections, events)
              else Loop.Leaves(RateLimitError, events)
  {
    MetStarts(r, w, Loop.Replied(w.heard - w.sent, RateLimited(retryAfter)), 0.0, now - w.heard);
    hide Departed, Loop.StartsAt, Loop.EventsTo, Terms.AttemptTimeout, Terms.WillRetryRejection, Sent;
  }

  // ------------------------------------------------------------- the steps

  ghost predicate Stands(now: real, r: Request, env: World, w: Way, log: Log) {
    Follows(now, r, env, w, log) && Ready(now, r)
  }

  /** What a step lemma ends with. */
  ghost predicate Lands(now: real, r: Request, r': Request, replied: bool, env: World, w: Way, log: Log) {
    Follows(now, r', env, w, log + StepEvents(now, r.place, r'.place, replied))
  }

  /** The request leaves by this attempt. */
  lemma Leaves(now: real, r: Request, env: World, rejections: nat, e: Loop.Attempt, r': Request, w: Way, log: Log)
    requires Heads(r, env, w, rejections) && r.deadline == r.terms.Deadline(StartOf(r))
    requires r.attempt < r.terms.MaxAttempts()
    requires TurnAt(r, e, w, rejections).Leaves? && r'.place.Done?
    requires r'.place.outcome == TurnAt(r, e, w, rejections).outcome
    requires (r'.terms, r'.deadline) == (r.terms, r.deadline) && log == w.before + TurnAt(r, e, w, rejections).events
    ensures Follows(now, r', With(env, r.attempt, e), w, log)
  {
    TurnLeaves(r, env, w, rejections, e);
    hide Loop.TurnOf, Loop.Reached, Loop.Whole;
  }

  lemma NotStarted(r: Request, e: Loop.Attempt, w: Way, rejections: nat)
    requires Loop.StartsAt(r.terms, e, w.t0, r.deadline).None?
    ensures TurnAt(r, e, w, rejections) ==
            Loop.Leaves(Loop.Refusal(r.terms, e, w.t0, r.deadline), Loop.EventsTo(r.terms, e, w.t0, r.deadline))
  {
    hide Loop.StartsAt, Loop.Refusal, Loop.EventsTo;
  }

  lemma AdmitFollows(cfg: Config, now: real, e: Reach, env: World, w: Way, log: Log) returns (env': World, w': Way)
    requires cfg.Valid() && !e.takesProbe && e.request.place.Top? && Stands(now, e.request, env, w, log)
    ensures Lands(now, e.request, AdmitNext(cfg, now, e).request, false, env', w', log)
  {
    var r, r' := e.request, AdmitNext(cfg, now, e).request;
    env', w' := env, w;
    hide Local, Circuit.Apply, Loop.TurnOf, Loop.Reached, Terms.MaxAttempts, Terms.QueueTimeout, Ready;
    if r.attempt >= r.terms.MaxAttempts() {
      Loop.OnwardReached(r.terms, StartOf(r), env, r.attempt);
    } else if !r'.place.Queued? {
      var met := if r'.place.outcome.CircuitOpen? then QUIET.(circuitAdmits := false) else QUIET.(queueFull := true);
      NotStarted(r, met, w, r.rejections);
      env' := With(env, r.attempt, met);
      Leaves(now, r, env, r.rejections, met, r', w, log + StepEvents(now, r.place, r'.place, false));
    }
  }

  lemma AcquireFollows(cfg: Config, now: real, e: Reach, env: World, w: Way, log: Log) returns (env': World, w': Way)
    requires cfg.Valid() && !e.takesProbe && e.request.place.Queued? && e.permits > 0
    requires Stands(now, e.request, env, w, log)
    ensures Lands(now, e.request, AcquireNext(cfg, now, e).request, false, env', w', log)
  {
    var r, r' := e.request, AcquireNext(cfg, now, e).request;
    env', w' := env, w.(queued := now);
    hide Local, Circuit.Apply, Loop.TurnOf, Loop.Reached, Terms.MaxAttempts, Terms.QueueTimeout;
    if r'.place.Done? {
      var met := QUIET.(queueWait := now - w.t0);
      NotStarted(r, met, w, r.rejections);
      env' := With(env, r.attempt, met);
      Leaves(now, r, env, r.rejections, met, r', w', log + StepEvents(now, r.place, r'.place, false));
    }
  }

  lemma QueueTimeoutFollows(cfg: Config, now: real, e: Reach, env: World, w: Way, log: Log) returns (env': World)
    requires cfg.Valid() && !e.takesProbe && e.request.place.Queued? && Stands(now, e.request, env, w, log)
    ensures Lands(now, e.request, QueueTimeoutNext(cfg, now, e).request, false, env', w, log)
  {
    var r, r' := e.request, QueueTimeoutNext(cfg, now, e).request;
    hide Local, Circuit.Apply, Loop.TurnOf, Loop.Reached, Terms.MaxAttempts, Terms.QueueTimeout;
    var met := QUIET.(queueFull := true);
    NotStarted(r, met, w, r.rejections);
    env' := With(env, r.attempt, met);
    Leaves(now, r, env, r.rejections, met, r', w, log + StepEvents(now, r.place, r'.place, false));
  }

  /** A permit was taken, and the deadline came before the transport. */
  lemma DeadlineBeforeTransport(now: real, r: Request, env: World, w: Way, log: Log, r': Request) returns (env': World)
    requires (r.place.AwaitingSlot? || r.place.Pacing?) && Stands(now, r, env, w, log)
    requires r'.place.Done? && r'.place.outcome == DeadlineExceeded && (r'.terms, r'.deadline) == (r.terms, r.deadline)
    ensures Lands(now, r, r', false, env', w, log)
  {
    hide Loop.TurnOf, Loop.Reached, Terms.MaxAttempts, Terms.QueueTimeout;
    var met := QUIET.(queueWait := w.queued - w.t0, slotWait := Max(0.0, r.deadline - w.queued));
    NotStarted(r, met, w, r.rejections);
    env' := With(env, r.attempt, met);
    Leaves(now, r, env, r.rejections, met, r', w, log + StepEvents(now, r.place, r'.place, false));
  }

  lemma GrantFollows(cfg: Config, now: real, e: Reach, env: World, w: Way, log: Log) returns (env': World, w': Way)
    requires cfg.Valid() && !e.takesProbe && (e.request.place.AwaitingSlot? || e.request.place.Pacing?)
    requires Stands(now, e.request, env, w, log)
    ensures Lands(now, e.request, GrantNext(cfg, now, e).request, false, env', w', log)
  {
    hide Local, Circuit.Apply, Loop.TurnOf, Loop.Reached, Loop.Whole, Terms.AttemptTimeout, Terms.QueueTimeout, RateLimiter.Grant;
    hide Terms.MaxAttempts;
    var r' := GrantNext(cfg, now, e).request;
    env', w' := env, w.(sent := now);
    if r'.place.Done? {
      env' := DeadlineBeforeTransport(now, e.request, env, w', log, r');
    }
  }

  lemma EnterSlotFollows(cfg: Config, now: real, id: Id, e: Reach, env: World, w: Way, log: Log)
    returns (env': World, w': Way)
    requires cfg.Valid() && !e.takesProbe && e.request.place.AwaitingSlot? && Stands(now, e.request, env, w, log)
    ensures Lands(now, e.request, EnterSlotNext(cfg, now, id, e).request, false, env', w', log)
  {
    hide Lands, Stands, Local, GrantNext, RateLimiter.Delay;
    if RateLimiter.Delay(e.limiter, now) == 0.0 {
      env', w' := GrantFollows(cfg, now, e, env, w, log);
    } else {
      env', w' := env, w;
      PacingFollows(now, e.request, now + RateLimiter.Delay(e.limiter, now), env, w, log);
    }
  }

  lemma PacingFollows(now: real, r: Request, wakeAt: real, env: World, w: Way, log: Log)
    requires r.place.AwaitingSlot? && Stands(now, r, env, w, log)
    ensures Lands(now, r, r.(place := Pacing(wakeAt)), false, env, w, log)
  {
    assert log + [] == log;
    hide Loop.Reached;
  }

  lemma SlotTimeoutFollows(cfg: Config, now: real, id: Id, e: Reach, env: World, w: Way, log: Log) returns (env': World)
    requires cfg.Valid() && !e.takesProbe && (e.request.place.AwaitingSlot? || e.request.place.Pacing?)
    requires Stands(now, e.request, env, w, log)
    ensures Lands(now, e.request, SlotTimeoutNext(cfg, now, id, e).request, false, env', w, log)
  {
    hide Follows, Local;
    env' := DeadlineBeforeTransport(now, e.request, env, w, log, SlotTimeoutNext(cfg, now, id, e).request);
  }

  lemma FailureFollows(now: real, r: Request, env: World, w: Way, log: Log, jitter: Duration, replied: bool, r': Request)
    returns (env': World)
    requires r.place.InFlight? && Stands(now, r, env, w, log) && (r'.terms, r'.deadline) == (r.terms, r.deadline)
    requires var delay := Min(jitter, r.terms.BackoffCap(r.attempt));
             if !r.terms.WillRetry(r.attempt) then r'.place.Done? && r'.place.outcome == TransientError
             else if !MaySleep(delay, now, r.deadline) then r'.place.Done? && r'.place.outcome == DeadlineExceeded
             else && r'.place == (if replied then Backoff(now + delay) else HoldingBackoff(now + delay))
                  && (r'.attempt, r'.rejections) == (r.attempt, r.rejections)
    ensures Lands(now, r, r', replied, env', w, log)
  {
    hide Loop.TurnOf, Loop.Reached, Loop.Whole, Terms.BackoffCap, Terms.WillRetry, MaySleep, Terms.AttemptTimeout;
    hide Terms.QueueTimeout, Terms.MaxAttempts, Sent;
    FailedTurn(r, w, now, jitter, replied);
    var met := FailedAttempt(w, now, jitter, replied);
    env' := With(env, r.attempt, met);
    ReachedWith(r.terms, StartOf(r), env, r.attempt, met, r.attempt);
    var deed := StepEvents(now, r.place, r'.place, replied);
    var turn := TurnAt(r, met, w, r.rejections);
    assert w.before + Sent(w) + deed == w.before + (Sent(w) + deed);
    if turn.Leaves? {
      Leaves(now, r, env, r.rejections, met, r', w, log + deed);
    } else {
      assert turn.events == Sent(w) + (deed + if replied then [] else [Loop.PermitFreed]);
    }
  }

  lemma TransportFailsFollows(cfg: Config, now: real, jitter: Duration, e: Reach, env: World, w: Way, log: Log)
    returns (env': World)
    requires cfg.Valid() && !e.takesProbe && e.request.place.InFlight? && Stands(now, e.request, env, w, log)
    ensures Lands(now, e.request, TransportFailsNext(cfg, now, e, Drawn(e.request, jitter)).request, false, env', w, log)
  {
    hide Follows, Ready, Local, Circuit.Apply, Terms.BackoffCap, Terms.WillRetry, MaySleep;
    env' := FailureFollows(now, e.request, env, w, log, jitter, false,
                           TransportFailsNext(cfg, now, e, Drawn(e.request, jitter)).request);
  }

  lemma RejectionFollows(now: real, r: Request, env: World, w: Way, log: Log, r': Request) returns (w': Way)
    requires r.place.InFlight? && now <= r.place.until && Stands(now, r, env, w, log) && r'.place.Cooling?
    requires (r'.terms, r'.deadline, r'.attempt, r'.rejections) == (r.terms, r.deadline, r.attempt, r.rejections + 1)
    ensures Lands(now, r, r', true, env, w', log)
  {
    hide Loop.Reached, Terms.AttemptTimeout, Terms.QueueTimeout, Ready;
    w' := w.(heard := now);
    var deed := StepEvents(now, r.place, r'.place, true);
    assert w.before + Sent(w) + deed == w.before + (Sent(w) + deed);
  }

  lemma AnswerFollows(now: real, r: Request, env: World, w: Way, log: Log, r': Request) returns (env': World)
    requires r.place.InFlight? && now <= r.place.until && Stands(now, r, env, w, log)
    requires r'.place.Done? && r'.place.outcome == Response(now) && (r'.terms, r'.deadline) == (r.terms, r.deadline)
    ensures Lands(now, r, r', true, env', w, log)
  {
    hide Loop.TurnOf, Loop.Reached, Loop.Whole, Terms.AttemptTimeout, Terms.QueueTimeout, Terms.MaxAttempts, Sent;
    AnsweredTurn(r, w, now);
    var met := Met(w, Loop.Replied(now - w.sent, Good), 0.0, 0.0);
    env' := With(env, r.attempt, met);
    var deed := StepEvents(now, r.place, r'.place, true);
    assert w.before + Sent(w) + deed == w.before + (Sent(w) + deed);
    Leaves(now, r, env, r.rejections, met, r', w, log + deed);
  }

  lemma RespondsFollows(cfg: Config, now: real, reply: Reply, jitter: Duration, contended: bool, e: Reach, env: World, w: Way, log: Log)
    returns (env': World, w': Way)
    requires cfg.Valid() && !e.takesProbe && e.request.place.InFlight? && now <= e.request.place.until
    requires Stands(now, e.request, env, w, log)
    ensures Lands(now, e.request, RespondsNext(cfg, now, e, reply, Drawn(e.request, jitter), contended).request, true, env', w', log)
  {
    var r, r' := e.request, RespondsNext(cfg, now, e, reply, Drawn(e.request, jitter), contended).request;
    env', w' := env, w;
    hide Stands, Lands, Local, Circuit.Apply, Terms.BackoffCap, Terms.WillRetry, MaySleep;
    match reply
    case RateLimited(_) => w' := RejectionFollows(now, r, env, w, log, r');
    case TransientStatus => env' := FailureFollows(now, r, env, w, log, jitter, true, r');
    case Good => env' := AnswerFollows(now, r, env, w, log, r');
  }

  lemma CooldownFollows(now: real, r: Request, env: World, w: Way, log: Log, retryAfter: Option<real>, r': Request)
    returns (env': World, w': Way)
    requires r.place.Cooling? && Stands(now, r, env, w, log) && r.attempt < r.terms.MaxAttempts()
    requires (r'.terms, r'.deadline, r'.scope) == (r.terms, r.deadline, r.scope)
    requires if r.terms.WillRetryRejection(r.attempt, r.rejections) then
               r'.place.Top? && (r'.attempt, r'.rejections) == (r.attempt + 1, r.rejections)
             else r'.place.Done? && r'.place.outcome == RateLimitError
    ensures Lands(now, r, r', false, env', w', log)
  {
    hide Loop.TurnOf, Loop.Reached, Loop.Whole, Terms.WillRetryRejection, Terms.AttemptTimeout, Terms.QueueTimeout;
    hide Terms.MaxAttempts, Ready, Sent;
    RejectedTurn(r, w, now, retryAfter);
    var met := Met(w, Loop.Replied(w.heard - w.sent, RateLimited(retryAfter)), 0.0, now - w.heard);
    env', w' := With(env, r.attempt, met), w.(t0 := now, before := log);
    assert log + [] == log;
    if r'.place.Top? {
      TurnGoesRound(r, env, w, r.rejections - 1, met);
    } else {
      Leaves(now, r, env, r.rejections - 1, met, r', w, log);
    }
  }

  lemma CoolDownFollows(cfg: Config, now: real, retryAfter: Option<real>, e: Reach, env: World, w: Way, log: Log)
    returns (env': World, w': Way)
    requires cfg.Valid() && !e.takesProbe && e.request.place.Cooling? && Stands(now, e.request, env, w, log)
    ensures Lands(now, e.request, CoolDownNext(cfg, now, e, retryAfter).request, false, env', w', log)
  {
    AttemptLeft(now, e.request);
    hide Follows, Ready, Lands, Local, Terms.WillRetryRejection, RateLimiter.Impose, RateLimiter.Cooldown;
    env', w' := CooldownFollows(now, e.request, env, w, log, retryAfter, CoolDownNext(cfg, now, e, retryAfter).request);
  }

  lemma AttemptLeft(now: real, r: Request)
    requires Ready(now, r) && r.place.Cooling?
    ensures r.attempt < r.terms.MaxAttempts()
  {
  }

  lemma BackoffEndsFollows(cfg: Config, now: real, e: Reach, env: World, w: Way, log: Log) returns (w': Way)
    requires cfg.Valid() && !e.takesProbe && e.request.place.Asleep() && e.request.place.wakeAt <= now
    requires Stands(now, e.request, env, w, log)
    ensures Lands(now, e.request, BackoffEndsNext(cfg, now, e).request, false, env, w', log)
  {
    var r := e.request;
    hide Loop.TurnOf, Local, Loop.Whole;
    assert r.place.wakeAt == now;
    w' := w.(t0 := now, before := if r.place.HoldingBackoff? then log + [Loop.PermitFreed] else log);
    assert log + [] == log;
  }

  // ---------------------------------------------- over every prompt schedule

  lemma MovedFollows(cfg: Config, s: System, step: Step, env: World, w: Way, log: Log) returns (env': World, w': Way)
    requires cfg.Valid() && Enabled(s, step) && !step.Tick? && !step.Start?
    requires Stands(s.now, s.requests[step.id], env, w, log)
    ensures Follows(s.now, Moved(cfg, s, step).request, env', w', log + Deed(cfg, s, step))
  {
    hide Local, Stands, Follows, Contended, AdmitNext, AcquireNext, QueueTimeoutNext, EnterSlotNext, GrantNext;
    hide SlotTimeoutNext, TransportFailsNext, RespondsNext, CoolDownNext, BackoffEndsNext, Drawn, StepEvents;
    var e := ReachOf(s, step.id);
    env', w' := env, w;
    match step
    case Admit(_) => env', w' := AdmitFollows(cfg, s.now, e, env, w, log);
    case Acquire(_) => env', w' := AcquireFollows(cfg, s.now, e, env, w, log);
    case QueueTimeout(_) => env' := QueueTimeoutFollows(cfg, s.now, e, env, w, log);
    case EnterSlot(id) => env', w' := EnterSlotFollows(cfg, s.now, id, e, env, w, log);
    case WakeInSlot(_) => env', w' := GrantFollows(cfg, s.now, e, env, w, log);
    case SlotTimeout(id) => env' := SlotTimeoutFollows(cfg, s.now, id, e, env, w, log);
    case TransportFails(_, jitter) => env' := TransportFailsFollows(cfg, s.now, jitter, e, env, w, log);
    case Responds(id, reply, jitter) =>
      env', w' := RespondsFollows(cfg, s.now, reply, jitter, Contended(s, id), e, env, w, log);
    case CoolDown(_) => env', w' := CoolDownFollows(cfg, s.now, e.request.place.retryAfter, e, env, w, log);
    case BackoffEnds(_) => w' := BackoffEndsFollows(cfg, s.now, e, env, w, log);
  }

  /** Some world has the request stand where it stands. */
  ghost predicate InStep(now: real, r: Request, log: Log) {
    exists env: World, w: Way :: Follows(now, r, env, w, log)
  }

  ghost predicate AllInStep(cfg: Config, steps: seq<Step>)
    requires cfg.Valid()
  {
    var s := Run(cfg, steps);
    forall id :: id in s.requests ==> InStep(s.now, s.requests[id], LogOf(cfg, steps, id))
  }

  lemma WaitsInStep(s: System, r: Request, until: real, log: Log)
    requires InStep(s.now, r, log) && s.now <= until && MayWait(s, r, until)
    ensures InStep(until, r, log)
  {
    hide Heads, GoesOnAt, Admitted, Loop.Whole, Terms.QueueTimeout, Terms.AttemptTimeout;
    var env, w :| Follows(s.now, r, env, w, log);
    assert Follows(until, r, env, w, log);
  }

  lemma FreshInStep(now: real, scope: Scope, terms: Terms)
    ensures InStep(now, Request(scope, terms, terms.Deadline(now), 0, 0, Top, FRESH), [])
  {
    var r := Request(scope, terms, terms.Deadline(now), 0, 0, Top, FRESH);
    assert Follows(now, r, _ => QUIET, Way([], now, now, now, now), []);
  }

  lemma StepInStep(cfg: Config, s: System, step: Step, log: Log)
    requires cfg.Valid() && Enabled(s, step) && !step.Tick? && !step.Start?
    requires InStep(s.now, s.requests[step.id], log) && Ready(s.now, s.requests[step.id])
    ensures InStep(s.now, Moved(cfg, s, step).request, log + Deed(cfg, s, step))
  {
    hide Follows, Ready, Moved, Local, Deed;
    var env, w :| Follows(s.now, s.requests[step.id], env, w, log);
    var env', w' := MovedFollows(cfg, s, step, env, w, log);
  }

  /** A request that has not been started has done nothing. */
  lemma {:induction false} NothingLogged(cfg: Config, steps: seq<Step>, id: Id)
    requires cfg.Valid() && id !in Run(cfg, steps).requests
    ensures LogOf(cfg, steps, id) == []
  {
    hide Deed, Moved, Local;
    if steps != [] { NothingLogged(cfg, steps[..|steps| - 1], id); }
  }

  /** One request over one step: it acts, it waits, it is started, or nothing touches it. */
  lemma OneInStep(cfg: Config, s: System, step: Step, id: Id, log: Log)
    requires cfg.Valid() && Timely(s, step) && id in Next(cfg, s, step).requests
    requires id in s.requests ==> InStep(s.now, s.requests[id], log) && Ready(s.now, s.requests[id])
    requires id !in s.requests ==> log == []
    ensures InStep(Next(cfg, s, step).now, Next(cfg, s, step).requests[id],
                   log + if Acts(s, step, id) then Deed(cfg, s, step) else [])
  {
    hide InStep, Ready, Moved, MayWait, Local, Deed;
    assert log + [] == log;
    if Acts(s, step, id) {
      StepInStep(cfg, s, step, log);
    } else if id !in s.requests {
      FreshInStep(s.now, step.scope, step.terms);
    } else if Enabled(s, step) && step.Tick? {
      WaitsInStep(s, s.requests[id], s.now + step.elapsed, log);
    }
  }

  lemma InStepKept(cfg: Config, steps: seq<Step>)
    requires cfg.Valid() && steps != []
    requires var front := steps[..|steps| - 1];
             && AllInStep(cfg, front) && BudgetsOk(Run(cfg, front)) && TimersOk(Run(cfg, front))
             && AllOnTime(Run(cfg, front)) && Timely(Run(cfg, front), steps[|steps| - 1])
    ensures AllInStep(cfg, steps)
  {
    var front, step := steps[..|steps| - 1], steps[|steps| - 1];
    var s, s' := Run(cfg, front), Run(cfg, steps);
    assert s' == Next(cfg, s, step);
    hide InStep, OnTime, BudgetOk, TimerOk, Timely, Run, Deed, Acts, Next;
    forall id | id in s'.requests ensures InStep(s'.now, s'.requests[id], LogOf(cfg, steps, id)) {
      if id !in s.requests { NothingLogged(cfg, front, id); }
      OneInStep(cfg, s, step, id, LogOf(cfg, front, id));
    }
  }

  lemma {:induction false} PromptRunsInStep(cfg: Config, steps: seq<Step>)
    requires cfg.Valid() && TimelyRun(cfg, steps)
    ensures AllInStep(cfg, steps)
  {
    if steps != [] {
      var front := steps[..|steps| - 1];
      PromptRunsInStep(cfg, front);
      hide Run, AllInStep, BudgetsOk, TimersOk, Timely, AllOnTime;
      EveryRunIsSound(cfg, front);
      EveryRunBudgeted(cfg, front);
      TimelyRunsOnTime(cfg, front);
      InStepKept(cfg, steps);
    }
  }

  /**
   In every prompt schedule, whatever the others do: a request that has left made the calls of the
   loop, started when it started, in some environment, each at its time, and left with the loop's
   outcome. So its log keeps the rules, and it holds a response exactly when that environment
   answers one of its attempts well and in time.
   */
  lemma RequestsFollowTheLoop(cfg: Config, steps: seq<Step>, id: Id) returns (env: World)
    requires cfg.Valid() && TimelyRun(cfg, steps)
    requires id in Run(cfg, steps).requests && Run(cfg, steps).requests[id].place.Done?
    ensures var r := Run(cfg, steps).requests[id];
            && Loop.Whole(r.terms, StartOf(r), env) == Loop.Course(r.place.outcome, LogOf(cfg, steps, id))
            && Loop.KeepsRules(r.terms, StartOf(r), r.place.outcome, LogOf(cfg, steps, id))
            && (r.place.outcome.Response? <==> exists k :: Loop.Answered(r.terms, StartOf(r), env, k))
  {
    hide Run, Loop.Whole, Loop.Answered, Loop.KeepsRules, LogOf;
    PromptRunsInStep(cfg, steps);
    EveryRunIsSound(cfg, steps);
    var s := Run(cfg, steps);
    assert InStep(s.now, s.requests[id], LogOf(cfg, steps, id)) && TimerOk(s.requests[id]);
    var w: Way;
    env, w :| Follows(s.now, s.requests[id], env, w, LogOf(cfg, steps, id));
    Loop.RespondsExactly(s.requests[id].terms, StartOf(s.requests[id]), env);
    Loop.RulesKept(s.requests[id].terms, StartOf(s.requests[id]), env);
  }
}
