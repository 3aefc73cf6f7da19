/**
 When requests leave, under every schedule in which the event loop is prompt: it lets no due timer
 and no runnable request wait while the clock moves, and a caller that finds the limiter's lock
 free and unawaited takes it in the same step.
 */
module ProtocolTiming {
  import opened Numbers
  import opened Protocol
  import opened ProtocolBudgets
  import opened RequestPolicy
  import opened Wrappers
  import Circuit
  import RateLimiter

  /** The clock may reach `until` with this request left where it is. */
  predicate MayWait(s: System, r: Request, until: real) {
    match r.place
    case Top => until <= s.now
    case Queued(end) => until <= end && (s.permits > 0 ==> until <= s.now)
    case AwaitingSlot => until <= r.deadline && (s.lockedBy.None? ==> until <= s.now)
    case Pacing(wakeAt) => until <= wakeAt && until <= r.deadline
    case InFlight(end) => until <= end
    case HoldingBackoff(wakeAt) => until <= wakeAt
    case Backoff(wakeAt) => until <= wakeAt
    case Cooling(_, _) => s.lockedBy.None? ==> until <= s.now
    case Done(_, _) => true
  }

  ghost predicate Timely(s: System, step: Step) {
    && (forall id :: id in s.requests && s.requests[id].place.Cooling? && !s.requests[id].place.behind ==> step == CoolDown(id))
    && (step.Tick? ==> forall id :: id in s.requests ==> MayWait(s, s.requests[id], s.now + step.elapsed))
  }

  ghost predicate TimelyRun(cfg: Config, steps: seq<Step>)
    requires cfg.Valid()
  {
    steps == []
    || (TimelyRun(cfg, steps[..|steps| - 1]) && Timely(Run(cfg, steps[..|steps| - 1]), steps[|steps| - 1]))
  }

  predicate Late(r: Request) {
    r.past.cooledAt > r.deadline
  }

  predicate MayLeaveLate(outcome: Outcome) {
    outcome.RateLimitError? || outcome.DeadlineExceeded?
  }

  /** Up to a cooldown that was granted after the deadline, everything happens by the deadline. */
  ghost predicate OnTime(now: real, r: Request) {
    && (Late(r) ==> r.past.stalled && (r.place.Top? || r.place.Done?))
    && match r.place
       case Top => if Late(r) then now == r.past.cooledAt && r.attempt > 0 else now <= r.deadline
       case Queued(end) => now <= end
       case AwaitingSlot => now <= r.deadline
       case Pacing(wakeAt) => now <= wakeAt && now <= r.deadline
       case InFlight(end) => now <= end
       case HoldingBackoff(wakeAt) => now <= wakeAt
       case Backoff(wakeAt) => now <= wakeAt
       case Cooling(_, behind) => if behind then r.past.stalled else now <= r.deadline
       case Done(outcome, at) => if Late(r) then at == r.past.cooledAt && MayLeaveLate(outcome) else at <= r.deadline
  }

  ghost predicate Ready(now: real, r: Request) {
    OnTime(now, r) && TimerOk(r) && BudgetOk(r)
  }

  lemma AdmitOnTime(cfg: Config, now: real, e: Reach)
    requires cfg.Valid() && !e.takesProbe && e.request.place.Top? && Ready(now, e.request)
    ensures OnTime(now, AdmitNext(cfg, now, e).request)
  {
    hide Local, Circuit.Apply, Circuit.Decide;
  }

  lemma AcquireOnTime(cfg: Config, now: real, e: Reach)
    requires cfg.Valid() && !e.takesProbe && e.request.place.Queued? && e.permits > 0 && now <= e.request.place.until
    requires Ready(now, e.request)
    ensures OnTime(now, AcquireNext(cfg, now, e).request)
  {
    hide Local, Circuit.Apply, Circuit.Decide, Min, Terms.MaxAttempts;
  }

  lemma QueueTimeoutOnTime(cfg: Config, now: real, e: Reach)
    requires cfg.Valid() && !e.takesProbe && e.request.place.Queued? && Ready(now, e.request)
    ensures OnTime(now, QueueTimeoutNext(cfg, now, e).request)
  {
    hide Local, Circuit.Apply, Circuit.Decide, Min, Terms.MaxAttempts;
  }

  lemma GrantOnTime(cfg: Config, now: real, e: Reach)
    requires cfg.Valid() && !e.takesProbe && (e.request.place.AwaitingSlot? || e.request.place.Pacing?)
    requires Ready(now, e.request)
    ensures OnTime(now, GrantNext(cfg, now, e).request)
  {
    hide Local, Circuit.Apply, Circuit.Decide, Terms.MaxAttempts, RateLimiter.Grant;
  }

  lemma EnterSlotOnTime(cfg: Config, now: real, id: Id, e: Reach)
    requires cfg.Valid() && !e.takesProbe && e.request.place.AwaitingSlot? && Ready(now, e.request)
    ensures OnTime(now, EnterSlotNext(cfg, now, id, e).request)
  {
    GrantOnTime(cfg, now, e);
    hide Local, Circuit.Apply, Circuit.Decide, Min, Terms.MaxAttempts, GrantNext, RateLimiter.AllowedAt;
  }

  lemma SlotTimeoutOnTime(cfg: Config, now: real, id: Id, e: Reach)
    requires cfg.Valid() && !e.takesProbe && (e.request.place.AwaitingSlot? || e.request.place.Pacing?)
    requires Ready(now, e.request)
    ensures OnTime(now, SlotTimeoutNext(cfg, now, id, e).request)
  {
    hide Local, Circuit.Apply, Circuit.Decide, Min, Terms.MaxAttempts;
  }

  lemma TransportFailsOnTime(cfg: Config, now: real, delay: real, e: Reach)
    requires cfg.Valid() && !e.takesProbe && e.request.place.InFlight? && delay >= 0.0 && Ready(now, e.request)
    ensures OnTime(now, TransportFailsNext(cfg, now, e, delay).request)
  {
    hide Local, Circuit.Apply, Circuit.Decide, Min, Terms.MaxAttempts;
  }

  lemma RespondsOnTime(cfg: Config, now: real, reply: Reply, delay: real, contended: bool, e: Reach)
    requires cfg.Valid() && !e.takesProbe && e.request.place.InFlight? && now <= e.request.place.until && delay >= 0.0
    requires Ready(now, e.request)
    ensures OnTime(now, RespondsNext(cfg, now, e, reply, delay, contended).request)
  {
    hide Local, Circuit.Apply, Circuit.Decide, Min, Terms.MaxAttempts;
  }

  lemma CoolDownOnTime(cfg: Config, now: real, retryAfter: Option<real>, e: Reach)
    requires cfg.Valid() && !e.takesProbe && e.request.place.Cooling? && Ready(now, e.request)
    ensures OnTime(now, CoolDownNext(cfg, now, e, retryAfter).request)
  {
    hide Local, Circuit.Apply, Circuit.Decide, Min, Terms.MaxAttempts, RateLimiter.Impose, RateLimiter.Cooldown;
  }

  lemma BackoffEndsOnTime(cfg: Config, now: real, e: Reach)
    requires cfg.Valid() && !e.takesProbe && e.request.place.Asleep() && e.request.place.wakeAt <= now
    requires Ready(now, e.request)
    ensures OnTime(now, BackoffEndsNext(cfg, now, e).request)
  {
    hide Local, Circuit.Apply, Circuit.Decide, Min, Terms.MaxAttempts;
  }

  lemma ReadyDraw(now: real, r: Request, jitter: Duration)
    requires Ready(now, r)
    ensures Drawn(r, jitter) >= 0.0
  {
    RateLimiter.DoubledGrows(r.terms.policy.retryBase, r.attempt, r.attempt);
  }

  lemma MovedOnTime(cfg: Config, s: System, step: Step)
    requires cfg.Valid() && Enabled(s, step) && !step.Tick? && !step.Start? && Ready(s.now, s.requests[step.id])
    ensures OnTime(s.now, Moved(cfg, s, step).request)
  {
    hide Local, Ready, Contended, AdmitNext, AcquireNext, QueueTimeoutNext, EnterSlotNext, GrantNext;
    hide SlotTimeoutNext, TransportFailsNext, RespondsNext, CoolDownNext, BackoffEndsNext;
    var e := ReachOf(s, step.id);
    match step
    case Admit(_) => AdmitOnTime(cfg, s.now, e);
    case Acquire(_) => AcquireOnTime(cfg, s.now, e);
    case QueueTimeout(_) => QueueTimeoutOnTime(cfg, s.now, e);
    case EnterSlot(id) => EnterSlotOnTime(cfg, s.now, id, e);
    case WakeInSlot(_) => GrantOnTime(cfg, s.now, e);
    case SlotTimeout(id) => SlotTimeoutOnTime(cfg, s.now, id, e);
    case TransportFails(_, jitter) =>
      ReadyDraw(s.now, e.request, jitter);
      TransportFailsOnTime(cfg, s.now, Drawn(e.request, jitter), e);
    case Responds(id, reply, jitter) =>
      ReadyDraw(s.now, e.request, jitter);
      RespondsOnTime(cfg, s.now, reply, Drawn(e.request, jitter), Contended(s, id), e);
    case CoolDown(_) => CoolDownOnTime(cfg, s.now, e.request.place.retryAfter, e);
    case BackoffEnds(_) => BackoffEndsOnTime(cfg, s.now, e);
  }

  ghost predicate AllOnTime(s: System) {
    forall id :: id in s.requests ==> OnTime(s.now, s.requests[id])
  }

  lemma WaitsOnTime(s: System, r: Request, until: real)
    requires OnTime(s.now, r) && s.now <= until && MayWait(s, r, until)
    requires r.place.Cooling? ==> r.place.behind
    ensures OnTime(until, r)
  {
  }

  lemma FreshOnTime(now: real, scope: Scope, terms: Terms)
    requires 0.0 <= now && terms.policy.Valid()
    ensures OnTime(now, Request(scope, terms, terms.Deadline(now), 0, 0, Top, FRESH))
  {
  }

  lemma OnTimeKept(cfg: Config, s: System, step: Step)
    requires cfg.Valid() && Sound(cfg, s) && BudgetsOk(s) && AllOnTime(s) && Timely(s, step)
    ensures AllOnTime(Next(cfg, s, step))
  {
    hide OnTime, Moved, BudgetOk, TimerOk, MayWait, Local;
    if !Enabled(s, step) {
    } else if step.Tick? {
      forall id | id in s.requests ensures OnTime(s.now + step.elapsed, s.requests[id]) {
        WaitsOnTime(s, s.requests[id], s.now + step.elapsed);
      }
    } else if step.Start? {
      FreshOnTime(s.now, step.scope, step.terms);
    } else {
      assert TimerOk(s.requests[step.id]);
      MovedOnTime(cfg, s, step);
      assert Next(cfg, s, step).requests == s.requests[step.id := Moved(cfg, s, step).request];
    }
  }

  lemma {:induction false} TimelyRunsOnTime(cfg: Config, steps: seq<Step>)
    requires cfg.Valid() && TimelyRun(cfg, steps)
    ensures AllOnTime(Run(cfg, steps))
  {
    hide Next, OnTime, Sound, BudgetsOk, Timely;
    if steps != [] {
      var front := steps[..|steps| - 1];
      TimelyRunsOnTime(cfg, front);
      EveryRunIsSound(cfg, front);
      EveryRunBudgeted(cfg, front);
      OnTimeKept(cfg, Run(cfg, front), steps[|steps| - 1]);
    }
  }

  /**
   In every prompt schedule a request leaves after its deadline exactly when the lock let its last
   cooldown be imposed only after the deadline. It then leaves at that moment, with a rate-limit
   error or, when the rejection was to be retried, with the deadline error of the next turn; and
   some rejection of it must have found the limiter's lock held or awaited. Without that, every
   exit of whatever kind is by the deadline.
   */
  lemma LateExits(cfg: Config, steps: seq<Step>, id: Id)
    requires cfg.Valid() && TimelyRun(cfg, steps)
    requires id in Run(cfg, steps).requests && Run(cfg, steps).requests[id].place.Done?
    ensures var r := Run(cfg, steps).requests[id];
            && (r.place.at > r.deadline <==> r.past.cooledAt > r.deadline)
            && (r.place.at > r.deadline ==>
                  r.place.at == r.past.cooledAt && r.past.stalled
                  && (r.place.outcome.RateLimitError? || r.place.outcome.DeadlineExceeded?))
            && (!r.past.stalled ==> r.place.at <= r.deadline)
  {
    hide Run;
    TimelyRunsOnTime(cfg, steps);
    assert OnTime(Run(cfg, steps).now, Run(cfg, steps).requests[id]);
  }
}
