/**
 What one request may spend, under every schedule of `Protocol`: transport starts, rate-limit
 rejections, the reason it gave up, and the permit it keeps while it sleeps.
 */
module ProtocolBudgets {
  import opened Numbers
  import opened Protocol
  import opened RequestPolicy
  import opened Wrappers
  import Circuit
  import RateLimiter

  /** The transport of the current attempt has been started. */
  predicate Sent(place: Place) {
    place.InFlight? || place.Asleep() || place.Cooling?
  }

  /** Attempts and transports agree, and both stay within what the terms allow. */
  ghost predicate BudgetOk(r: Request) {
    var t, p := r.terms, r.past;
    && (r.attempt > 0 ==> t.mayRetry && (!r.place.Done? ==> r.attempt < t.MaxAttempts()))
    && (!r.place.Done? ==> p.transports == r.attempt + Count(Sent(r.place)))
    && (!r.place.Done? && !r.place.Top? ==> r.attempt < t.MaxAttempts())
    && (r.place.Asleep() ==> t.mayRetry && r.attempt + 1 < t.MaxAttempts())
    && r.rejections <= r.attempt + Count(r.place.Cooling? || r.place.Done?) && (r.place.Cooling? ==> r.rejections >= 1)
    && r.rejections <= AtLeastZero(t.rateLimitRetries) + Count(r.place.Cooling? || r.place.Done?)
    && (r.place.HoldingBackoff? ==> p.failed == Some(TransportFailure))
    && (r.place.Backoff? ==> p.failed == Some(StatusFailure))
    && (r.place.Done? ==> Settled(r))
  }

  /** How a request that has left stands to its budgets, by the outcome it left with. */
  ghost predicate Settled(r: Request)
    requires r.place.Done?
  {
    var t, p, outcome := r.terms, r.past, r.place.outcome;
    && p.transports <= AtLeastZero(t.MaxAttempts()) && (!t.mayRetry ==> p.transports <= 1)
    && (outcome.Exhausted? <==> t.MaxAttempts() <= 0)
    && (outcome.Response? ==> p.transports >= 1)
    && (outcome.TransientError? ==>
          p.failed.Some? && p.transports >= 1 && (!t.mayRetry || p.transports == t.MaxAttempts()))
    && (outcome.RateLimitError? ==>
          r.rejections >= 1
          && (!t.mayRetry || r.rejections > t.rateLimitRetries || p.transports == t.MaxAttempts()))
  }

  lemma AdmitBudget(cfg: Config, now: real, e: Reach)
    requires cfg.Valid() && !e.takesProbe && e.request.place.Top? && BudgetOk(e.request)
    ensures BudgetOk(AdmitNext(cfg, now, e).request)
  {
    hide Local, Circuit.Apply, Circuit.Decide, MaySleep, Terms.MaxAttempts;
  }

  lemma AcquireBudget(cfg: Config, now: real, e: Reach)
    requires cfg.Valid() && !e.takesProbe && e.request.place.Queued? && e.permits > 0 && BudgetOk(e.request)
    ensures BudgetOk(AcquireNext(cfg, now, e).request)
  {
    hide Local, Circuit.Apply, Circuit.Decide, MaySleep, Terms.MaxAttempts;
  }

  lemma QueueTimeoutBudget(cfg: Config, now: real, e: Reach)
    requires cfg.Valid() && !e.takesProbe && e.request.place.Queued? && BudgetOk(e.request)
    ensures BudgetOk(QueueTimeoutNext(cfg, now, e).request)
  {
    hide Local, Circuit.Apply, Circuit.Decide, MaySleep, Terms.MaxAttempts;
  }

  lemma GrantBudget(cfg: Config, now: real, e: Reach)
    requires cfg.Valid() && !e.takesProbe && (e.request.place.AwaitingSlot? || e.request.place.Pacing?)
    requires BudgetOk(e.request)
    ensures BudgetOk(GrantNext(cfg, now, e).request)
  {
    hide Local, Circuit.Apply, Circuit.Decide, MaySleep, Terms.MaxAttempts, RateLimiter.Grant;
  }

  lemma EnterSlotBudget(cfg: Config, now: real, id: Id, e: Reach)
    requires cfg.Valid() && !e.takesProbe && e.request.place.AwaitingSlot? && BudgetOk(e.request)
    ensures BudgetOk(EnterSlotNext(cfg, now, id, e).request)
  {
    GrantBudget(cfg, now, e);
    hide Local, Circuit.Apply, Circuit.Decide, MaySleep, Terms.MaxAttempts, GrantNext, RateLimiter.Delay;
  }

  lemma SlotTimeoutBudget(cfg: Config, now: real, id: Id, e: Reach)
    requires cfg.Valid() && !e.takesProbe && (e.request.place.AwaitingSlot? || e.request.place.Pacing?)
    requires BudgetOk(e.request)
    ensures BudgetOk(SlotTimeoutNext(cfg, now, id, e).request)
  {
    hide Local, Circuit.Apply, Circuit.Decide, MaySleep, Terms.MaxAttempts;
  }

  lemma TransportFailsBudget(cfg: Config, now: real, delay: real, e: Reach)
    requires cfg.Valid() && !e.takesProbe && e.request.place.InFlight? && BudgetOk(e.request)
    ensures BudgetOk(TransportFailsNext(cfg, now, e, delay).request)
  {
    hide Local, Circuit.Apply, Circuit.Decide, MaySleep, Terms.MaxAttempts;
  }

  lemma RespondsBudget(cfg: Config, now: real, reply: Reply, delay: real, contended: bool, e: Reach)
    requires cfg.Valid() && !e.takesProbe && e.request.place.InFlight? && now <= e.request.place.until
    requires BudgetOk(e.request)
    ensures BudgetOk(RespondsNext(cfg, now, e, reply, delay, contended).request)
  {
    hide Local, Circuit.Apply, Circuit.Decide, MaySleep, Terms.MaxAttempts;
  }

  lemma CoolDownBudget(cfg: Config, now: real, retryAfter: Option<real>, e: Reach)
    requires cfg.Valid() && !e.takesProbe && e.request.place.Cooling? && BudgetOk(e.request)
    ensures BudgetOk(CoolDownNext(cfg, now, e, retryAfter).request)
  {
    hide Local, Circuit.Apply, Circuit.Decide, MaySleep, Terms.MaxAttempts, RateLimiter.Impose, RateLimiter.Cooldown;
  }

  lemma BackoffEndsBudget(cfg: Config, now: real, e: Reach)
    requires cfg.Valid() && !e.takesProbe && e.request.place.Asleep() && BudgetOk(e.request)
    ensures BudgetOk(BackoffEndsNext(cfg, now, e).request)
  {
    hide Local, Circuit.Apply, Circuit.Decide, MaySleep, Terms.MaxAttempts;
  }

  lemma MovedBudget(cfg: Config, s: System, step: Step)
    requires cfg.Valid() && Enabled(s, step) && !step.Tick? && !step.Start? && BudgetOk(s.requests[step.id])
    ensures BudgetOk(Moved(cfg, s, step).request)
  {
    hide Local, BudgetOk, Contended, Drawn, AdmitNext, AcquireNext, QueueTimeoutNext, EnterSlotNext, GrantNext;
    hide SlotTimeoutNext, TransportFailsNext, RespondsNext, CoolDownNext, BackoffEndsNext;
    var e := ReachOf(s, step.id);
    match step
    case Admit(_) => AdmitBudget(cfg, s.now, e);
    case Acquire(_) => AcquireBudget(cfg, s.now, e);
    case QueueTimeout(_) => QueueTimeoutBudget(cfg, s.now, e);
    case EnterSlot(id) => EnterSlotBudget(cfg, s.now, id, e);
    case WakeInSlot(_) => GrantBudget(cfg, s.now, e);
    case SlotTimeout(id) => SlotTimeoutBudget(cfg, s.now, id, e);
    case TransportFails(_, jitter) => TransportFailsBudget(cfg, s.now, Drawn(e.request, jitter), e);
    case Responds(id, reply, jitter) =>
      RespondsBudget(cfg, s.now, reply, Drawn(e.request, jitter), Contended(s, id), e);
    case CoolDown(_) => CoolDownBudget(cfg, s.now, e.request.place.retryAfter, e);
    case BackoffEnds(_) => BackoffEndsBudget(cfg, s.now, e);
  }

  ghost predicate BudgetsOk(s: System) {
    forall id :: id in s.requests ==> BudgetOk(s.requests[id])
  }

  lemma BudgetsKept(cfg: Config, s: System, step: Step)
    requires cfg.Valid() && BudgetsOk(s)
    ensures BudgetsOk(Next(cfg, s, step))
  {
    hide Moved, BudgetOk;
    if Enabled(s, step) && !step.Tick? {
      if step.Start? {
        FreshBudget(step.scope, step.terms, s.now);
      } else {
        MovedBudget(cfg, s, step);
        assert Next(cfg, s, step).requests == s.requests[step.id := Moved(cfg, s, step).request];
      }
    }
  }

  lemma FreshBudget(scope: Scope, terms: Terms, now: real)
    ensures BudgetOk(Request(scope, terms, terms.Deadline(now), 0, 0, Top, FRESH))
  {
  }

  lemma {:induction false} EveryRunBudgeted(cfg: Config, steps: seq<Step>)
    requires cfg.Valid()
    ensures BudgetsOk(Run(cfg, steps))
  {
    hide Next, BudgetOk;
    if steps != [] {
      EveryRunBudgeted(cfg, steps[..|steps| - 1]);
      BudgetsKept(cfg, Run(cfg, steps[..|steps| - 1]), steps[|steps| - 1]);
    }
  }

  /**
   Under every schedule a request starts at most `max_attempts` transports, at most one when it may
   not be retried, and sees at most `rate_limit_retries` + 1 rejections; once it has left, it left
   through the code after the loop only with no attempt allowed, and gave up only for the reason it
   reports.
   */
  lemma BudgetsHold(cfg: Config, steps: seq<Step>, id: Id)
    requires cfg.Valid() && id in Run(cfg, steps).requests
    ensures var r := Run(cfg, steps).requests[id];
            && r.past.transports <= AtLeastZero(r.terms.MaxAttempts())
            && (!r.terms.mayRetry ==> r.past.transports <= 1)
            && r.rejections <= AtLeastZero(r.terms.rateLimitRetries) + 1
            && (r.place.Done? ==> Settled(r))
  {
    hide Run;
    EveryRunBudgeted(cfg, steps);
    assert BudgetOk(Run(cfg, steps).requests[id]);
  }

  /** Under every schedule a sleeping request still holds its permit exactly when its transport failed. */
  lemma SleeperHoldsPermit(cfg: Config, steps: seq<Step>, id: Id)
    requires cfg.Valid() && id in Run(cfg, steps).requests && Run(cfg, steps).requests[id].place.Asleep()
    ensures var r := Run(cfg, steps).requests[id];
            r.place.HoldsPermit() <==> r.past.failed == Some(TransportFailure)
  {
    hide Run;
    EveryRunBudgeted(cfg, steps);
    assert BudgetOk(Run(cfg, steps).requests[id]);
  }
}
