/**
 The timers and decisions of every schedule of `Protocol`, said in the numbers of a request's
 policy and of the limiter's configuration alone.
 */
module ProtocolLaws {
  import opened Numbers
  import opened Protocol
  import opened ProtocolCooldowns
  import opened ProtocolLog
  import opened RequestPolicy
  import opened Wrappers
  import Circuit
  import Laws = RequestLaws
  import Loop = RequestLoop
  import RateLimiter

  // -------------------------------------------------------------- timers

  /** `until` is the sooner of `wait` after `from` and the deadline. */
  predicate Sooner(until: real, from: real, wait: real, deadline: real) {
    until <= from + wait && until <= deadline && (until == from + wait || until == deadline)
  }

  /** Each timer of a request is set from the last call in its log. */
  ghost predicate TimerLaw(r: Request, log: Log) {
    match r.place
    case Queued(until) =>
      log != [] && var last := log[|log| - 1];
      last.Admitted? && last.at < r.deadline && Sooner(until, last.at, r.terms.policy.queueTimeout, r.deadline)
    case InFlight(until) =>
      log != [] && var last := log[|log| - 1];
      last.TransportStarted? && last.at < r.deadline && Sooner(until, last.at, r.terms.policy.attemptTimeout, r.deadline)
    case Done(outcome, at) => outcome.Response? ==> outcome.at == at && AnswerLaw(r, log, at)
    case _ => true
  }

  /** A response ends the last transport of the log, at most `attemptTimeout` after it started. */
  ghost predicate AnswerLaw(r: Request, log: Log, at: real) {
    && |log| >= 3 && log[|log| - 3].TransportStarted? && log[|log| - 2..] == [Loop.PermitFreed, Loop.SuccessRecorded]
    && at <= log[|log| - 3].at + r.terms.policy.attemptTimeout && at <= r.deadline
  }

  lemma HeadTimers(cfg: Config, now: real, e: Reach, log: Log)
    requires cfg.Valid() && !e.takesProbe && e.request.place.Top?
    ensures var r := AdmitNext(cfg, now, e).request; TimerLaw(r, log + StepEvents(now, e.request.place, r.place, false))
  {
    hide Local, Circuit.Apply, Circuit.Decide, Terms.MaxAttempts;
  }

  lemma SlotTimers(cfg: Config, now: real, e: Reach, log: Log)
    requires cfg.Valid() && !e.takesProbe && (e.request.place.AwaitingSlot? || e.request.place.Pacing?)
    ensures var r := GrantNext(cfg, now, e).request; TimerLaw(r, log + StepEvents(now, e.request.place, r.place, false))
  {
    hide Local, Circuit.Apply, RateLimiter.Grant;
  }

  lemma ReplyTimers(cfg: Config, now: real, reply: Reply, delay: real, contended: bool, e: Reach, log: Log)
    requires cfg.Valid() && !e.takesProbe && e.request.place.InFlight? && now <= e.request.place.until
    requires TimerLaw(e.request, log)
    ensures var r := RespondsNext(cfg, now, e, reply, delay, contended).request;
            TimerLaw(r, log + StepEvents(now, e.request.place, r.place, true))
  {
    hide Local, Circuit.Apply, RateLimiter.Succeed, MaySleep, Terms.WillRetry;
  }

  /** The other steps set neither of these timers and bring no response. */
  lemma OtherTimers(cfg: Config, s: System, step: Step, log: Log)
    requires cfg.Valid() && Enabled(s, step) && !step.Tick? && !step.Start?
    requires !step.Admit? && !InSlot(step) && !step.Responds?
    ensures TimerLaw(Moved(cfg, s, step).request, log)
  {
    hide Local, Drawn, MaySleep, Circuit.Apply, RateLimiter.Impose, RateLimiter.Cooldown, Terms.WillRetry, Terms.WillRetryRejection;
  }

  lemma InSlotTimers(cfg: Config, s: System, step: Step, log: Log)
    requires cfg.Valid() && Enabled(s, step) && InSlot(step)
    ensures TimerLaw(Moved(cfg, s, step).request, log + Deed(cfg, s, step))
  {
    SlotTimers(cfg, s.now, ReachOf(s, step.id), log);
    hide Local, GrantNext, Circuit.Apply, RateLimiter.Delay;
  }

  lemma MovedTimers(cfg: Config, s: System, step: Step, log: Log)
    requires cfg.Valid() && Enabled(s, step) && !step.Tick? && !step.Start? && TimerLaw(s.requests[step.id], log)
    ensures TimerLaw(Moved(cfg, s, step).request, log + Deed(cfg, s, step))
  {
    hide Local, TimerLaw, AdmitNext, RespondsNext, Drawn, Contended, StepEvents, AcquireNext, QueueTimeoutNext, EnterSlotNext;
    hide GrantNext, SlotTimeoutNext, TransportFailsNext, CoolDownNext, BackoffEndsNext;
    var e := ReachOf(s, step.id);
    if step.Admit? {
      HeadTimers(cfg, s.now, e, log);
    } else if step.Responds? {
      ReplyTimers(cfg, s.now, step.reply, Drawn(e.request, step.jitter), Contended(s, step.id), e, log);
    } else if InSlot(step) {
      InSlotTimers(cfg, s, step, log);
    } else {
      OtherTimers(cfg, s, step, log + Deed(cfg, s, step));
    }
  }

  /**
   Over every schedule: a queue timer is the sooner of `queueTimeout` after the admission and the
   deadline, a transport's the sooner of `attemptTimeout` after its start and the deadline, and a
   response came within both of the start of the last transport.
   */
  lemma {:induction false} TimersFollowPolicy(cfg: Config, steps: seq<Step>, id: Id)
    requires cfg.Valid() && id in Run(cfg, steps).requests
    ensures TimerLaw(Run(cfg, steps).requests[id], LogOf(cfg, steps, id))
  {
    hide TimerLaw, Moved, Local, Deed;
    var front, step := steps[..|steps| - 1], steps[|steps| - 1];
    var s := Run(cfg, front);
    if id in s.requests {
      TimersFollowPolicy(cfg, front, id);
      if Acts(s, step, id) {
        MovedTimers(cfg, s, step, LogOf(cfg, front, id));
      } else {
        assert LogOf(cfg, steps, id) == LogOf(cfg, front, id);
      }
    } else {
      FreshTimers(step.scope, step.terms, s.now, LogOf(cfg, steps, id));
    }
  }

  lemma FreshTimers(scope: Scope, terms: Terms, now: real, log: Log)
    ensures TimerLaw(Request(scope, terms, terms.Deadline(now), 0, 0, Top, FRESH), log)
  {
  }

  /** The deadline of every request is `totalTimeout` after the step that started it, for good. */
  lemma {:induction false} DeadlineSinceStart(cfg: Config, steps: seq<Step>, id: Id) returns (k: nat)
    requires cfg.Valid() && id in Run(cfg, steps).requests
    ensures k < |steps| && steps[k].Start? && steps[k].id == id && steps[k].terms == Run(cfg, steps).requests[id].terms
    ensures Run(cfg, steps).requests[id].deadline == Run(cfg, steps[..k]).now + steps[k].terms.policy.totalTimeout
    decreases |steps|
  {
    var front, step := steps[..|steps| - 1], steps[|steps| - 1];
    var s := Run(cfg, front);
    if id in s.requests {
      k := DeadlineSinceStart(cfg, front, id);
      assert front[..k] == steps[..k];
      if Acts(s, step, id) { SameTerms(cfg, s, step); }
      hide Moved, Local;
    } else {
      k := |steps| - 1;
    }
  }

  lemma SameTerms(cfg: Config, s: System, step: Step)
    requires cfg.Valid() && Enabled(s, step) && !step.Tick? && !step.Start?
    ensures (Moved(cfg, s, step).request.terms, Moved(cfg, s, step).request.deadline) ==
            (s.requests[step.id].terms, s.requests[step.id].deadline)
  {
    hide Moved;
    assert Local(cfg, s.now, ReachOf(s, step.id), Moved(cfg, s, step));
  }

  /**
   In every schedule a caller let in by the semaphore takes a permit, unless its deadline has come: then
   it leaves at once, with permits and limiter as they were.
   */
  lemma AcquireDecides(cfg: Config, steps: seq<Step>, id: Id)
    requires cfg.Valid() && Enabled(Run(cfg, steps), Acquire(id))
    ensures var s, s' := Run(cfg, steps), Next(cfg, Run(cfg, steps), Acquire(id));
            && s'.waiters == s.waiters - 1 && s'.limiter == s.limiter
            && if s.now >= s.requests[id].deadline then
                 s'.requests[id].place == Done(DeadlineExceeded, s.now) && s'.permits == s.permits
               else s'.requests[id].place == AwaitingSlot && s'.permits == s.permits - 1
  {
    hide Run, Local, Circuit.Apply;
  }

  // ------------------------------------------------------------- retries

  /** The backoff of the `attempt`-th retry from this draw. */
  function BackoffFrom(p: Policy, jitter: Duration, attempt: nat): real {
    Min(jitter, Min(p.retryCap, RateLimiter.Escalated(p.retryBase, attempt)))
  }

  /** What a failure leads to: no try left, no time for the backoff, or the backoff. */
  predicate FailureLeads(now: real, r: Request, jitter: Duration, after: Place, replied: bool) {
    var delay := BackoffFrom(r.terms.policy, jitter, r.attempt);
    if !r.terms.mayRetry || !Laws.TriesLeft(r.terms, r.attempt) then after == Done(TransientError, now)
    else if delay >= r.deadline - now then after == Done(DeadlineExceeded, now)
    else after == if replied then Backoff(now + delay) else HoldingBackoff(now + delay)
  }

  lemma DrawnIs(r: Request, jitter: Duration)
    requires r.terms.policy.Valid()
    ensures Drawn(r, jitter) == BackoffFrom(r.terms.policy, jitter, r.attempt) >= 0.0
  {
    RateLimiter.DoubledIs(r.terms.policy.retryBase, r.attempt);
    RateLimiter.DoubledGrows(r.terms.policy.retryBase, r.attempt, r.attempt);
  }

  /** In every schedule a failure of either kind leads on exactly as the policy's numbers say. */
  lemma FailureDecides(cfg: Config, steps: seq<Step>, step: Step)
    requires cfg.Valid() && Fails(step) && Enabled(Run(cfg, steps), step)
    ensures var s := Run(cfg, steps);
            FailureLeads(s.now, s.requests[step.id], step.jitter, Next(cfg, s, step).requests[step.id].place, step.Responds?)
  {
    hide Run, Sound, TimerOk;
    EveryRunIsSound(cfg, steps);
    var s := Run(cfg, steps);
    PolicyValid(cfg, s, step.id);
    DrawnIs(s.requests[step.id], step.jitter);
    MovedFailureLeads(cfg, s, step);
    hide Moved, Local, FailureLeads;
  }

  lemma PolicyValid(cfg: Config, s: System, id: Id)
    requires Sound(cfg, s) && id in s.requests
    ensures s.requests[id].terms.policy.Valid()
  {
    assert TimerOk(s.requests[id]);
  }

  lemma MovedFailureLeads(cfg: Config, s: System, step: Step)
    requires cfg.Valid() && Fails(step) && Enabled(s, step)
    requires Drawn(s.requests[step.id], step.jitter) ==
             BackoffFrom(s.requests[step.id].terms.policy, step.jitter, s.requests[step.id].attempt) >= 0.0
    ensures FailureLeads(s.now, s.requests[step.id], step.jitter, Moved(cfg, s, step).request.place, step.Responds?)
  {
    hide Local, Contended, Drawn, BackoffFrom, Circuit.Apply;
  }

  /** In every schedule a cooled rejection is retried exactly while rejections and tries are left. */
  lemma RejectionDecides(cfg: Config, steps: seq<Step>, id: Id)
    requires cfg.Valid() && Enabled(Run(cfg, steps), CoolDown(id))
    ensures var s := Run(cfg, steps);
            var r, r' := s.requests[id], Next(cfg, s, CoolDown(id)).requests[id];
            if r.terms.mayRetry && r.rejections <= r.terms.rateLimitRetries && Laws.TriesLeft(r.terms, r.attempt) then
              r'.place.Top? && r'.attempt == r.attempt + 1
            else r'.place == Done(RateLimitError, s.now)
  {
    hide Run, Local, RateLimiter.Impose, RateLimiter.Cooldown;
  }

  // ---------------------------------------------------------- the limiter

  /** The `k`-th step grants a slot. */
  predicate Grants(cfg: Config, steps: seq<Step>, k: nat)
    requires cfg.Valid() && k < |steps|
  {
    Before(cfg, steps, k + 1).history == Before(cfg, steps, k).history + [Granted(Before(cfg, steps, k).now)]
  }

  /** The cooldown of the `k`-th step: what the upstream asked for, else the base doubled once per earlier rejection. */
  lemma CooldownIs(cfg: Config, steps: seq<Step>, k: nat)
    requires cfg.Valid() && k < |steps| && Imposes(cfg, steps, k)
    ensures var asked := RetryAfterAt(cfg, steps, k);
            CooldownAt(cfg, steps, k) ==
              Min(cfg.limiter.maximum,
                  if asked.Some? && asked.value != 0.0 then asked.value
                  else RateLimiter.Escalated(cfg.limiter.base, Before(cfg, steps, k).limiter.rejections))
  {
    hide Run, RateLimiter.Cooldown, RateLimiter.Escalated;
    RateLimiter.CooldownIs(cfg.limiter, Before(cfg, steps, k).limiter, RetryAfterAt(cfg, steps, k));
  }

  /** The cooldowns imposed so far since the upstream last answered something other than a rejection. */
  function Streak(cfg: Config, steps: seq<Step>, k: nat): nat
    requires cfg.Valid() && k <= |steps|
  {
    if k == 0 || Relieves(cfg, steps, k - 1) then 0
    else Streak(cfg, steps, k - 1) + if Imposes(cfg, steps, k - 1) then 1 else 0
  }

  lemma Relieved(cfg: Config, steps: seq<Step>, k: nat)
    requires cfg.Valid() && k < |steps| && Relieves(cfg, steps, k)
    ensures Before(cfg, steps, k + 1).limiter.rejections == 0
  {
    StepTaken(cfg, steps, k);
    MovedRelieves(cfg, Before(cfg, steps, k), steps[k]);
    hide Run, Moved, Local;
  }

  lemma MovedRelieves(cfg: Config, s: System, step: Step)
    requires cfg.Valid() && Enabled(s, step) && step.Responds? && !step.reply.RateLimited?
    ensures Moved(cfg, s, step).limiter.rejections == 0
  {
    hide Local, Contended, Drawn, MaySleep, Circuit.Apply, Terms.WillRetry;
  }

  /** Over every schedule the limiter counts exactly that streak, so it decides every cooldown without Retry-After. */
  lemma {:induction false} StreakIsHistory(cfg: Config, steps: seq<Step>, k: nat)
    requires cfg.Valid() && k <= |steps|
    ensures Before(cfg, steps, k).limiter.rejections == Streak(cfg, steps, k)
    ensures k < |steps| && Imposes(cfg, steps, k) && RateLimiter.Unprompted(RetryAfterAt(cfg, steps, k)) ==>
              CooldownAt(cfg, steps, k) == Min(cfg.limiter.maximum, RateLimiter.Escalated(cfg.limiter.base, Streak(cfg, steps, k)))
  {
    if k == 0 {
      assert steps[..0] == [];
    } else {
      StreakIsHistory(cfg, steps, k - 1);
      if Relieves(cfg, steps, k - 1) { Relieved(cfg, steps, k - 1); } else { StepRejections(cfg, steps, k - 1); }
    }
    if k < |steps| && Imposes(cfg, steps, k) { CooldownIs(cfg, steps, k); }
    hide Before, Imposes, Relieves, RetryAfterAt, CooldownAt, RateLimiter.Escalated;
  }

  lemma {:induction false} BlockHolds(cfg: Config, steps: seq<Step>, i: nat, j: nat)
    requires cfg.Valid() && i <= j <= |steps|
    ensures Before(cfg, steps, i).limiter.blockedUntil <= Before(cfg, steps, j).limiter.blockedUntil
    decreases j
  {
    hide Run, Next;
    if i < j {
      BlockHolds(cfg, steps, i, j - 1);
      StepTaken(cfg, steps, j - 1);
      OnlyAnswersClose(cfg, steps[..j - 1], steps[j - 1], "");
    }
  }

  lemma GrantIsDue(cfg: Config, steps: seq<Step>, k: nat)
    requires cfg.Valid() && k < |steps| && Grants(cfg, steps, k)
    ensures Before(cfg, steps, k).now >= Before(cfg, steps, k).limiter.blockedUntil
  {
    hide Run, Moved, Local;
    var s, step := Before(cfg, steps, k), steps[k];
    StepTaken(cfg, steps, k);
    EveryRunIsSound(cfg, steps[..k]);
    hide Sound;
    if Enabled(s, step) && !step.Tick? && !step.Start? {
      LockIsOk(cfg, s);
      MovedLimiter(cfg, s, step);
      assert Moved(cfg, s, step).marks == Before(cfg, steps, k + 1).history[|s.history|..];
    }
  }

  lemma LockIsOk(cfg: Config, s: System)
    requires Sound(cfg, s)
    ensures LockOk(s)
  {
  }

  /**
   Over every schedule, whoever was rejected and whoever asks: no slot is granted before the end of
   a cooldown imposed earlier, counted from the step that imposed it.
   */
  lemma NoSlotInCooldown(cfg: Config, steps: seq<Step>, i: nat, j: nat)
    requires cfg.Valid() && i < j < |steps| && Imposes(cfg, steps, i) && Grants(cfg, steps, j)
    ensures var asked := RetryAfterAt(cfg, steps, i);
            && (asked.Some? && asked.value != 0.0 ==>
                  Before(cfg, steps, j).now >= Before(cfg, steps, i).now + Min(cfg.limiter.maximum, asked.value))
            && (RateLimiter.Unprompted(asked) ==>
                  Before(cfg, steps, j).now >=
                    Before(cfg, steps, i).now
                    + Min(cfg.limiter.maximum, RateLimiter.Escalated(cfg.limiter.base, Before(cfg, steps, i).limiter.rejections)))
  {
    CooldownIs(cfg, steps, i);
    CooldownImposed(cfg, steps, i);
    BlockHolds(cfg, steps, i + 1, j);
    GrantIsDue(cfg, steps, j);
    hide Before, Imposes, Grants, CooldownAt, RetryAfterAt;
  }

  /** The earliest next slot by the last grant, and the end of the longest cooldown, of a history. */
  function NextSlot(cfg: Config, history: seq<Mark>): real {
    if history == [] then 0.0
    else
      match history[|history| - 1]
      case Granted(at) => at + cfg.limiter.interval
      case Cooled(_) => NextSlot(cfg, history[..|history| - 1])
  }

  function BlockEnd(history: seq<Mark>): real {
    if history == [] then 0.0
    else
      var before := BlockEnd(history[..|history| - 1]);
      match history[|history| - 1]
      case Granted(_) => before
      case Cooled(until) => Max(before, until)
  }

  /** Over every schedule the limiter holds nothing but its history: no wait is longer than that asks. */
  lemma {:induction false} LimiterIsHistory(cfg: Config, steps: seq<Step>)
    requires cfg.Valid()
    ensures var s := Run(cfg, steps);
            s.limiter.nextAllowedAt == NextSlot(cfg, s.history) && s.limiter.blockedUntil == BlockEnd(s.history)
  {
    if steps != [] {
      var front, step := steps[..|steps| - 1], steps[|steps| - 1];
      LimiterIsHistory(cfg, front);
      EveryRunIsSound(cfg, front);
      hide Run, Moved, Local, Sound;
      var s := Run(cfg, front);
      if Enabled(s, step) && !step.Tick? && !step.Start? {
        LockIsOk(cfg, s);
        MovedLimiter(cfg, s, step);
        HistoryMore(cfg, s.history, Moved(cfg, s, step).marks);
      }
    }
  }

  lemma HistoryMore(cfg: Config, history: seq<Mark>, marks: seq<Mark>)
    requires |marks| <= 1
    ensures marks == [] ==> history + marks == history
    ensures |marks| == 1 ==>
              && NextSlot(cfg, history + marks) ==
                   (if marks[0].Granted? then marks[0].at + cfg.limiter.interval else NextSlot(cfg, history))
              && BlockEnd(history + marks) ==
                   (if marks[0].Granted? then BlockEnd(history) else Max(BlockEnd(history), marks[0].until))
  {
    if |marks| == 1 { assert (history + marks)[..|history|] == history; }
  }

  /**
   Over every schedule a caller that gets the lock is granted its slot at once exactly when both
   bounds have passed, and else sleeps, holding the lock, until exactly the later of them.
   */
  lemma WaitsForHistory(cfg: Config, steps: seq<Step>, id: Id)
    requires cfg.Valid() && Enabled(Run(cfg, steps), EnterSlot(id))
    ensures var s, s' := Run(cfg, steps), Next(cfg, Run(cfg, steps), EnterSlot(id));
            var due := Max(NextSlot(cfg, s.history), BlockEnd(s.history));
            if s.now >= due then s'.history == s.history + [Granted(s.now)] && s'.lockedBy.None?
            else s'.requests[id].place == Pacing(due) && s'.lockedBy == Some(id) && s'.history == s.history
  {
    hide Run, Local, NextSlot, BlockEnd, Circuit.Apply, Terms.AttemptTimeout;
    LimiterIsHistory(cfg, steps);
  }
}
