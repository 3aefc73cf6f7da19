/**
 Rejection streaks under every schedule of `Protocol`: whoever is rejected, and whatever else the
 callers do in between, the cooldowns imposed without Retry-After only grow until the upstream
 answers something other than a rejection.
 */
module ProtocolCooldowns {
  import opened Numbers
  import opened Protocol
  import opened RequestPolicy
  import opened Wrappers
  import Circuit
  import RateLimiter

  /** The state before the `k`-th step. */
  function Before(cfg: Config, steps: seq<Step>, k: nat): System
    requires cfg.Valid() && k <= |steps|
  {
    Run(cfg, steps[..k])
  }

  lemma StepTaken(cfg: Config, steps: seq<Step>, k: nat)
    requires cfg.Valid() && k < |steps|
    ensures Before(cfg, steps, k + 1) == Next(cfg, Before(cfg, steps, k), steps[k])
  {
    hide Next;
    assert steps[..k + 1][..k] == steps[..k];
  }

  /** The `k`-th step imposes a cooldown. */
  predicate Imposes(cfg: Config, steps: seq<Step>, k: nat)
    requires cfg.Valid() && k < |steps|
  {
    steps[k].CoolDown? && Enabled(Before(cfg, steps, k), steps[k])
  }

  function RetryAfterAt(cfg: Config, steps: seq<Step>, k: nat): Option<real>
    requires cfg.Valid() && k < |steps| && Imposes(cfg, steps, k)
  {
    Before(cfg, steps, k).requests[steps[k].id].place.retryAfter
  }

  function CooldownAt(cfg: Config, steps: seq<Step>, k: nat): real
    requires cfg.Valid() && k < |steps| && Imposes(cfg, steps, k)
  {
    RateLimiter.Cooldown(cfg.limiter, Before(cfg, steps, k).limiter, RetryAfterAt(cfg, steps, k))
  }

  /** The upstream answered something other than a rejection, which ends the streak. */
  predicate Relieves(cfg: Config, steps: seq<Step>, k: nat)
    requires cfg.Valid() && k < |steps|
  {
    steps[k].Responds? && !steps[k].reply.RateLimited? && Enabled(Before(cfg, steps, k), steps[k])
  }

  lemma MovedRejections(cfg: Config, s: System, step: Step)
    requires cfg.Valid() && Enabled(s, step) && !step.Tick? && !step.Start?
    requires step.Responds? ==> step.reply.RateLimited?
    ensures Moved(cfg, s, step).limiter.rejections == s.limiter.rejections + if step.CoolDown? then 1 else 0
  {
    hide Local, Contended, Drawn, MaySleep, Circuit.Apply, Circuit.Decide, RateLimiter.Cooldown, Max;
    hide Terms.WillRetry, Terms.WillRetryRejection, Terms.MaxAttempts, Terms.QueueTimeout, Terms.AttemptTimeout;
  }

  lemma StepRejections(cfg: Config, steps: seq<Step>, k: nat)
    requires cfg.Valid() && k < |steps| && !Relieves(cfg, steps, k)
    ensures Before(cfg, steps, k + 1).limiter.rejections ==
            Before(cfg, steps, k).limiter.rejections + if Imposes(cfg, steps, k) then 1 else 0
  {
    StepTaken(cfg, steps, k);
    var s, step := Before(cfg, steps, k), steps[k];
    hide Run, Moved, Local;
    if Enabled(s, step) && !step.Tick? && !step.Start? { MovedRejections(cfg, s, step); }
  }

  /** How many cooldowns the steps from `i` up to `j` impose. */
  function CooldownsIn(cfg: Config, steps: seq<Step>, i: nat, j: nat): nat
    requires cfg.Valid() && i <= j <= |steps|
    decreases j
  {
    if i == j then 0 else CooldownsIn(cfg, steps, i, j - 1) + if Imposes(cfg, steps, j - 1) then 1 else 0
  }

  lemma {:induction false} StreakCounts(cfg: Config, steps: seq<Step>, i: nat, j: nat)
    requires cfg.Valid() && i <= j <= |steps| && forall k :: i <= k < j ==> !Relieves(cfg, steps, k)
    ensures Before(cfg, steps, j).limiter.rejections ==
            Before(cfg, steps, i).limiter.rejections + CooldownsIn(cfg, steps, i, j)
    decreases j
  {
    hide Before, Imposes, Relieves;
    if i < j {
      StreakCounts(cfg, steps, i, j - 1);
      StepRejections(cfg, steps, j - 1);
    }
  }

  /**
   Under every schedule, take two cooldowns imposed without Retry-After with no reply other than a
   rejection between them, whichever callers they hit and whatever grants and prompted cooldowns
   lie between: the later is at least as long, neither passes the maximum, and the later is the
   adaptive delay of its place in the streak.
   */
  lemma CooldownsNeverEase(cfg: Config, steps: seq<Step>, i: nat, j: nat)
    requires cfg.Valid() && i <= j < |steps| && Imposes(cfg, steps, i) && Imposes(cfg, steps, j)
    requires RateLimiter.Unprompted(RetryAfterAt(cfg, steps, i)) && RateLimiter.Unprompted(RetryAfterAt(cfg, steps, j))
    requires forall k :: i <= k < j ==> !Relieves(cfg, steps, k)
    ensures 0.0 < CooldownAt(cfg, steps, i) <= CooldownAt(cfg, steps, j) <= cfg.limiter.maximum
    ensures CooldownAt(cfg, steps, j) ==
            RateLimiter.Adaptive(cfg.limiter, Before(cfg, steps, i).limiter.rejections + CooldownsIn(cfg, steps, i, j) + 1)
  {
    hide Before, Imposes, Relieves, RateLimiter.Adaptive;
    StreakCounts(cfg, steps, i, j);
    RateLimiter.AdaptiveGrows(cfg.limiter, Before(cfg, steps, i).limiter.rejections + 1,
                              Before(cfg, steps, j).limiter.rejections + 1);
    AdaptiveCapped(cfg.limiter, Before(cfg, steps, i).limiter, RetryAfterAt(cfg, steps, i));
    AdaptiveCapped(cfg.limiter, Before(cfg, steps, j).limiter, RetryAfterAt(cfg, steps, j));
  }

  lemma AdaptiveCapped(cfg: RateLimiter.Config, l: RateLimiter.Limiter, retryAfter: Option<real>)
    requires RateLimiter.Unprompted(retryAfter)
    ensures RateLimiter.Cooldown(cfg, l, retryAfter) == RateLimiter.Adaptive(cfg, l.rejections + 1)
  {
  }

  lemma MovedCoolDown(cfg: Config, s: System, id: Id)
    requires cfg.Valid() && Enabled(s, CoolDown(id))
    ensures var e, place := Moved(cfg, s, CoolDown(id)), s.requests[id].place;
            var until := s.now + RateLimiter.Cooldown(cfg.limiter, s.limiter, place.retryAfter);
            e.marks == [Cooled(until)] && e.limiter.blockedUntil == Max(s.limiter.blockedUntil, until)
  {
    hide Local, Contended, Drawn, MaySleep, RateLimiter.Cooldown, Max, Terms.WillRetryRejection;
    hide AdmitNext, AcquireNext, QueueTimeoutNext, EnterSlotNext, GrantNext, SlotTimeoutNext, TransportFailsNext;
    hide RespondsNext, BackoffEndsNext;
  }

  /** That cooldown is what the step does to the shared block, and what the limiter's history keeps. */
  lemma CooldownImposed(cfg: Config, steps: seq<Step>, k: nat)
    requires cfg.Valid() && k < |steps| && Imposes(cfg, steps, k)
    ensures var s, s' := Before(cfg, steps, k), Before(cfg, steps, k + 1);
            var until := s.now + CooldownAt(cfg, steps, k);
            s'.history == s.history + [Cooled(until)] && s'.limiter.blockedUntil == Max(s.limiter.blockedUntil, until)
  {
    hide Run, Moved, Local, RateLimiter.Cooldown, Max;
    MovedCoolDown(cfg, Before(cfg, steps, k), steps[k].id);
    StepTaken(cfg, steps, k);
  }
}
