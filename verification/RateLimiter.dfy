/**
 The serialised rate limiter of one scope. `wait_for_slot` holds the scope's lock
 from the moment it reads the clock to the moment it grants the slot, sleeping in
 between; `impose_rate_limit_cooldown` takes the same lock. The two halves of the
 wait, before and after the sleep, are separate atomic steps here.
 */
module RateLimiter {
  import opened Numbers
  import opened Wrappers

  /** Interval between starts, first cooldown, and the cap on any cooldown. */
  datatype Config = Config(interval: real, base: real, maximum: real) {
    predicate Valid() {
      interval > 0.0 && base > 0.0 && maximum > 0.0
    }
  }

  datatype Limiter = Limiter(nextAllowedAt: real, blockedUntil: real, rejections: nat)

  const IDLE := Limiter(0.0, 0.0, 0)

  function AllowedAt(l: Limiter): real {
    Max(l.nextAllowedAt, l.blockedUntil)
  }

  function Delay(l: Limiter, now: real): real {
    Max(0.0, AllowedAt(l) - now)
  }

  function Grant(cfg: Config, l: Limiter, now: real): Limiter {
    l.(nextAllowedAt := now + cfg.interval)
  }

  function Doubled(base: real, times: nat): real {
    if times == 0 then base else 2.0 * Doubled(base, times - 1)
  }

  /** `rejections` counts the rejection being answered, so it is at least one. */
  function Adaptive(cfg: Config, rejections: nat): real
    requires rejections > 0
  {
    Min(cfg.maximum, Doubled(cfg.base, rejections - 1))
  }

  /** A missing or zero Retry-After falls back to the adaptive delay. */
  function Cooldown(cfg: Config, l: Limiter, retryAfter: Option<real>): real {
    Min(cfg.maximum,
        if retryAfter.Some? && retryAfter.value != 0.0 then retryAfter.value
        else Adaptive(cfg, l.rejections + 1))
  }

  function Impose(cfg: Config, l: Limiter, now: real, retryAfter: Option<real>): Limiter {
    Limiter(l.nextAllowedAt, Max(l.blockedUntil, now + Cooldown(cfg, l, retryAfter)), l.rejections + 1)
  }

  function Succeed(l: Limiter): Limiter {
    l.(rejections := 0)
  }

  lemma {:induction false} DoubledGrows(base: real, m: nat, n: nat)
    requires base > 0.0 && m <= n
    ensures 0.0 < Doubled(base, m) <= Doubled(base, n)
  {
    if n > 0 {
      if m == n { DoubledGrows(base, m - 1, n - 1); }
      else { DoubledGrows(base, m, n - 1); }
    }
  }

  /** The base delay doubled `times` times. */
  function Escalated(base: real, times: nat): real {
    base * Power2(times) as real
  }

  lemma {:induction false} DoubledIs(base: real, k: nat)
    ensures Doubled(base, k) == Escalated(base, k)
  {
    if k > 0 { DoubledIs(base, k - 1); }
  }

  /** A cooldown is what the upstream asked for, or the base doubled once per rejection before; never more than the cap. */
  lemma CooldownIs(cfg: Config, l: Limiter, retryAfter: Option<real>)
    ensures Cooldown(cfg, l, retryAfter) ==
            Min(cfg.maximum, if retryAfter.Some? && retryAfter.value != 0.0 then retryAfter.value
                             else Escalated(cfg.base, l.rejections))
  {
    DoubledIs(cfg.base, l.rejections);
    hide Doubled, Escalated;
  }

  /** Without Retry-After the adaptive delay decides. */
  predicate Unprompted(retryAfter: Option<real>) {
    retryAfter.None? || retryAfter.value == 0.0
  }

  lemma AdaptiveGrows(cfg: Config, m: nat, n: nat)
    requires cfg.Valid() && 0 < m <= n
    ensures 0.0 < Adaptive(cfg, m) <= Adaptive(cfg, n) <= cfg.maximum
  {
    DoubledGrows(cfg.base, m - 1, n - 1);
  }

  /** What reaches the limiter between two successful replies, from whichever caller. */
  datatype Use = Granted(at: real) | Rejected(at: real, retryAfter: Option<real>)

  function Used(cfg: Config, l: Limiter, uses: seq<Use>): Limiter {
    if uses == [] then l
    else
      var before := Used(cfg, l, uses[..|uses| - 1]);
      match uses[|uses| - 1]
      case Granted(at) => Grant(cfg, before, at)
      case Rejected(at, retryAfter) => Impose(cfg, before, at, retryAfter)
  }

  function Rejections(uses: seq<Use>): nat {
    if uses == [] then 0
    else Rejections(uses[..|uses| - 1]) + if uses[|uses| - 1].Rejected? then 1 else 0
  }

  lemma {:induction false} RejectionsCounted(cfg: Config, l: Limiter, uses: seq<Use>)
    ensures Used(cfg, l, uses).rejections == l.rejections + Rejections(uses)
  {
    if uses != [] { RejectionsCounted(cfg, l, uses[..|uses| - 1]); }
  }

  lemma {:induction false} RejectionsGrow(uses: seq<Use>, i: nat, j: nat)
    requires i <= j <= |uses|
    ensures Rejections(uses[..i]) <= Rejections(uses[..j])
    decreases j
  {
    if i < j {
      assert uses[..j][..j - 1] == uses[..j - 1];
      RejectionsGrow(uses, i, j - 1);
    }
  }

  /** The cooldown that the `i`-th use, a rejection, imposes. */
  function CooldownOf(cfg: Config, l: Limiter, uses: seq<Use>, i: nat): real
    requires i < |uses| && uses[i].Rejected?
  {
    Cooldown(cfg, Used(cfg, l, uses[..i]), uses[i].retryAfter)
  }

  /**
   With grants and rejections of any kind in between, the rejections without Retry-After are
   answered by cooldowns that never shrink, never pass the maximum and are always positive; each is
   the adaptive delay of its place in the streak.
   */
  lemma StreakNeverEases(cfg: Config, l: Limiter, uses: seq<Use>, i: nat, j: nat)
    requires cfg.Valid() && i <= j < |uses|
    requires uses[i].Rejected? && Unprompted(uses[i].retryAfter) && uses[j].Rejected? && Unprompted(uses[j].retryAfter)
    ensures CooldownOf(cfg, l, uses, j) == Adaptive(cfg, l.rejections + Rejections(uses[..j]) + 1)
    ensures 0.0 < CooldownOf(cfg, l, uses, i) <= CooldownOf(cfg, l, uses, j) <= cfg.maximum
  {
    RejectionsCounted(cfg, l, uses[..i]);
    RejectionsCounted(cfg, l, uses[..j]);
    RejectionsGrow(uses, i, j);
    AdaptiveGrows(cfg, l.rejections + Rejections(uses[..i]) + 1, l.rejections + Rejections(uses[..j]) + 1);
  }

  /** A cooldown only ever pushes the block later, and at least by its own length from now. */
  lemma ImposeOnlyDelays(cfg: Config, l: Limiter, now: real, retryAfter: Option<real>)
    requires cfg.Valid()
    ensures var l' := Impose(cfg, l, now, retryAfter);
            && l'.blockedUntil >= l.blockedUntil
            && l'.blockedUntil >= now + Cooldown(cfg, l, retryAfter)
            && Cooldown(cfg, l, retryAfter) <= cfg.maximum
            && Delay(l', now) >= Delay(l, now)
  {
  }

  // ------------------------------------------------------------ the object

  class RateLimitState {
    var nextAllowedAt: real
    var blockedUntil: real
    var consecutiveRejections: nat

    function View(): Limiter
      reads this
    {
      Limiter(nextAllowedAt, blockedUntil, consecutiveRejections)
    }

    constructor ()
      ensures View() == IDLE
    {
      nextAllowedAt, blockedUntil, consecutiveRejections := 0.0, 0.0, 0;
    }

    /** With the lock held, before the sleep: how long the caller must still wait. */
    method BeginWait(now: real) returns (delay: real)
      ensures delay == Delay(View(), now)
      ensures delay >= 0.0 && now + delay >= nextAllowedAt && now + delay >= blockedUntil
      ensures delay == 0.0 || now + delay == nextAllowedAt || now + delay == blockedUntil
    {
      var allowedAt := Max(nextAllowedAt, blockedUntil);
      delay := Max(0.0, allowedAt - now);
    }

    /** With the lock still held, after the sleep: take the slot. */
    method FinishWait(cfg: Config, now: real)
      modifies this`nextAllowedAt
      ensures View() == Grant(cfg, old(View()), now) && nextAllowedAt == now + cfg.interval
    {
      nextAllowedAt := now + cfg.interval;
    }

    method ImposeRateLimitCooldown(cfg: Config, now: real, retryAfter: Option<real>) returns (cooldown: real)
      modifies this
      ensures View() == Impose(cfg, old(View()), now, retryAfter)
      ensures cooldown == Cooldown(cfg, old(View()), retryAfter)
      // A positive Retry-After is obeyed up to the cap; without one the streak decides. Nothing shortens the block.
      ensures retryAfter.Some? && retryAfter.value > 0.0 ==> cooldown == Min(retryAfter.value, cfg.maximum)
      ensures Unprompted(retryAfter) ==>
                cooldown == Min(cfg.maximum, Escalated(cfg.base, old(consecutiveRejections)))
      ensures blockedUntil == Max(old(blockedUntil), now + cooldown)
      ensures consecutiveRejections == old(consecutiveRejections) + 1 && nextAllowedAt == old(nextAllowedAt)
    {
      DoubledIs(cfg.base, consecutiveRejections);
      consecutiveRejections := consecutiveRejections + 1;
      var adaptive := Min(cfg.maximum, Doubled(cfg.base, consecutiveRejections - 1));
      cooldown := Min(cfg.maximum, if retryAfter.Some? && retryAfter.value != 0.0 then retryAfter.value else adaptive);
      blockedUntil := Max(blockedUntil, now + cooldown);
    }

    method RecordRateLimitSuccess()
      modifies this
      ensures View() == Succeed(old(View())) && consecutiveRejections == 0
    {
      consecutiveRejections := 0;
    }
  }
}
