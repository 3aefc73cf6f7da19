/**
 What `request_kis` does, said in the numbers of its policy alone: which attempts start, which
 replies count, when the request goes round again, and exactly when it returns a response.
 */
module RequestLaws {
  import opened Numbers
  import opened RequestLoop
  import opened RequestPolicy
  import opened Wrappers
  import RateLimiter

  /** The breaker admits, the queue has room and is short enough, and the slot comes before the deadline. */
  predicate Starts(p: Policy, e: Attempt, now: real, deadline: real) {
    e.circuitAdmits && !e.queueFull && e.queueWait <= p.queueTimeout && SentAt(e, now) < deadline
  }

  function SentAt(e: Attempt, now: real): real {
    now + e.queueWait + e.slotWait
  }

  /** A reply comes within the attempt's timeout and by the deadline. */
  predicate Replies(p: Policy, e: Attempt, at: real, deadline: real) {
    e.transport.Replied? && e.transport.after <= p.attemptTimeout && at + e.transport.after <= deadline
  }

  /** When the reply is there, or the error, or the sooner of the attempt's timeout and the deadline has passed. */
  function NoticedAt(p: Policy, e: Attempt, at: real, deadline: real): real {
    if Replies(p, e, at, deadline) then at + e.transport.after
    else Min(at + e.transport.after, Min(at + p.attemptTimeout, deadline)) + e.oversleep
  }

  /** The jitter drawn, at most the cap and at most the base doubled once per attempt made before. */
  function Backoff(p: Policy, e: Attempt, k: nat): real {
    Min(e.jitter, Min(p.retryCap, RateLimiter.Escalated(p.retryBase, k)))
  }

  predicate TriesLeft(terms: Terms, k: nat) {
    k + 1 < terms.policy.maxAttempts || k < terms.rateLimitRetries
  }

  function Rejections(p: Policy, e: Attempt, now: real, deadline: real): nat {
    if Replies(p, e, SentAt(e, now), deadline) && e.transport.reply.RateLimited? then 1 else 0
  }

  /** Whether a turn that began at `now` goes round, and when the next one begins. */
  function GoesOn(terms: Terms, e: Attempt, k: nat, rejections: nat, now: real, deadline: real): Option<real> {
    var p, at := terms.policy, SentAt(e, now);
    var noticed := NoticedAt(p, e, at, deadline);
    if !Starts(p, e, now, deadline) || !terms.mayRetry || !TriesLeft(terms, k) then None
    else if Replies(p, e, at, deadline) && e.transport.reply.Good? then None
    else if Replies(p, e, at, deadline) && e.transport.reply.RateLimited? then
      if rejections < terms.rateLimitRetries then Some(noticed + e.cooldownWait) else None
    else if Backoff(p, e, k) < deadline - noticed then Some(noticed + Backoff(p, e, k) + e.oversleep) else None
  }

  lemma BackoffIs(terms: Terms, e: Attempt, k: nat)
    requires terms.policy.Valid()
    ensures BackoffOf(terms, e, k) == Backoff(terms.policy, e, k) >= 0.0
  {
    RateLimiter.DoubledIs(terms.policy.retryBase, k);
    RateLimiter.DoubledGrows(terms.policy.retryBase, k, k);
  }

  lemma WaitsAre(terms: Terms, e: Attempt, now: real, deadline: real)
    requires terms.policy.Valid()
    ensures StartsAt(terms, e, now, deadline) == if Starts(terms.policy, e, now, deadline) then Some(SentAt(e, now)) else None
    ensures var at := SentAt(e, now);
            && Heard(terms, e, at, deadline) ==
                 (if Replies(terms.policy, e, at, deadline) then Some(e.transport.reply) else None)
            && HeardAt(terms, e, at, deadline) == NoticedAt(terms.policy, e, at, deadline)
  {
  }

  /** A turn goes round exactly as the policy's numbers say. */
  lemma TurnExactly(terms: Terms, e: Attempt, k: nat, rejections: nat, now: real, deadline: real)
    requires terms.policy.Valid()
    ensures var turn, next := TurnOf(terms, e, k, rejections, now, deadline), GoesOn(terms, e, k, rejections, now, deadline);
            && (turn.GoesRound? <==> next.Some?)
            && (turn.GoesRound? ==>
                  && turn.now == next.value
                  && turn.rejections == rejections + Rejections(terms.policy, e, now, deadline))
  {
    WaitsAre(terms, e, now, deadline);
    BackoffIs(terms, e, k);
    hide StartsAt, Heard, HeardAt, BackoffOf, Backoff, EventsTo, EventsAfter, Starts, Replies, NoticedAt, Refusal;
  }

  /** What a turn that does not go round leaves with. */
  function LeavesWith(terms: Terms, e: Attempt, k: nat, now: real, deadline: real): Outcome {
    var p, at := terms.policy, SentAt(e, now);
    if now >= deadline then DeadlineExceeded
    else if !e.circuitAdmits then CircuitOpen
    else if e.queueFull || e.queueWait > p.queueTimeout || now + e.queueWait > deadline then BulkheadRejected
    else if at >= deadline then DeadlineExceeded
    else if !Replies(p, e, at, deadline) || e.transport.reply.TransientStatus? then
      if terms.mayRetry && TriesLeft(terms, k) then DeadlineExceeded else TransientError
    else if e.transport.reply.Good? then Response(at + e.transport.after)
    else RateLimitError
  }

  lemma LeavesExactly(terms: Terms, e: Attempt, k: nat, rejections: nat, now: real, deadline: real)
    requires terms.policy.Valid() && GoesOn(terms, e, k, rejections, now, deadline).None?
    ensures var turn := TurnOf(terms, e, k, rejections, now, deadline);
            turn.Leaves? && turn.outcome == LeavesWith(terms, e, k, now, deadline)
  {
    WaitsAre(terms, e, now, deadline);
    TurnExactly(terms, e, k, rejections, now, deadline);
    hide Heard, HeardAt, BackoffOf, Backoff, EventsTo, EventsAfter, Replies, NoticedAt, GoesOn;
  }

  /** The next attempt is reached exactly when this one is and goes round, and then at that time. */
  lemma ReachesNext(terms: Terms, start: real, env: nat -> Attempt, k: nat)
    requires terms.policy.Valid()
    ensures var st, next := Reached(terms, start, env, k), Reached(terms, start, env, k + 1);
            var goes := if st.None? then None
                        else GoesOn(terms, env(k), k, st.value.rejections, st.value.now, start + terms.policy.totalTimeout);
            && (next.Some? <==> goes.Some?)
            && (next.Some? ==>
                  && next.value.now == goes.value
                  && next.value.rejections ==
                       st.value.rejections + Rejections(terms.policy, env(k), st.value.now, start + terms.policy.totalTimeout))
  {
    hide TurnOf, GoesOn, Rejections;
    var st := Reached(terms, start, env, k);
    if st.Some? {
      TurnExactly(terms, env(k), k, st.value.rejections, st.value.now, start + terms.policy.totalTimeout);
    }
  }

  // ------------------------------------------------ what is in the trace

  /** The calls of a reached attempt stand in the trace right after those before it. */
  lemma TurnInTrace(terms: Terms, start: real, env: nat -> Attempt, k: nat)
    requires k < terms.MaxAttempts() && Reached(terms, start, env, k).Some?
    ensures var st := Reached(terms, start, env, k).value;
            var turn := TurnOf(terms, env(k), k, st.rejections, st.now, terms.Deadline(start));
            && st.events + turn.events <= Whole(terms, start, env).events
            && (turn.Leaves? ==> Whole(terms, start, env) == Course(turn.outcome, st.events + turn.events))
  {
    var st := Reached(terms, start, env, k).value;
    OnwardReached(terms, start, env, k);
    OnwardTurns(terms, env, k, st.rejections, st.now, terms.Deadline(start), st.events);
    hide TurnOf, Reached, Onward;
  }

  /** The calls up to a started transport. */
  function Sent(e: Attempt, now: real): seq<Event> {
    [Admitted(now), PermitTaken, TransportStarted(SentAt(e, now))]
  }

  /** A turn whose transport starts and is answered well in time. */
  lemma GoodTurn(terms: Terms, e: Attempt, k: nat, rejections: nat, now: real, deadline: real)
    requires terms.policy.Valid() && Starts(terms.policy, e, now, deadline)
    requires Replies(terms.policy, e, SentAt(e, now), deadline) && e.transport.reply.Good?
    ensures TurnOf(terms, e, k, rejections, now, deadline) ==
            Leaves(Response(SentAt(e, now) + e.transport.after), Sent(e, now) + [PermitFreed, SuccessRecorded])
  {
    WaitsAre(terms, e, now, deadline);
    hide StartsAt, Heard, Starts, Replies;
  }

  /** Only such a turn leaves with a response. */
  lemma ResponseTurn(terms: Terms, e: Attempt, k: nat, rejections: nat, now: real, deadline: real)
    requires terms.policy.Valid()
    requires var turn := TurnOf(terms, e, k, rejections, now, deadline); turn.Leaves? && turn.outcome.Response?
    ensures Starts(terms.policy, e, now, deadline)
    ensures Replies(terms.policy, e, SentAt(e, now), deadline) && e.transport.reply.Good?
  {
    WaitsAre(terms, e, now, deadline);
    hide StartsAt, Heard, Starts, Replies, EventsTo, EventsAfter;
  }

  /** Attempt `k` is reached, its transport starts, and its good reply at `t` is within the attempt's timeout and the deadline. */
  predicate Succeeds(terms: Terms, start: real, env: nat -> Attempt, k: nat, t: real) {
    var st, deadline := Reached(terms, start, env, k), start + terms.policy.totalTimeout;
    && (k < terms.policy.maxAttempts || k <= terms.rateLimitRetries) && st.Some?
    && var at := SentAt(env(k), st.value.now);
       && Starts(terms.policy, env(k), st.value.now, deadline) && Replies(terms.policy, env(k), at, deadline)
       && env(k).transport.reply.Good? && t == at + env(k).transport.after
  }

  /**
   For every environment, `t` and policy: the request returns its response at `t` exactly when some
   attempt is reached, starts, and is well answered at `t`, at most `attemptTimeout` after its start
   and at most `totalTimeout` after the request's.
   */
  lemma ReturnsExactly(terms: Terms, start: real, env: nat -> Attempt, t: real)
    requires terms.policy.Valid()
    ensures Whole(terms, start, env).outcome == Response(t) <==> exists k :: Succeeds(terms, start, env, k, t)
  {
    hide Whole, Reached, TurnOf, Starts, Replies;
    var deadline := start + terms.policy.totalTimeout;
    if Whole(terms, start, env).outcome == Response(t) {
      if terms.MaxAttempts() <= 0 { NoAttempt(terms, start, env); }
      assert Reached(terms, start, env, 0).Some? by { ReachedFirst(terms, start, env); }
      var k := LeavesSomewhere(terms, start, env, 0);
      var st := Reached(terms, start, env, k).value;
      ResponseTurn(terms, env(k), k, st.rejections, st.now, deadline);
      GoodTurn(terms, env(k), k, st.rejections, st.now, deadline);
      assert Succeeds(terms, start, env, k, t);
    }
    if k :| Succeeds(terms, start, env, k, t) {
      var st := Reached(terms, start, env, k).value;
      GoodTurn(terms, env(k), k, st.rejections, st.now, deadline);
      TurnInTrace(terms, start, env, k);
    }
  }

  lemma ReachedFirst(terms: Terms, start: real, env: nat -> Attempt)
    ensures Reached(terms, start, env, 0) == Some(Standing(start, 0, []))
  {
  }

  lemma NoAttempt(terms: Terms, start: real, env: nat -> Attempt)
    requires terms.MaxAttempts() <= 0
    ensures Whole(terms, start, env).outcome == Exhausted
  {
  }

  /**
   For every environment, a response is the end of the trace's last transport, which started at
   most `attemptTimeout` earlier; nothing but the freed permit and the recorded success follows it.
   */
  lemma ResponseWithinAttempt(terms: Terms, start: real, env: nat -> Attempt)
    requires terms.policy.Valid() && Whole(terms, start, env).outcome.Response?
    ensures var es, t := Whole(terms, start, env).events, Whole(terms, start, env).outcome.at;
            && |es| >= 3 && es[|es| - 3].TransportStarted? && es[|es| - 2..] == [PermitFreed, SuccessRecorded]
            && es[|es| - 3].at <= t <= es[|es| - 3].at + terms.policy.attemptTimeout
            && t <= start + terms.policy.totalTimeout
  {
    hide Whole, Reached, TurnOf;
    var t := Whole(terms, start, env).outcome.at;
    ReturnsExactly(terms, start, env, t);
    var k :| Succeeds(terms, start, env, k, t);
    var st := Reached(terms, start, env, k).value;
    GoodTurn(terms, env(k), k, st.rejections, st.now, terms.Deadline(start));
    TurnInTrace(terms, start, env, k);
    var es := Whole(terms, start, env).events;
    assert es == st.events + Sent(env(k), st.now) + [PermitFreed, SuccessRecorded];
  }

  /**
   A reached attempt whose transport starts and brings no reply within `attemptTimeout` and the
   deadline, or an error, is recorded as a failure right after its start.
   */
  lemma SilenceIsFailure(terms: Terms, start: real, env: nat -> Attempt, k: nat)
    requires terms.policy.Valid() && k < terms.MaxAttempts() && Reached(terms, start, env, k).Some?
    requires var st, deadline := Reached(terms, start, env, k).value, start + terms.policy.totalTimeout;
             Starts(terms.policy, env(k), st.now, deadline) && !Replies(terms.policy, env(k), SentAt(env(k), st.now), deadline)
    ensures var st := Reached(terms, start, env, k).value;
            st.events + (Sent(env(k), st.now) + [FailureRecorded]) <= Whole(terms, start, env).events
  {
    var st := Reached(terms, start, env, k).value;
    hide Whole, Reached, Starts, Replies;
    TurnInTrace(terms, start, env, k);
    FailedTurn(terms, env(k), k, st.rejections, st.now, terms.Deadline(start));
    hide TurnOf;
  }

  lemma FailedTurn(terms: Terms, e: Attempt, k: nat, rejections: nat, now: real, deadline: real)
    requires terms.policy.Valid() && Starts(terms.policy, e, now, deadline)
    requires !Replies(terms.policy, e, SentAt(e, now), deadline)
    ensures Sent(e, now) + [FailureRecorded] <= TurnOf(terms, e, k, rejections, now, deadline).events
  {
    WaitsAre(terms, e, now, deadline);
    hide StartsAt, Heard, Starts, Replies, HeardAt, MayBackOff;
  }
}
