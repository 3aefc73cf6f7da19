/**
 `request_kis` as one caller sees it: the retry loop under a single deadline. What the
 rest of the world does at each await is an arbitrary function of the attempt number, so
 the theorems hold for every sequence of outcomes and delays. The trace records the
 calls the loop makes on the breaker, the bulkhead and the transport; the loop is proved
 against a function that gives its outcome and trace, and the rest is said of that function.
 */
module RequestLoop {
  import opened Numbers
  import opened RequestPolicy
  import opened Wrappers
  import RateLimiter

  datatype Transport = TransportError(after: Duration) | Replied(after: Duration, reply: Reply)

  /** How the environment meets one attempt; every wait is measured from its own await. */
  datatype Attempt = Attempt(
    circuitAdmits: bool,
    queueFull: bool,
    queueWait: Duration,
    slotWait: Duration,
    transport: Transport,
    jitter: Duration,
    oversleep: Duration,
    cooldownWait: Duration)

  datatype Event =
    | Admitted(at: real)
    | ProbeReleased
    | FailureRecorded
    | SuccessRecorded
    | PermitTaken
    | PermitFreed
    | TransportStarted(at: real)
    | RateRejected
    | BackoffUntil(at: real)

  /** What a trace amounts to: counts, permits held, an admission still unsettled, order kept. */
  datatype Ledger = Ledger(transports: nat, rejections: nat, permits: int, unsettled: bool, orderly: bool)

  /**
   Order kept: an admission only when the last one is settled and no permit is held, a permit
   and a transport start only inside an admission, a backoff only after settling, and both the
   transport start and the end of the backoff between the start and strictly before the deadline.
   */
  function Book(l: Ledger, e: Event, start: real, deadline: real): Ledger {
    match e
    case Admitted(at) => l.(unsettled := true, orderly := l.orderly && !l.unsettled && l.permits == 0)
    case ProbeReleased => l.(unsettled := false)
    case FailureRecorded => l.(unsettled := false)
    case SuccessRecorded => l.(unsettled := false)
    case PermitTaken => l.(permits := l.permits + 1, orderly := l.orderly && l.unsettled && l.permits == 0)
    case PermitFreed => l.(permits := l.permits - 1)
    case TransportStarted(at) =>
      l.(transports := l.transports + 1,
         orderly := l.orderly && l.unsettled && l.permits == 1 && start <= at < deadline)
    case RateRejected => l.(rejections := l.rejections + 1)
    case BackoffUntil(at) => l.(orderly := l.orderly && !l.unsettled && start <= at < deadline)
  }

  function Booked(l: Ledger, es: seq<Event>, start: real, deadline: real): Ledger
    decreases |es|
  {
    if es == [] then l else Booked(Book(l, es[0], start, deadline), es[1..], start, deadline)
  }

  function Books(es: seq<Event>, start: real, deadline: real): Ledger {
    Booked(Ledger(0, 0, 0, false, true), es, start, deadline)
  }

  lemma {:induction false} BookedOn(l: Ledger, before: seq<Event>, es: seq<Event>, start: real, deadline: real)
    ensures Booked(l, before + es, start, deadline) == Booked(Booked(l, before, start, deadline), es, start, deadline)
    decreases |before|
  {
    if before == [] {
      assert before + es == es;
    } else {
      assert (before + es)[1..] == before[1..] + es;
      BookedOn(Book(l, before[0], start, deadline), before[1..], es, start, deadline);
    }
  }

  lemma BookedShort(l: Ledger, es: seq<Event>, start: real, deadline: real)
    requires 1 <= |es| <= 4
    ensures Booked(l, es, start, deadline) ==
            var l1 := Book(l, es[0], start, deadline);
            var l2 := if |es| > 1 then Book(l1, es[1], start, deadline) else l1;
            var l3 := if |es| > 2 then Book(l2, es[2], start, deadline) else l2;
            if |es| > 3 then Book(l3, es[3], start, deadline) else l3
  {
    hide Book;
    var l1 := Book(l, es[0], start, deadline);
    if |es| > 1 {
      assert es[1..][1..] == es[2..];
      var l2 := Book(l1, es[1], start, deadline);
      assert Booked(l, es, start, deadline) == Booked(l2, es[2..], start, deadline);
      if |es| > 2 {
        assert es[2..][1..] == es[3..];
        var l3 := Book(l2, es[2], start, deadline);
        assert Booked(l2, es[2..], start, deadline) == Booked(l3, es[3..], start, deadline);
        if |es| > 3 {
          assert es[3..] == [es[3]];
          assert Booked(l3, es[3..], start, deadline) == Booked(Book(l3, es[3], start, deadline), [], start, deadline);
        }
      }
    }
  }

  /** Every transport start, and the end of every granted backoff, before the deadline. */
  ghost predicate InTime(es: seq<Event>, start: real, deadline: real) {
    forall i :: 0 <= i < |es| && (es[i].TransportStarted? || es[i].BackoffUntil?) ==> start <= es[i].at < deadline
  }

  predicate Settles(e: Event) {
    e.ProbeReleased? || e.FailureRecorded? || e.SuccessRecorded?
  }

  /** Between the admission at `i` and the position `j` the breaker was told the result. */
  predicate SettledIn(events: seq<Event>, i: nat, j: nat)
    requires j <= |events|
  {
    exists k :: i < k < j && Settles(events[k])
  }

  /** Every admission is settled before the next admission and, if `closed`, before the end. */
  ghost predicate AllSettledBefore(es: seq<Event>, closed: bool) {
    && (forall i, j :: 0 <= i < j < |es| && es[i].Admitted? && es[j].Admitted? ==> SettledIn(es, i, j))
    && (closed ==> forall i :: 0 <= i < |es| && es[i].Admitted? ==> SettledIn(es, i, |es|))
  }

  /** Reading an orderly ledger back: what it says about any two events of the trace. */
  lemma {:induction false} OrderlyMeans(es: seq<Event>, start: real, deadline: real)
    requires Books(es, start, deadline).orderly
    ensures InTime(es, start, deadline)
    ensures AllSettledBefore(es, false)
    ensures !Books(es, start, deadline).unsettled ==> AllSettledBefore(es, true)
  {
    if es != [] {
      var n := |es| - 1;
      var prior, last := es[..n], es[n];
      assert es == prior + [last];
      BookedOn(Ledger(0, 0, 0, false, true), prior, [last], start, deadline);
      OrderlyMeans(prior, start, deadline);
      forall i, j | 0 <= i < j < |es| && es[i].Admitted? && es[j].Admitted? ensures SettledIn(es, i, j) {
        assert prior[i].Admitted?;
        if j < n { assert prior[j].Admitted?; }
        assert SettledIn(prior, i, j);
        SettledEarlier(prior, last, i, j);
      }
      if !Books(es, start, deadline).unsettled {
        forall i | 0 <= i < |es| && es[i].Admitted? ensures SettledIn(es, i, |es|) {
          assert i < n && prior[i].Admitted?;
          if Settles(last) {
            assert Settles(es[n]);
          } else {
            assert SettledIn(prior, i, n);
            SettledEarlier(prior, last, i, n);
          }
        }
      }
    }
  }

  lemma SettledEarlier(before: seq<Event>, e: Event, i: nat, j: nat)
    requires i < j <= |before|
    ensures SettledIn(before, i, j) ==> SettledIn(before + [e], i, j)
    ensures SettledIn(before + [e], i, j) ==> SettledIn(before + [e], i, |before| + 1)
  {
    if SettledIn(before, i, j) {
      var k :| i < k < j && Settles(before[k]);
      assert Settles((before + [e])[k]);
    }
  }

  // -------------------------------------------------- one attempt, declared

  /** When the attempt's transport starts, if it does: let in by breaker and queue, and paced before the deadline. */
  function StartsAt(terms: Terms, e: Attempt, now: real, deadline: real): Option<real> {
    var at := now + e.queueWait + e.slotWait;
    if e.circuitAdmits && !e.queueFull && e.queueWait <= terms.QueueTimeout(deadline - now) && at < deadline then Some(at)
    else None
  }

  /** What an attempt whose transport does not start leaves the request with. */
  function Refusal(terms: Terms, e: Attempt, now: real, deadline: real): (outcome: Outcome)
    ensures outcome.DeadlineExceeded? || outcome.CircuitOpen? || outcome.BulkheadRejected?
  {
    if now < deadline && !e.circuitAdmits then CircuitOpen
    else if now < deadline && (e.queueFull || e.queueWait > terms.QueueTimeout(deadline - now)) then BulkheadRejected
    else DeadlineExceeded
  }

  function EventsTo(terms: Terms, e: Attempt, now: real, deadline: real): seq<Event> {
    if now >= deadline || !e.circuitAdmits then []
    else
      [Admitted(now)] +
      match StartsAt(terms, e, now, deadline)
      case Some(at) => [PermitTaken, TransportStarted(at)]
      case None => if Refusal(terms, e, now, deadline).BulkheadRejected? then [ProbeReleased]
                   else [PermitTaken, PermitFreed, ProbeReleased]
  }

  /** The reply, if one came within the attempt's timeout. */
  function Heard(terms: Terms, e: Attempt, at: real, deadline: real): Option<Reply> {
    if e.transport.Replied? && e.transport.after <= terms.AttemptTimeout(deadline - at) then Some(e.transport.reply) else None
  }

  /** When the request learns of it, or of the failure. */
  function HeardAt(terms: Terms, e: Attempt, at: real, deadline: real): real {
    if Heard(terms, e, at, deadline).Some? then at + e.transport.after
    else at + Min(e.transport.after, terms.AttemptTimeout(deadline - at)) + e.oversleep
  }

  predicate IsRejected(terms: Terms, e: Attempt, at: real, deadline: real) {
    var reply := Heard(terms, e, at, deadline);
    reply.Some? && reply.value.RateLimited?
  }

  function BackoffOf(terms: Terms, e: Attempt, attempt: nat): real {
    Min(e.jitter, terms.BackoffCap(attempt))
  }

  predicate MayBackOff(terms: Terms, e: Attempt, attempt: nat, at: real, deadline: real) {
    terms.WillRetry(attempt) && MaySleep(BackoffOf(terms, e, attempt), HeardAt(terms, e, at, deadline), deadline)
  }

  /** What the request leaves with once the transport is over; `None` sends it round again. */
  function Exit(terms: Terms, e: Attempt, attempt: nat, rejections: nat, at: real, deadline: real): Option<Outcome> {
    match Heard(terms, e, at, deadline)
    case Some(Good) => Some(Response(HeardAt(terms, e, at, deadline)))
    case Some(RateLimited(_)) => if terms.WillRetryRejection(attempt, rejections + 1) then None else Some(RateLimitError)
    case _ =>
      if MayBackOff(terms, e, attempt, at, deadline) then None
      else Some(if terms.WillRetry(attempt) then DeadlineExceeded else TransientError)
  }

  function ResumesAt(terms: Terms, e: Attempt, attempt: nat, at: real, deadline: real): real {
    HeardAt(terms, e, at, deadline)
    + if IsRejected(terms, e, at, deadline) then e.cooldownWait else BackoffOf(terms, e, attempt) + e.oversleep
  }

  function EventsAfter(terms: Terms, e: Attempt, attempt: nat, at: real, deadline: real): seq<Event> {
    var slept := if MayBackOff(terms, e, attempt, at, deadline)
                 then [BackoffUntil(HeardAt(terms, e, at, deadline) + BackoffOf(terms, e, attempt))] else [];
    match Heard(terms, e, at, deadline)
    case Some(Good) => [PermitFreed, SuccessRecorded]
    case Some(RateLimited(_)) => [PermitFreed, SuccessRecorded, RateRejected]
    case Some(TransientStatus) => [PermitFreed, FailureRecorded] + slept
    case None =>
      [FailureRecorded] + slept + [PermitFreed]
      + if terms.WillRetry(attempt) && slept == [] then [ProbeReleased] else []
  }

  /** One turn of the loop: the request leaves, or goes round with these. */
  datatype Turn = Leaves(outcome: Outcome, events: seq<Event>) | GoesRound(now: real, rejections: nat, events: seq<Event>)

  function TurnOf(terms: Terms, e: Attempt, attempt: nat, rejections: nat, now: real, deadline: real): Turn {
    var to := EventsTo(terms, e, now, deadline);
    match StartsAt(terms, e, now, deadline)
    case None => Leaves(Refusal(terms, e, now, deadline), to)
    case Some(at) =>
      var events := to + EventsAfter(terms, e, attempt, at, deadline);
      match Exit(terms, e, attempt, rejections, at, deadline)
      case Some(outcome) => Leaves(outcome, events)
      case None =>
        GoesRound(ResumesAt(terms, e, attempt, at, deadline),
                  rejections + if IsRejected(terms, e, at, deadline) then 1 else 0, events)
  }

  /** The whole request from its `attempt` on: what it leaves with, and the calls it makes. */
  datatype Course = Course(outcome: Outcome, events: seq<Event>) {
    function After(prior: seq<Event>): Course {
      Course(outcome, prior + events)
    }
  }

  function Onward(terms: Terms, env: nat -> Attempt, attempt: nat, rejections: nat, now: real, deadline: real): Course
    decreases terms.MaxAttempts() - attempt
  {
    if attempt >= terms.MaxAttempts() then Course(Exhausted, [])
    else
      match TurnOf(terms, env(attempt), attempt, rejections, now, deadline)
      case Leaves(outcome, events) => Course(outcome, events)
      case GoesRound(later, rejected, events) => Onward(terms, env, attempt + 1, rejected, later, deadline).After(events)
  }

  function Whole(terms: Terms, start: real, env: nat -> Attempt): Course {
    Onward(terms, env, 0, 0, start, terms.Deadline(start))
  }


  /** What happened before a turn, then the turn, then the rest. */
  lemma OnwardTurns(terms: Terms, env: nat -> Attempt, attempt: nat, rejections: nat, now: real, deadline: real, prior: seq<Event>)
    ensures var here := Onward(terms, env, attempt, rejections, now, deadline).After(prior);
            if attempt >= terms.MaxAttempts() then here == Course(Exhausted, prior)
            else match TurnOf(terms, env(attempt), attempt, rejections, now, deadline)
                 case Leaves(outcome, events) => here == Course(outcome, prior + events)
                 case GoesRound(later, rejected, events) =>
                   here == Onward(terms, env, attempt + 1, rejected, later, deadline).After(prior + events)
  {
    hide TurnOf;
  }

  // --------------------------------------------------- the rules it keeps

  /**
   What a request may do and must leave behind: every admission settled and every permit freed
   before the next attempt and the exit, the budgets, the deadline, and a reason for giving up.
   */
  ghost predicate KeepsRules(terms: Terms, start: real, outcome: Outcome, es: seq<Event>) {
    var l := Books(es, start, terms.Deadline(start));
    && l.orderly && !l.unsettled && l.permits == 0
    && l.transports <= AtLeastZero(terms.MaxAttempts()) && (!terms.mayRetry ==> l.transports <= 1)
    && l.rejections <= AtLeastZero(terms.rateLimitRetries) + 1
    && (outcome.Response? ==> l.transports >= 1 && start <= outcome.at <= terms.Deadline(start))
    && (outcome.Exhausted? <==> terms.MaxAttempts() <= 0)
    && (outcome.TransientError? ==> l.transports >= 1 && (!terms.mayRetry || l.transports == terms.MaxAttempts()))
    && (outcome.RateLimitError? ==>
          l.rejections >= 1
          && (!terms.mayRetry || l.rejections > terms.rateLimitRetries || l.transports == terms.MaxAttempts()))
  }

  /** The way to the transport gives everything back, or starts it in time with admission and permit held. */
  lemma ApproachBooked(terms: Terms, e: Attempt, now: real, start: real, deadline: real, prior: seq<Event>)
    requires start <= now && Books(prior, start, deadline).orderly
    requires !Books(prior, start, deadline).unsettled && Books(prior, start, deadline).permits == 0
    ensures var l, l' := Books(prior, start, deadline), Books(prior + EventsTo(terms, e, now, deadline), start, deadline);
            match StartsAt(terms, e, now, deadline)
            case None => l' == l
            case Some(at) => start <= at < deadline && l' == l.(transports := l.transports + 1, unsettled := true, permits := 1)
  {
    hide Terms.QueueTimeout, Booked;
    var to := EventsTo(terms, e, now, deadline);
    BookedOn(Ledger(0, 0, 0, false, true), prior, to, start, deadline);
    if to == [] {
      assert prior + to == prior;
    } else {
      BookedShort(Books(prior, start, deadline), to, start, deadline);
    }
  }

  lemma HeardLater(terms: Terms, e: Attempt, attempt: nat, at: real, deadline: real)
    requires terms.policy.Valid() && at < deadline
    ensures at <= HeardAt(terms, e, at, deadline) && BackoffOf(terms, e, attempt) >= 0.0
    ensures Heard(terms, e, at, deadline).Some? ==> HeardAt(terms, e, at, deadline) <= deadline
  {
    RateLimiter.DoubledGrows(terms.policy.retryBase, attempt, attempt);
  }

  /** From the transport on the breaker is told, the permit is back, and a backoff ends inside the deadline. */
  lemma AwaitBooked(terms: Terms, e: Attempt, attempt: nat, at: real, start: real, deadline: real, prior: seq<Event>)
    requires terms.policy.Valid() && start <= at < deadline && Books(prior, start, deadline).orderly
    requires Books(prior, start, deadline).unsettled && Books(prior, start, deadline).permits == 1
    ensures var l := Books(prior, start, deadline);
            var rejected := if IsRejected(terms, e, at, deadline) then 1 else 0;
            Books(prior + EventsAfter(terms, e, attempt, at, deadline), start, deadline) ==
              l.(unsettled := false, permits := 0, rejections := l.rejections + rejected)
    ensures start <= ResumesAt(terms, e, attempt, at, deadline)
  {
    HeardLater(terms, e, attempt, at, deadline);
    hide Booked, Terms.AttemptTimeout, BackoffOf, HeardAt, Terms.WillRetry;
    var es := EventsAfter(terms, e, attempt, at, deadline);
    BookedOn(Ledger(0, 0, 0, false, true), prior, es, start, deadline);
    BookedShort(Books(prior, start, deadline), es, start, deadline);
  }

  /** Each exit names its reason, and a retry has the budget it needs. */
  lemma ExitMeans(terms: Terms, e: Attempt, attempt: nat, rejections: nat, at: real, deadline: real)
    ensures var rejected := IsRejected(terms, e, at, deadline);
            match Exit(terms, e, attempt, rejections, at, deadline)
            case None => if rejected then terms.WillRetryRejection(attempt, rejections + 1) else terms.WillRetry(attempt)
            case Some(Response(_)) => !rejected
            case Some(TransientError) => !rejected && !terms.WillRetry(attempt)
            case Some(RateLimitError) => rejected && !terms.WillRetryRejection(attempt, rejections + 1)
            case Some(other) => !rejected && other.DeadlineExceeded?
  {
  }

  lemma ResponseInTime(terms: Terms, e: Attempt, attempt: nat, rejections: nat, at: real, deadline: real)
    requires terms.policy.Valid() && at < deadline
    ensures var exit := Exit(terms, e, attempt, rejections, at, deadline);
            exit.Some? && exit.value.Response? ==> at <= exit.value.at <= deadline
  {
    HeardLater(terms, e, attempt, at, deadline);
  }

  /** One turn from a settled state with the budgets kept ends within the rules or leaves the next such state. */
  lemma TurnBooked(terms: Terms, e: Attempt, attempt: nat, rejections: nat, now: real, start: real, prior: seq<Event>)
    requires terms.policy.Valid() && start <= now && attempt < terms.MaxAttempts()
    requires attempt > 0 ==> terms.mayRetry
    requires rejections <= AtLeastZero(terms.rateLimitRetries)
    requires Books(prior, start, terms.Deadline(start)) == Ledger(attempt, rejections, 0, false, true)
    ensures match TurnOf(terms, e, attempt, rejections, now, terms.Deadline(start))
            case Leaves(outcome, events) => KeepsRules(terms, start, outcome, prior + events)
            case GoesRound(later, rejected, events) =>
              && start <= later && terms.mayRetry && attempt + 1 < terms.MaxAttempts()
              && rejected <= AtLeastZero(terms.rateLimitRetries)
              && Books(prior + events, start, terms.Deadline(start)) == Ledger(attempt + 1, rejected, 0, false, true)
  {
    var deadline := terms.Deadline(start);
    hide Books, StartsAt, Refusal, EventsTo, Exit, EventsAfter, ResumesAt, IsRejected;
    var to := EventsTo(terms, e, now, deadline);
    ApproachBooked(terms, e, now, start, deadline, prior);
    var started := StartsAt(terms, e, now, deadline);
    if started.Some? {
      var at := started.value;
      AwaitBooked(terms, e, attempt, at, start, deadline, prior + to);
      ExitMeans(terms, e, attempt, rejections, at, deadline);
      ResponseInTime(terms, e, attempt, rejections, at, deadline);
      var after := EventsAfter(terms, e, attempt, at, deadline);
      assert prior + to + after == prior + (to + after);
    }
  }

  lemma {:induction false} OnwardKeepsRules(terms: Terms, env: nat -> Attempt, attempt: nat, rejections: nat, now: real,
      start: real, prior: seq<Event>)
    requires terms.policy.Valid() && start <= now
    requires attempt > 0 ==> terms.mayRetry && attempt < terms.MaxAttempts()
    requires rejections <= AtLeastZero(terms.rateLimitRetries)
    requires Books(prior, start, terms.Deadline(start)) == Ledger(attempt, rejections, 0, false, true)
    ensures var course := Onward(terms, env, attempt, rejections, now, terms.Deadline(start)).After(prior);
            KeepsRules(terms, start, course.outcome, course.events)
    decreases terms.MaxAttempts() - attempt
  {
    var deadline := terms.Deadline(start);
    OnwardTurns(terms, env, attempt, rejections, now, deadline, prior);
    if attempt < terms.MaxAttempts() {
      TurnBooked(terms, env(attempt), attempt, rejections, now, start, prior);
      hide Onward, TurnOf, Books;
      match TurnOf(terms, env(attempt), attempt, rejections, now, deadline)
      case Leaves(_, _) =>
      case GoesRound(later, rejected, events) =>
        OnwardKeepsRules(terms, env, attempt + 1, rejected, later, start, prior + events);
    }
  }

  lemma RulesKept(terms: Terms, start: real, env: nat -> Attempt)
    requires terms.policy.Valid()
    ensures KeepsRules(terms, start, Whole(terms, start, env).outcome, Whole(terms, start, env).events)
  {
    OnwardKeepsRules(terms, env, 0, 0, start, start, []);
    assert [] + Whole(terms, start, env).events == Whole(terms, start, env).events;
  }

  // ------------------------------------------------- when it must do what

  /** A turn goes round exactly when its transport started and the retry rule that fits what came of it allows. */
  lemma GoesRoundExactly(terms: Terms, e: Attempt, attempt: nat, rejections: nat, now: real, deadline: real)
    ensures TurnOf(terms, e, attempt, rejections, now, deadline).GoesRound? <==>
            var at := StartsAt(terms, e, now, deadline);
            && at.Some? && Heard(terms, e, at.value, deadline) != Some(Good)
            && if IsRejected(terms, e, at.value, deadline) then terms.WillRetryRejection(attempt, rejections + 1)
               else MayBackOff(terms, e, attempt, at.value, deadline)
  {
    hide StartsAt, EventsTo, EventsAfter, HeardAt, ResumesAt, Terms.WillRetryRejection, MayBackOff;
  }

  lemma RoundsLeft(terms: Terms, e: Attempt, attempt: nat, rejections: nat, now: real, deadline: real)
    requires TurnOf(terms, e, attempt, rejections, now, deadline).GoesRound?
    ensures attempt + 1 < terms.MaxAttempts()
  {
    GoesRoundExactly(terms, e, attempt, rejections, now, deadline);
  }

  /** When a turn begins, the rejections and the calls before it. */
  datatype Standing = Standing(now: real, rejections: nat, events: seq<Event>)

  /** How the request stands at the head of attempt `k`, if every attempt before it goes round. */
  function Reached(terms: Terms, start: real, env: nat -> Attempt, k: nat): Option<Standing> {
    if k == 0 then Some(Standing(start, 0, []))
    else
      match Reached(terms, start, env, k - 1)
      case None => None
      case Some(st) =>
        match TurnOf(terms, env(k - 1), k - 1, st.rejections, st.now, terms.Deadline(start))
        case Leaves(_, _) => None
        case GoesRound(later, rejected, events) => Some(Standing(later, rejected, st.events + events))
  }

  /** Attempt `k` is reached, its transport starts, and a good reply comes back within its timeout. */
  predicate Answered(terms: Terms, start: real, env: nat -> Attempt, k: nat) {
    var st := Reached(terms, start, env, k);
    k < terms.MaxAttempts() && st.Some?
    && var at := StartsAt(terms, env(k), st.value.now, terms.Deadline(start));
       at.Some? && Heard(terms, env(k), at.value, terms.Deadline(start)) == Some(Good)
  }

  /** From a reached attempt on, the request goes as if it began there, after the calls made before. */
  lemma {:induction false} OnwardReached(terms: Terms, start: real, env: nat -> Attempt, k: nat)
    requires Reached(terms, start, env, k).Some?
    ensures k > 0 ==> k < terms.MaxAttempts()
    ensures var st := Reached(terms, start, env, k).value;
            Whole(terms, start, env) == Onward(terms, env, k, st.rejections, st.now, terms.Deadline(start)).After(st.events)
  {
    hide TurnOf, Onward;
    if k > 0 {
      OnwardReached(terms, start, env, k - 1);
      var st := Reached(terms, start, env, k - 1).value;
      RoundsLeft(terms, env(k - 1), k - 1, st.rejections, st.now, terms.Deadline(start));
      OnwardTurns(terms, env, k - 1, st.rejections, st.now, terms.Deadline(start), st.events);
    }
  }

  /** With an attempt allowed, some reached attempt leaves, and the request leaves with its outcome. */
  lemma {:induction false} LeavesSomewhere(terms: Terms, start: real, env: nat -> Attempt, from: nat) returns (k: nat)
    requires from < terms.MaxAttempts() && Reached(terms, start, env, from).Some?
    ensures k < terms.MaxAttempts() && Reached(terms, start, env, k).Some?
    ensures var st := Reached(terms, start, env, k).value;
            var turn := TurnOf(terms, env(k), k, st.rejections, st.now, terms.Deadline(start));
            turn.Leaves? && Whole(terms, start, env).outcome == turn.outcome
    decreases terms.MaxAttempts() - from
  {
    hide TurnOf;
    var st := Reached(terms, start, env, from).value;
    if TurnOf(terms, env(from), from, st.rejections, st.now, terms.Deadline(start)).Leaves? {
      k := from;
      OnwardReached(terms, start, env, k);
    } else {
      OnwardReached(terms, start, env, from + 1);
      k := LeavesSomewhere(terms, start, env, from + 1);
    }
  }

  /**
   For every environment: the request returns a response exactly when some attempt is reached,
   every one before it having gone round, and is answered well in time.
   */
  lemma RespondsExactly(terms: Terms, start: real, env: nat -> Attempt)
    ensures Whole(terms, start, env).outcome.Response? <==> exists k :: Answered(terms, start, env, k)
  {
    var deadline := terms.Deadline(start);
    if Whole(terms, start, env).outcome.Response? {
      var k := LeavesSomewhere(terms, start, env, 0);
      hide Whole, Reached, EventsTo, EventsAfter, StartsAt;
      assert Answered(terms, start, env, k);
    }
    if k :| Answered(terms, start, env, k) {
      OnwardReached(terms, start, env, k);
      hide Whole, Reached, EventsTo, EventsAfter, StartsAt;
    }
  }

  // ------------------------------------------------------------- the loop

  /** The way of one attempt to the transport: deadline, breaker, queue, pacing. */
  method Approach(terms: Terms, e: Attempt, at: real, deadline: real, before: seq<Event>)
    returns (refused: Option<Outcome>, now: real, trace: seq<Event>)
    ensures match StartsAt(terms, e, at, deadline)
            case Some(started) => refused.None? && now == started
            case None => refused == Some(Refusal(terms, e, at, deadline))
    ensures trace == before + EventsTo(terms, e, at, deadline)
  {
    now, trace := at, before;
    var remaining := deadline - now;
    if remaining <= 0.0 {
      return Some(DeadlineExceeded), now, trace;
    }
    if !e.circuitAdmits {
      return Some(CircuitOpen), now, trace;
    }
    trace := trace + [Admitted(now)];
    if e.queueFull || e.queueWait > terms.QueueTimeout(remaining) {
      trace := trace + [ProbeReleased];
      return Some(BulkheadRejected), now, trace;
    }
    now := now + e.queueWait;
    trace := trace + [PermitTaken];
    remaining := deadline - now;
    if remaining <= 0.0 || e.slotWait > remaining {
      trace := trace + [PermitFreed, ProbeReleased];
      return Some(DeadlineExceeded), now, trace;
    }
    now := now + e.slotWait;
    remaining := deadline - now;
    if remaining <= 0.0 {
      trace := trace + [PermitFreed, ProbeReleased];
      return Some(DeadlineExceeded), now, trace;
    }
    trace := trace + [TransportStarted(now)];
    refused := None;
  }

  /**
   From the start of the transport to the next turn of the loop or the exit: the breaker is told,
   the permit given back, and a backoff or the cooldown waited out.
   */
  method AwaitTransport(terms: Terms, e: Attempt, attempt: nat, rejections: nat, at: real, deadline: real, before: seq<Event>)
    returns (given: Option<Outcome>, now: real, rejected: bool, trace: seq<Event>)
    ensures given == Exit(terms, e, attempt, rejections, at, deadline) && rejected == IsRejected(terms, e, at, deadline)
    ensures trace == before + EventsAfter(terms, e, attempt, at, deadline)
    ensures given.None? ==> now == ResumesAt(terms, e, attempt, at, deadline)
  {
    now, trace, rejected := at, before, false;
    var attemptTimeout := terms.AttemptTimeout(deadline - now);
    if e.transport.TransportError? || e.transport.after > attemptTimeout {
      // A reply later than the attempt's timeout is a TimeoutError at the timeout.
      now := now + Min(e.transport.after, attemptTimeout) + e.oversleep;
      trace := trace + [FailureRecorded];
      if !terms.WillRetry(attempt) {
        trace := trace + [PermitFreed];
        return Some(TransientError), now, rejected, trace;
      }
      var delay := Min(e.jitter, terms.BackoffCap(attempt));
      if !MaySleep(delay, now, deadline) {
        trace := trace + [PermitFreed, ProbeReleased];
        return Some(DeadlineExceeded), now, rejected, trace;
      }
      trace := trace + [BackoffUntil(now + delay)];
      now := now + delay + e.oversleep;
      trace := trace + [PermitFreed];
      return None, now, rejected, trace;
    }
    now := now + e.transport.after;
    trace := trace + [PermitFreed];
    match e.transport.reply {
      case RateLimited(_) =>
        trace, rejected := trace + [SuccessRecorded, RateRejected], true;
        now := now + e.cooldownWait;
        given := if terms.WillRetryRejection(attempt, rejections + 1) then None else Some(RateLimitError);
      case TransientStatus =>
        trace := trace + [FailureRecorded];
        if !terms.WillRetry(attempt) {
          return Some(TransientError), now, rejected, trace;
        }
        var delay := Min(e.jitter, terms.BackoffCap(attempt));
        if !MaySleep(delay, now, deadline) {
          return Some(DeadlineExceeded), now, rejected, trace;
        }
        trace := trace + [BackoffUntil(now + delay)];
        now := now + delay + e.oversleep;
        given := None;
      case Good =>
        trace := trace + [SuccessRecorded];
        given := Some(Response(now));
    }
  }

  /**
   The loop body is one attempt. Each `return` is an exception of the source except the
   one that carries `Response`.
   */
  method RequestKis(terms: Terms, start: real, env: nat -> Attempt) returns (outcome: Outcome, trace: seq<Event>)
    requires terms.policy.Valid()
    ensures Course(outcome, trace) == Whole(terms, start, env)
    ensures KeepsRules(terms, start, outcome, trace)
  {
    hide KeepsRules, Onward, StartsAt, Refusal, EventsTo, Exit, EventsAfter, ResumesAt, IsRejected;
    var maxAttempts := terms.MaxAttempts();
    var now := start;
    var deadline := now + terms.policy.totalTimeout;
    var rateRejections := 0;
    trace := [];
    var attempt := 0;
    assert Onward(terms, env, 0, 0, start, deadline).After([]) == Whole(terms, start, env);
    while attempt < maxAttempts
      invariant 0 <= attempt && rateRejections >= 0
      invariant Onward(terms, env, attempt, rateRejections, now, deadline).After(trace) == Whole(terms, start, env)
      decreases maxAttempts - attempt
    {
      var e := env(attempt);
      OnwardTurns(terms, env, attempt, rateRejections, now, deadline, trace);
      ghost var turn, prior := TurnOf(terms, e, attempt, rateRejections, now, deadline), trace;
      var refused, at;
      refused, at, trace := Approach(terms, e, now, deadline, trace);
      if refused.Some? {
        RulesKept(terms, start, env);
        return refused.value, trace;
      }
      var given, rejected;
      given, now, rejected, trace := AwaitTransport(terms, e, attempt, rateRejections, at, deadline, trace);
      assert trace == prior + turn.events;
      if rejected {
        rateRejections := rateRejections + 1;
      }
      if given.Some? {
        RulesKept(terms, start, env);
        return given.value, trace;
      }
      attempt := attempt + 1;
    }
    OnwardTurns(terms, env, attempt, rateRejections, now, deadline, trace);
    RulesKept(terms, start, env);
    outcome := Exhausted;
  }
}
