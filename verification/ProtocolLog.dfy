/**
 What each request of a run of `Protocol` does, told in the events of `RequestLoop`: the calls it
 makes on the breaker, the bulkhead and the transport, with their times. The log is derived from
 the places a request moves between, and proved to be the calls and permits of the steps.
 */
module ProtocolLog {
  import opened Protocol
  import opened RequestPolicy
  import opened Wrappers
  import Circuit
  import Loop = RequestLoop
  import RateLimiter

  type Log = seq<Loop.Event>

  /** The calls a step of one request makes, by the places it leads from and to. */
  function StepEvents(now: real, before: Place, after: Place, replied: bool): Log {
    match before
    case Top =>
      if after.Queued? then [Loop.Admitted(now)]
      else if after.Done? && after.outcome.BulkheadRejected? then [Loop.Admitted(now), Loop.ProbeReleased]
      else []
    case Queued(_) =>
      if after.AwaitingSlot? then [Loop.PermitTaken]
      else if after.Done? && after.outcome.DeadlineExceeded? then [Loop.PermitTaken, Loop.PermitFreed, Loop.ProbeReleased]
      else [Loop.ProbeReleased]
    case AwaitingSlot => SlotEvents(now, after)
    case Pacing(_) => SlotEvents(now, after)
    case InFlight(_) => if replied then ReplyEvents(after) else FailureEvents(after)
    case HoldingBackoff(_) => [Loop.PermitFreed]
    case _ => []
  }

  function SlotEvents(now: real, after: Place): Log {
    if after.Pacing? then []
    else if after.InFlight? then [Loop.TransportStarted(now)]
    else [Loop.PermitFreed, Loop.ProbeReleased]
  }

  function FailureEvents(after: Place): Log {
    [Loop.FailureRecorded]
    + if after.HoldingBackoff? then [Loop.BackoffUntil(after.wakeAt)]
      else if after.Done? && after.outcome.DeadlineExceeded? then [Loop.PermitFreed, Loop.ProbeReleased]
      else [Loop.PermitFreed]
  }

  function ReplyEvents(after: Place): Log {
    [Loop.PermitFreed]
    + if after.Cooling? then [Loop.SuccessRecorded, Loop.RateRejected]
      else if after.Done? && after.outcome.Response? then [Loop.SuccessRecorded]
      else [Loop.FailureRecorded] + if after.Backoff? then [Loop.BackoffUntil(after.wakeAt)] else []
  }

  predicate Acts(s: System, step: Step, id: Id) {
    Enabled(s, step) && !step.Tick? && !step.Start? && step.id == id
  }

  function Deed(cfg: Config, s: System, step: Step): Log
    requires cfg.Valid() && Enabled(s, step) && !step.Tick? && !step.Start?
  {
    StepEvents(s.now, s.requests[step.id].place, Moved(cfg, s, step).request.place, step.Responds?)
  }

  /** Everything one request did in a run, oldest first. */
  function LogOf(cfg: Config, steps: seq<Step>, id: Id): Log
    requires cfg.Valid()
  {
    if steps == [] then []
    else
      var front, step := steps[..|steps| - 1], steps[|steps| - 1];
      LogOf(cfg, front, id) + if Acts(Run(cfg, front), step, id) then Deed(cfg, Run(cfg, front), step) else []
  }

  function Tell(now: real, e: Loop.Event): seq<Circuit.Call> {
    match e
    case Admitted(_) => [Circuit.Request(now)]
    case ProbeReleased => [Circuit.ProbeRelease(now)]
    case FailureRecorded => [Circuit.Failure(now)]
    case SuccessRecorded => [Circuit.Success(now)]
    case _ => []
  }

  /** What the breaker is told by these calls. */
  function Told(now: real, log: Log): seq<Circuit.Call>
    decreases |log|
  {
    if log == [] then [] else Tell(now, log[0]) + Told(now, log[1..])
  }

  /** Permits taken less permits freed. */
  function Net(log: Log): int
    decreases |log|
  {
    if log == [] then 0 else Count(log[0].PermitTaken?) - Count(log[0].PermitFreed?) + Net(log[1..])
  }

  lemma ShortLog(now: real, log: Log)
    requires |log| <= 3
    ensures Told(now, log) ==
            (if |log| > 0 then Tell(now, log[0]) else []) + (if |log| > 1 then Tell(now, log[1]) else [])
            + if |log| > 2 then Tell(now, log[2]) else []
    ensures Net(log) ==
            (if |log| > 0 then Count(log[0].PermitTaken?) - Count(log[0].PermitFreed?) else 0)
            + (if |log| > 1 then Count(log[1].PermitTaken?) - Count(log[1].PermitFreed?) else 0)
            + if |log| > 2 then Count(log[2].PermitTaken?) - Count(log[2].PermitFreed?) else 0
  {
    hide Tell;
    if |log| > 0 {
      assert log[1..] == if |log| == 1 then [] else if |log| == 2 then [log[1]] else [log[1], log[2]];
      if |log| > 1 {
        assert log[1..][1..] == if |log| == 2 then [] else [log[2]];
      }
      if |log| > 2 {
        assert [log[2]][1..] == [];
      }
    }
  }

  /** What `DeedsAreCalls` says of one step. */
  ghost predicate Accounts(now: real, before: Reach, after: Reach, deed: Log) {
    && before.permits - after.permits == Net(deed)
    && after.calls == before.calls
         + if after.request.place.Done? && after.request.place.outcome.CircuitOpen? then [Circuit.Request(now)] else Told(now, deed)
  }

  lemma HeadAccounts(cfg: Config, now: real, e: Reach)
    requires cfg.Valid() && !e.takesProbe && e.request.place.Top?
    ensures var r := AdmitNext(cfg, now, e);
            Accounts(now, e, r, StepEvents(now, e.request.place, r.request.place, false))
  {
    ShortLog(now, StepEvents(now, e.request.place, AdmitNext(cfg, now, e).request.place, false));
    hide Local, Circuit.Apply, Circuit.Decide, Terms.MaxAttempts, Terms.QueueTimeout, Told, Net;
  }

  lemma QueueAccounts(cfg: Config, now: real, e: Reach)
    requires cfg.Valid() && !e.takesProbe && e.request.place.Queued?
    ensures var r := QueueTimeoutNext(cfg, now, e);
            Accounts(now, e, r, StepEvents(now, e.request.place, r.request.place, false))
    ensures e.permits > 0 ==>
              var r := AcquireNext(cfg, now, e);
              Accounts(now, e, r, StepEvents(now, e.request.place, r.request.place, false))
  {
    ShortLog(now, StepEvents(now, e.request.place, QueueTimeoutNext(cfg, now, e).request.place, false));
    if e.permits > 0 { ShortLog(now, StepEvents(now, e.request.place, AcquireNext(cfg, now, e).request.place, false)); }
    hide Local, Circuit.Apply, Told, Net;
  }

  lemma SlotAccounts(cfg: Config, now: real, id: Id, e: Reach)
    requires cfg.Valid() && !e.takesProbe && (e.request.place.AwaitingSlot? || e.request.place.Pacing?)
    ensures var r := GrantNext(cfg, now, e);
            Accounts(now, e, r, StepEvents(now, e.request.place, r.request.place, false))
    ensures var r := SlotTimeoutNext(cfg, now, id, e);
            Accounts(now, e, r, StepEvents(now, e.request.place, r.request.place, false))
    ensures e.request.place.AwaitingSlot? ==>
              var r := EnterSlotNext(cfg, now, id, e);
              Accounts(now, e, r, StepEvents(now, e.request.place, r.request.place, false))
  {
    ShortLog(now, StepEvents(now, e.request.place, GrantNext(cfg, now, e).request.place, false));
    ShortLog(now, StepEvents(now, e.request.place, SlotTimeoutNext(cfg, now, id, e).request.place, false));
    assert Told(now, []) == [] && Net([]) == 0;
    hide Local, Circuit.Apply, Told, Net, RateLimiter.Delay, RateLimiter.Grant, Terms.AttemptTimeout;
  }

  lemma FailureAccounts(cfg: Config, now: real, delay: real, e: Reach)
    requires cfg.Valid() && !e.takesProbe && e.request.place.InFlight?
    ensures var r := TransportFailsNext(cfg, now, e, delay);
            Accounts(now, e, r, StepEvents(now, e.request.place, r.request.place, false))
  {
    ShortLog(now, StepEvents(now, e.request.place, TransportFailsNext(cfg, now, e, delay).request.place, false));
    hide Local, Circuit.Apply, Told, Net, Terms.WillRetry, MaySleep;
  }

  lemma ReplyAccounts(cfg: Config, now: real, reply: Reply, delay: real, contended: bool, e: Reach)
    requires cfg.Valid() && !e.takesProbe && e.request.place.InFlight? && now <= e.request.place.until
    ensures var r := RespondsNext(cfg, now, e, reply, delay, contended);
            Accounts(now, e, r, StepEvents(now, e.request.place, r.request.place, true))
  {
    ShortLog(now, StepEvents(now, e.request.place, RespondsNext(cfg, now, e, reply, delay, contended).request.place, true));
    hide Local, Circuit.Apply, Told, Net, Terms.WillRetry, MaySleep, RateLimiter.Succeed;
  }

  lemma RestAccounts(cfg: Config, now: real, retryAfter: Option<real>, e: Reach)
    requires cfg.Valid() && !e.takesProbe
    ensures e.request.place.Cooling? ==>
              var r := CoolDownNext(cfg, now, e, retryAfter);
              Accounts(now, e, r, StepEvents(now, e.request.place, r.request.place, false))
    ensures e.request.place.Asleep() ==>
              var r := BackoffEndsNext(cfg, now, e);
              Accounts(now, e, r, StepEvents(now, e.request.place, r.request.place, false))
  {
    ShortLog(now, []);
    ShortLog(now, [Loop.PermitFreed]);
    hide Local, Told, Net, Terms.WillRetryRejection, RateLimiter.Impose, RateLimiter.Cooldown;
  }

  /**
   The log is of real calls: a step tells the breaker of its endpoint just what its events say, but
   for the request that the breaker turned away, and takes or frees the permits they name.
   */
  lemma DeedsAreCalls(cfg: Config, s: System, step: Step)
    requires cfg.Valid() && Enabled(s, step) && !step.Tick? && !step.Start?
    ensures Accounts(s.now, ReachOf(s, step.id), Moved(cfg, s, step), Deed(cfg, s, step))
  {
    var e := ReachOf(s, step.id);
    hide Local, Accounts, Contended, Drawn, StepEvents, AdmitNext, AcquireNext, QueueTimeoutNext, EnterSlotNext;
    hide GrantNext, SlotTimeoutNext, TransportFailsNext, RespondsNext, CoolDownNext, BackoffEndsNext;
    match step
    case Admit(_) => HeadAccounts(cfg, s.now, e);
    case Acquire(_) => QueueAccounts(cfg, s.now, e);
    case QueueTimeout(_) => QueueAccounts(cfg, s.now, e);
    case EnterSlot(id) => SlotAccounts(cfg, s.now, id, e);
    case WakeInSlot(id) => SlotAccounts(cfg, s.now, id, e);
    case SlotTimeout(id) => SlotAccounts(cfg, s.now, id, e);
    case TransportFails(_, jitter) => FailureAccounts(cfg, s.now, Drawn(e.request, jitter), e);
    case Responds(id, reply, jitter) => ReplyAccounts(cfg, s.now, reply, Drawn(e.request, jitter), Contended(s, id), e);
    case CoolDown(_) => RestAccounts(cfg, s.now, e.request.place.retryAfter, e);
    case BackoffEnds(_) => RestAccounts(cfg, s.now, None, e);
  }
}
