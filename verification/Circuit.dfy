/**
 The per-endpoint circuit breaker: a deque of recent failure times, the moment
 until which the circuit is open, and the flag of the half-open probe.

 `Breaker` is the abstract value, `CircuitState` the object whose fields the
 program updates in place. A run is the sequence of calls made on one breaker;
 what the deque must hold after a run is defined from that history alone.
 */
module Circuit {

  /** The three environment settings; the program refuses non-positive ones. */
  datatype Config = Config(threshold: int, window: real, openSeconds: real) {
    predicate Valid() {
      threshold >= 1 && window > 0.0 && openSeconds > 0.0
    }
  }

  datatype Breaker = Breaker(failures: seq<real>, openUntil: real, probe: bool)

  const CLOSED := Breaker([], 0.0, false)

  datatype Admission = Admitted | RejectedOpen | RejectedHalfOpen

  /** `open_until` doubles as the "has been opened" marker: zero means closed. */
  function Decide(b: Breaker, now: real): Admission {
    if b.openUntil > now then RejectedOpen
    else if b.openUntil != 0.0 && b.probe then RejectedHalfOpen
    else Admitted
  }

  function Allow(b: Breaker, now: real): Breaker {
    if Decide(b, now) == Admitted && b.openUntil != 0.0 then b.(probe := true) else b
  }

  function Succeed(b: Breaker): Breaker {
    CLOSED
  }

  function Release(b: Breaker): Breaker {
    b.(probe := false)
  }

  /** What the popleft loop leaves: the suffix that starts at the first kept time. */
  function PruneFront(failures: seq<real>, cutoff: real): seq<real> {
    if failures != [] && failures[0] < cutoff then PruneFront(failures[1..], cutoff) else failures
  }

  predicate Opens(cfg: Config, b: Breaker, now: real) {
    b.probe || |PruneFront(b.failures, now - cfg.window)| + 1 >= cfg.threshold
  }

  function Fail(cfg: Config, b: Breaker, now: real): Breaker {
    Breaker(PruneFront(b.failures, now - cfg.window) + [now],
            if Opens(cfg, b, now) then now + cfg.openSeconds else b.openUntil,
            false)
  }

  // ---------------------------------------------------------------- runs

  datatype Call = Request(at: real) | Failure(at: real) | Success(at: real) | ProbeRelease(at: real)

  function Apply(cfg: Config, b: Breaker, c: Call): Breaker {
    match c
    case Request(at) => Allow(b, at)
    case Failure(at) => Fail(cfg, b, at)
    case Success(_) => Succeed(b)
    case ProbeRelease(_) => Release(b)
  }

  function After(cfg: Config, calls: seq<Call>): Breaker {
    if calls == [] then CLOSED
    else Apply(cfg, After(cfg, calls[..|calls| - 1]), calls[|calls| - 1])
  }

  /** The loop clock is monotone and never negative. */
  predicate Monotone(calls: seq<Call>) {
    && (forall i :: 0 <= i < |calls| ==> 0.0 <= calls[i].at)
    && (forall i, j :: 0 <= i < j < |calls| ==> calls[i].at <= calls[j].at)
  }

  function LastAt(calls: seq<Call>): real {
    if calls == [] then 0.0 else calls[|calls| - 1].at
  }

  /** From the history alone: every failure recorded after the last success. */
  function FailuresSinceSuccess(calls: seq<Call>): seq<real> {
    if calls == [] then []
    else
      var before := FailuresSinceSuccess(calls[..|calls| - 1]);
      match calls[|calls| - 1]
      case Failure(at) => before + [at]
      case Success(_) => []
      case _ => before
  }

  /** The times at or after a cutoff, in order. */
  function Within(times: seq<real>, cutoff: real): seq<real> {
    if times == [] then []
    else
      var before := Within(times[..|times| - 1], cutoff);
      if times[|times| - 1] >= cutoff then before + [times[|times| - 1]] else before
  }

  ghost predicate Sorted(times: seq<real>) {
    forall i, j :: 0 <= i < j < |times| ==> times[i] <= times[j]
  }

  lemma {:induction false} WithinAll(times: seq<real>, cutoff: real)
    requires forall i :: 0 <= i < |times| ==> times[i] >= cutoff
    ensures Within(times, cutoff) == times
  {
    if times != [] {
      WithinAll(times[..|times| - 1], cutoff);
      assert times == times[..|times| - 1] + [times[|times| - 1]];
    }
  }

  lemma {:induction false} WithinDropsHead(times: seq<real>, cutoff: real)
    requires times != [] && times[0] < cutoff
    ensures Within(times, cutoff) == Within(times[1..], cutoff)
  {
    if |times| > 1 {
      WithinDropsHead(times[..|times| - 1], cutoff);
      assert times[1..][..|times| - 2] == times[..|times| - 1][1..];
    }
  }

  /** On a sorted deque the popleft loop is the filter: nothing old hides behind something recent. */
  lemma {:induction false} PruneIsFilter(times: seq<real>, cutoff: real)
    requires Sorted(times)
    ensures PruneFront(times, cutoff) == Within(times, cutoff)
  {
    if times != [] && times[0] < cutoff {
      PruneIsFilter(times[1..], cutoff);
      WithinDropsHead(times, cutoff);
    } else {
      WithinAll(times, cutoff);
    }
  }

  /** Pruning again at a later moment forgets nothing the later window still needs. */
  lemma {:induction false} WithinTwice(times: seq<real>, early: real, late: real)
    requires early <= late
    ensures Within(Within(times, early), late) == Within(times, late)
  {
    if times != [] {
      var n := |times| - 1;
      WithinTwice(times[..n], early, late);
      if times[n] >= early {
        var kept := Within(times[..n], early) + [times[n]];
        assert kept[..|kept| - 1] == Within(times[..n], early);
      }
    }
  }

  lemma SortedSnoc(times: seq<real>, t: real)
    requires Sorted(times) && (forall u :: u in times ==> u <= t)
    ensures Sorted(times + [t])
  {
    var longer := times + [t];
    forall i, j | 0 <= i < j < |longer| ensures longer[i] <= longer[j] {
      assert longer[i] == times[i];
      assert times[i] in times;
      if j < |times| { assert longer[j] == times[j]; }
    }
  }

  lemma {:induction false} WithinSorted(times: seq<real>, cutoff: real)
    requires Sorted(times)
    ensures Sorted(Within(times, cutoff))
    ensures forall t :: t in Within(times, cutoff) ==> t in times
  {
    if times != [] {
      var n := |times| - 1;
      WithinSorted(times[..n], cutoff);
      if times[n] >= cutoff {
        SortedSnoc(Within(times[..n], cutoff), times[n]);
      }
    }
  }

  lemma {:induction false} FailuresAreSorted(calls: seq<Call>)
    requires Monotone(calls)
    ensures Sorted(FailuresSinceSuccess(calls))
    ensures forall t :: t in FailuresSinceSuccess(calls) ==> t <= LastAt(calls)
  {
    if calls != [] {
      var prior := calls[..|calls| - 1];
      FailuresAreSorted(prior);
      assert LastAt(prior) <= LastAt(calls);
      if calls[|calls| - 1].Failure? {
        SortedSnoc(FailuresSinceSuccess(prior), LastAt(calls));
      }
    }
  }

  /** The deque after a run, from the history: the window that ended at the last failure. */
  ghost predicate WindowHolds(cfg: Config, deque: seq<real>, all: seq<real>) {
    deque == if all == [] then [] else Within(all, all[|all| - 1] - cfg.window)
  }

  lemma {:induction false} DequeAfterRun(cfg: Config, calls: seq<Call>)
    requires cfg.Valid() && Monotone(calls)
    ensures WindowHolds(cfg, After(cfg, calls).failures, FailuresSinceSuccess(calls))
  {
    hide After, FailuresSinceSuccess, Within, PruneFront, Sorted, Monotone, WindowHolds;
    EmptyWindow(cfg);
    if calls != [] {
      var prior, last := calls[..|calls| - 1], calls[|calls| - 1];
      assert calls == prior + [last];
      MonotonePrefix(prior, last);
      AfterSnoc(cfg, prior, last);
      FailuresSnoc(prior, last);
      DequeAfterRun(cfg, prior);
      if last.Failure? {
        FailuresAreSorted(prior);
        DequeAfterFailure(cfg, After(cfg, prior), FailuresSinceSuccess(prior), last.at);
        WindowAfterFailure(cfg, FailuresSinceSuccess(prior), last.at);
      }
    }
  }

  lemma EmptyWindow(cfg: Config)
    ensures WindowHolds(cfg, [], []) && After(cfg, []) == CLOSED && FailuresSinceSuccess([]) == []
  {
  }

  lemma WindowAfterFailure(cfg: Config, before: seq<real>, now: real)
    ensures WindowHolds(cfg, Within(before + [now], now - cfg.window), before + [now])
  {
  }

  lemma DequeAfterFailure(cfg: Config, b: Breaker, before: seq<real>, now: real)
    requires cfg.Valid() && Sorted(before) && (forall t :: t in before ==> t <= now)
    requires WindowHolds(cfg, b.failures, before)
    ensures Fail(cfg, b, now).failures == Within(before + [now], now - cfg.window)
    ensures |PruneFront(b.failures, now - cfg.window)| + 1 == |Within(before + [now], now - cfg.window)|
  {
    WithinSnoc(before, now, now - cfg.window);
    PrunedWindow(cfg, b.failures, before, now);
    hide Sorted, Within, PruneFront, WindowHolds;
    assert (before + [now])[|before|] == now;
  }

  lemma WithinSnoc(times: seq<real>, t: real, cutoff: real)
    requires t >= cutoff
    ensures Within(times + [t], cutoff) == Within(times, cutoff) + [t]
  {
    assert (times + [t])[..|times|] == times;
  }

  lemma EmptyPrune(cutoff: real)
    ensures PruneFront([], cutoff) == [] == Within([], cutoff)
  {
  }

  /** Pruning the deque of the last failure's window leaves the window that ends now. */
  lemma PrunedWindow(cfg: Config, deque: seq<real>, before: seq<real>, now: real)
    requires cfg.Valid() && Sorted(before) && (forall t :: t in before ==> t <= now)
    requires WindowHolds(cfg, deque, before)
    ensures PruneFront(deque, now - cfg.window) == Within(before, now - cfg.window)
  {
    hide Sorted, Within, PruneFront;
    EmptyPrune(now - cfg.window);
    if before != [] {
      var last := before[|before| - 1];
      assert last in before;
      WithinSorted(before, last - cfg.window);
      PruneIsFilter(deque, now - cfg.window);
      WithinTwice(before, last - cfg.window, now - cfg.window);
    }
  }

  /** How many failures since the last success fall in the trailing window that ends at `now`. */
  function RecentFailures(cfg: Config, calls: seq<Call>, now: real): nat {
    |Within(FailuresSinceSuccess(calls), now - cfg.window)|
  }

  /**
   After any run, recording a failure makes the deque exactly the failures of the trailing
   window, and it opens the circuit exactly when a probe failed or the window holds
   `threshold` failures; otherwise the open deadline does not move.
   */
  lemma FailureOpensExactlyAtThreshold(cfg: Config, calls: seq<Call>, now: real)
    requires cfg.Valid() && Monotone(calls + [Failure(now)])
    ensures var b, after := After(cfg, calls), After(cfg, calls + [Failure(now)]);
            var all := FailuresSinceSuccess(calls + [Failure(now)]);
            && after.failures == Within(all, now - cfg.window)
            && (Opens(cfg, b, now) <==> b.probe || RecentFailures(cfg, calls + [Failure(now)], now) >= cfg.threshold)
            && after.openUntil == (if Opens(cfg, b, now) then now + cfg.openSeconds else b.openUntil)
            && !after.probe
  {
    hide Monotone, Sorted, Within, PruneFront, After, FailuresSinceSuccess, WindowHolds;
    MonotonePrefix(calls, Failure(now));
    FailuresSnoc(calls, Failure(now));
    AfterSnoc(cfg, calls, Failure(now));
    DequeAfterRun(cfg, calls);
    FailuresAreSorted(calls);
    DequeAfterFailure(cfg, After(cfg, calls), FailuresSinceSuccess(calls), now);
  }

  lemma FailuresSnoc(calls: seq<Call>, c: Call)
    ensures FailuresSinceSuccess(calls + [c]) ==
            if c.Failure? then FailuresSinceSuccess(calls) + [c.at]
            else if c.Success? then [] else FailuresSinceSuccess(calls)
  {
    assert (calls + [c])[..|calls|] == calls;
  }

  lemma MonotonePrefix(calls: seq<Call>, c: Call)
    requires Monotone(calls + [c])
    ensures Monotone(calls) && 0.0 <= LastAt(calls) <= c.at
  {
    var next := calls + [c];
    assert next[|calls|] == c;
    forall i | 0 <= i < |calls| ensures 0.0 <= calls[i].at <= c.at { assert next[i] == calls[i]; }
    forall i, j | 0 <= i < j < |calls| ensures calls[i].at <= calls[j].at {
      assert next[i] == calls[i] && next[j] == calls[j];
    }
  }

  lemma MonotoneSnoc(calls: seq<Call>, c: Call)
    requires Monotone(calls) && LastAt(calls) <= c.at && 0.0 <= c.at
    ensures Monotone(calls + [c])
  {
    var next := calls + [c];
    forall i, j | 0 <= i < j < |next| ensures next[i].at <= next[j].at {
      assert next[i] == calls[i];
      if j == |calls| { assert calls[i].at <= LastAt(calls); }
    }
  }

  lemma AfterSnoc(cfg: Config, calls: seq<Call>, c: Call)
    ensures After(cfg, calls + [c]) == Apply(cfg, After(cfg, calls), c)
  {
    assert (calls + [c])[..|calls|] == calls;
  }

  // ------------------------------------------------------- admission safety

  /** What every breaker state of a run satisfies at its latest clock reading. */
  ghost predicate Reachable(cfg: Config, b: Breaker, now: real) {
    && 0.0 <= now
    && 0.0 <= b.openUntil <= now + cfg.openSeconds
    && (b.probe ==> 0.0 < b.openUntil <= now)
  }

  lemma ReachableStep(cfg: Config, b: Breaker, before: real, c: Call)
    requires cfg.Valid() && Reachable(cfg, b, before) && before <= c.at
    ensures Reachable(cfg, Apply(cfg, b, c), c.at)
  {
  }

  lemma {:induction false} RunsStayReachable(cfg: Config, calls: seq<Call>)
    requires cfg.Valid() && Monotone(calls)
    ensures Reachable(cfg, After(cfg, calls), LastAt(calls))
  {
    if calls != [] {
      RunsStayReachable(cfg, calls[..|calls| - 1]);
      ReachableStep(cfg, After(cfg, calls[..|calls| - 1]), LastAt(calls[..|calls| - 1]), calls[|calls| - 1]);
    }
  }

  /**
   After any run: a set probe flag means the circuit has been opened and its open period is
   over; a request is admitted exactly when the circuit is closed, or the open period is over
   and no probe is out, and then takes the probe of an opened circuit; only a success brings
   `open_until` down, and it closes the circuit; a release only frees the probe.
   */
  lemma AdmissionAfterRun(cfg: Config, calls: seq<Call>, c: Call)
    requires cfg.Valid() && Monotone(calls + [c])
    ensures var b := After(cfg, calls);
            && (b.probe ==> b.openUntil > 0.0 && b.openUntil <= c.at)
            && (Decide(b, c.at) == Admitted <==> b.openUntil == 0.0 || (b.openUntil <= c.at && !b.probe))
            && (Decide(b, c.at) == RejectedOpen <==> b.openUntil > c.at)
            && (c.Success? || After(cfg, calls + [c]).openUntil >= b.openUntil)
            && (c.Success? ==> After(cfg, calls + [c]).openUntil == 0.0)
            && (!c.Failure? && !c.Success? ==> After(cfg, calls + [c]).openUntil == b.openUntil)
            && (After(cfg, calls + [c]).probe <==>
                  c.Request? && (b.probe || (Decide(b, c.at) == Admitted && b.openUntil > 0.0)))
  {
    var next := calls + [c];
    assert next[..|next| - 1] == calls && next[|next| - 1] == c;
    MonotonePrefix(calls, c);
    RunsStayReachable(cfg, calls);
  }

  // ------------------------------------------------------------ the object

  class CircuitState {
    var failures: seq<real>
    var openUntil: real
    var halfOpenProbeActive: bool

    function View(): Breaker
      reads this
    {
      Breaker(failures, openUntil, halfOpenProbeActive)
    }

    constructor ()
      ensures View() == CLOSED
    {
      failures, openUntil, halfOpenProbeActive := [], 0.0, false;
    }

    /** The raised errors are the two rejections of the result. */
    method AllowCircuitRequest(now: real) returns (r: Admission)
      modifies this
      ensures r == Decide(old(View()), now)
      ensures View() == Allow(old(View()), now)
      ensures r != Admitted ==> View() == old(View())
    {
      if openUntil > now {
        return RejectedOpen;
      }
      if openUntil != 0.0 {
        if halfOpenProbeActive {
          return RejectedHalfOpen;
        }
        halfOpenProbeActive := true;
      }
      r := Admitted;
    }

    method RecordCircuitSuccess()
      modifies this
      ensures View() == Succeed(old(View()))
      ensures failures == [] && openUntil == 0.0 && !halfOpenProbeActive
    {
      failures := [];
      openUntil := 0.0;
      halfOpenProbeActive := false;
    }

    method ReleaseCircuitProbe()
      modifies this
      ensures View() == Release(old(View()))
      ensures !halfOpenProbeActive && failures == old(failures) && openUntil == old(openUntil)
    {
      halfOpenProbeActive := false;
    }

    method RecordCircuitFailure(cfg: Config, now: real) returns (nowOpen: bool)
      modifies this
      ensures View() == Fail(cfg, old(View()), now)
      ensures nowOpen == Opens(cfg, old(View()), now)
    {
      while failures != [] && failures[0] < now - cfg.window
        invariant PruneFront(failures, now - cfg.window) == PruneFront(old(failures), now - cfg.window)
        invariant openUntil == old(openUntil) && halfOpenProbeActive == old(halfOpenProbeActive)
        decreases |failures|
      {
        failures := failures[1..];
      }
      var wasHalfOpen := halfOpenProbeActive;
      halfOpenProbeActive := false;
      failures := failures + [now];
      if wasHalfOpen || |failures| >= cfg.threshold {
        openUntil := now + cfg.openSeconds;
        return true;
      }
      nowOpen := false;
    }
  }
}
