/**
 Point-in-time replay: the fold over one instrument's price rows that publishes one
 observation per accepted bar, kept incrementally in `history` and `returns`.
 */
module Replay {
  import opened Names
  import opened Numbers
  import opened Signals
  import opened Wrappers

  datatype Bar = Bar(
    instrument: string, session: int, close: Option<real>, volume: Option<real>,
    quality: string, mode: string, revision: string)

  datatype Observation = Observation(
    subject: string, session: int, quality: string, provenance: string, validBars: nat,
    dailyReturn: Option<real>, vol20: Option<real>, volumeRatio20: Option<real>, close: real,
    sma20: Option<real>, sma50: Option<real>, sma120: Option<real>,
    previousClose: Option<real>, previousSma20: Option<real>,
    rsi14: Option<real>, percentB: Option<real>, lineage: seq<string>)

  predicate Usable(bar: Bar) {
    bar.close.Some? && bar.close.value > 0.0
  }

  /** The bars that enter the history. */
  function Accepted(bars: seq<Bar>): (kept: seq<Bar>)
    ensures AllUsable(kept)
  {
    if bars == [] then []
    else
      var earlier := Accepted(bars[..|bars| - 1]);
      if Usable(bars[|bars| - 1]) then earlier + [bars[|bars| - 1]] else earlier
  }

  predicate AllUsable(kept: seq<Bar>) {
    forall i :: 0 <= i < |kept| ==> Usable(kept[i])
  }

  function Closes(kept: seq<Bar>): (closes: seq<real>)
    requires AllUsable(kept)
    ensures |closes| == |kept|
    ensures forall i :: 0 <= i < |kept| ==> closes[i] == kept[i].close.value && closes[i] > 0.0
  {
    seq(|kept|, i requires 0 <= i < |kept| => kept[i].close.value)
  }

  function Return(previous: real, close: real): real
    requires previous > 0.0
  {
    close / previous - 1.0
  }

  function Returns(closes: seq<real>): (dailyReturns: seq<real>)
    requires closes != [] && forall i :: 0 <= i < |closes| ==> closes[i] > 0.0
    ensures |dailyReturns| == |closes| - 1
    ensures forall i :: 0 <= i < |closes| - 1 ==> dailyReturns[i] == Return(closes[i], closes[i + 1])
  {
    seq(|closes| - 1, i requires 0 <= i < |closes| - 1 => Return(closes[i], closes[i + 1]))
  }

  /** The present volumes of these bars, absent ones skipped. */
  function Volumes(kept: seq<Bar>): seq<real> {
    if kept == [] then []
    else
      var last := kept[|kept| - 1];
      Volumes(kept[..|kept| - 1]) + if last.volume.Some? then [last.volume.value] else []
  }

  function MeanOfLast(xs: seq<real>, n: nat): Option<real>
    requires n > 0
  {
    if |xs| >= n then Some(Mean(Last(xs, n))) else None
  }

  function Quality(bar: Bar): string {
    if bar.mode != "operational_strict" && bar.mode != "retrospective_reconstructed"
    then "unsupported_reconstruction_mode" else bar.quality
  }

  function Provenance(bar: Bar): string {
    if bar.mode == "operational_strict" then "historical_live" else "retrospective_reconstructed"
  }

  function Modes(kept: seq<Bar>): (modes: seq<string>)
    ensures |modes| == |kept|
  {
    seq(|kept|, i requires 0 <= i < |kept| => kept[i].mode)
  }

  function Ratio(volume: real, mean: real): real
    requires mean != 0.0
  {
    volume / mean
  }

  /** The close before the last bar's. */
  function PreviousClose(kept: seq<Bar>): Option<real>
    requires kept != [] && AllUsable(kept)
  {
    if |kept| == 1 then None else Some(Closes(kept)[|kept| - 2])
  }

  function DailyReturn(kept: seq<Bar>): Option<real>
    requires kept != [] && AllUsable(kept)
  {
    if |kept| == 1 then None else Some(Returns(Closes(kept))[|kept| - 2])
  }

  function LastReturns(dailyReturns: seq<real>): (last: seq<real>)
    requires |dailyReturns| >= 20
    ensures |last| == 20
  {
    dailyReturns[|dailyReturns| - 20..]
  }

  /** The deviation of the last 20 returns. */
  function Vol20(root: real -> real, kept: seq<Bar>): Option<real>
    requires kept != [] && AllUsable(kept)
  {
    if |kept| > 20 then Some(root(Variance(LastReturns(Returns(Closes(kept)))))) else None
  }

  /** The last volume over the mean of the 20 before it, when all of those are present. */
  function VolumeRatio20(kept: seq<Bar>): Option<real>
    requires kept != []
  {
    var volume, prior := kept[|kept| - 1].volume, Volumes(Last(kept[..|kept| - 1], 20));
    if |prior| == 20 && volume.Some? && Mean(prior) != 0.0 then Some(Ratio(volume.value, Mean(prior))) else None
  }

  /** The observation of the last bar of a history, computed directly from that history. */
  function At(root: real -> real, kept: seq<Bar>): Observation
    requires kept != [] && AllUsable(kept)
  {
    var bar, closes := kept[|kept| - 1], Closes(kept);
    Observation(
      bar.instrument, bar.session, Quality(bar), Provenance(bar), |kept|,
      DailyReturn(kept), Vol20(root, kept), VolumeRatio20(kept), bar.close.value,
      MeanOfLast(closes, 20), MeanOfLast(closes, 50), MeanOfLast(closes, 120),
      PreviousClose(kept), MeanOfLast(Closes(kept[..|kept| - 1]), 20),
      Rsi(closes), PercentB(root, closes), Modes(Last(kept, 120)))
  }

  function PercentB(root: real -> real, closes: seq<real>): Option<real> {
    if |closes| < 20 then None
    else Some(PercentBOf(Last(closes, 20), root(Variance(Last(closes, 20)))))
  }

  /** Every accepted bar observed against the accepted bars up to it. */
  function Observe(root: real -> real, kept: seq<Bar>): (observations: seq<Observation>)
    requires AllUsable(kept)
    ensures |observations| == |kept|
  {
    if kept == [] then [] else Observe(root, kept[..|kept| - 1]) + [At(root, kept)]
  }

  function Replayed(root: real -> real, bars: seq<Bar>): seq<Observation> {
    Observe(root, Accepted(bars))
  }

  // ---------------------------------------------------------- no look-ahead

  lemma {:induction false} AcceptedPrefix(bars: seq<Bar>, n: nat)
    requires n <= |bars|
    ensures Accepted(bars[..n]) <= Accepted(bars)
    decreases |bars|
  {
    if n == |bars| {
      assert bars[..n] == bars;
    } else {
      assert bars[..|bars| - 1][..n] == bars[..n];
      AcceptedPrefix(bars[..|bars| - 1], n);
    }
  }

  lemma {:induction false} ObserveAt(root: real -> real, kept: seq<Bar>, k: nat)
    requires AllUsable(kept) && k < |kept|
    ensures Observe(root, kept)[k] == At(root, kept[..k + 1])
    decreases |kept|
  {
    hide At;
    if k + 1 == |kept| {
      assert kept[..k + 1] == kept;
    } else {
      ObserveAt(root, kept[..|kept| - 1], k);
      assert kept[..|kept| - 1][..k + 1] == kept[..k + 1];
    }
  }

  /** Running on a prefix of an instrument's rows gives a prefix of its observations. */
  lemma NoLookAhead(root: real -> real, bars: seq<Bar>, n: nat)
    requires n <= |bars|
    ensures Replayed(root, bars[..n]) <= Replayed(root, bars)
  {
    hide At;
    AcceptedPrefix(bars, n);
    var short, long := Accepted(bars[..n]), Accepted(bars);
    forall k | 0 <= k < |short| ensures Observe(root, short)[k] == Observe(root, long)[k] {
      ObserveAt(root, short, k);
      ObserveAt(root, long, k);
      assert short[..k + 1] == long[..k + 1];
    }
  }

  /** Each observation's previous close and previous 20-bar mean are those the one before it published. */
  lemma PreviousValuesChain(root: real -> real, bars: seq<Bar>, k: nat)
    requires k < |Accepted(bars)|
    ensures var o := Replayed(root, bars);
            if k == 0 then o[0].previousClose == None && o[0].previousSma20 == None && o[0].dailyReturn == None
            else
              && o[k].previousClose == Some(o[k - 1].close) && o[k].previousSma20 == o[k - 1].sma20
              && o[k - 1].close > 0.0 && o[k].dailyReturn == Some(Return(o[k - 1].close, o[k].close))
  {
    hide At, Accepted;
    var kept := Accepted(bars);
    ObserveAt(root, kept, k);
    assert kept[..k + 1][..k] == kept[..k];
    if k > 0 { ObserveAt(root, kept, k - 1); }
    if k > 0 { AtChains(root, kept[..k + 1], kept[..k]); } else { AtFirst(root, kept[..1]); }
  }

  lemma AtFirst(root: real -> real, kept: seq<Bar>)
    requires |kept| == 1 && AllUsable(kept)
    ensures At(root, kept).previousClose == None && At(root, kept).previousSma20 == None && At(root, kept).dailyReturn == None
  {
    hide Rsi, PercentB, Vol20, VolumeRatio20, Modes, Quality, Provenance, Last, Mean;
  }

  lemma AtChains(root: real -> real, kept: seq<Bar>, front: seq<Bar>)
    requires |kept| > 1 && AllUsable(kept) && front == kept[..|kept| - 1] && AllUsable(front)
    ensures var o, before := At(root, kept), At(root, front);
            && o.previousClose == Some(before.close) && o.previousSma20 == before.sma20
            && before.close > 0.0 && o.dailyReturn == Some(Return(before.close, o.close))
  {
    hide Rsi, PercentB, Vol20, VolumeRatio20, Modes, Quality, Provenance, Last, Mean, Return;
  }

  lemma {:induction false} VolumesPresent(kept: seq<Bar>)
    ensures |Volumes(kept)| <= |kept|
    ensures |Volumes(kept)| == |kept| <==> forall i :: 0 <= i < |kept| ==> kept[i].volume.Some?
  {
    if kept != [] { VolumesPresent(kept[..|kept| - 1]); }
  }

  /** Which figures an observation carries: each exactly from its own number of bars on. */
  lemma FiguresPresent(root: real -> real, kept: seq<Bar>)
    requires kept != [] && AllUsable(kept)
    ensures var o, n := At(root, kept), |kept|;
            && (o.sma20.Some? <==> n >= 20) && (o.sma50.Some? <==> n >= 50) && (o.sma120.Some? <==> n >= 120)
            && (o.rsi14.Some? <==> n >= 15) && (o.percentB.Some? <==> n >= 20) && (o.vol20.Some? <==> n >= 21)
            && (o.previousSma20.Some? <==> n >= 21) && (o.dailyReturn.Some? <==> n >= 2)
  {
    hide Mean, Quality, Provenance, Modes, Return, Returns, Sum, Closes, RsiOf, PercentBOf, Variance, VolumeRatio20;
    hide Last, LastReturns, Window;
  }

  /**
   The volume ratio exists exactly when the twenty bars before the last all have volumes, not
   averaging zero, and the last bar has one.
   */
  lemma RatioPresent(kept: seq<Bar>)
    requires kept != []
    ensures var n, bar := |kept|, kept[|kept| - 1];
            VolumeRatio20(kept).Some? <==>
              && n >= 21 && bar.volume.Some? && (forall i :: n - 21 <= i < n - 1 ==> kept[i].volume.Some?)
              && Mean(Volumes(Last(kept[..n - 1], 20))) != 0.0
  {
    hide Mean, Ratio, Volumes;
    var n := |kept|;
    var before := Last(kept[..n - 1], 20);
    VolumesPresent(before);
    if n >= 21 {
      AllPresent(kept, before);
    }
  }

  lemma AllPresent(kept: seq<Bar>, before: seq<Bar>)
    requires |kept| >= 21 && before == Last(kept[..|kept| - 1], 20)
    ensures (forall i :: 0 <= i < |before| ==> before[i].volume.Some?) <==>
            forall i :: |kept| - 21 <= i < |kept| - 1 ==> kept[i].volume.Some?
  {
    var n := |kept|;
    assert forall i :: 0 <= i < 20 ==> before[i] == kept[n - 21 + i];
    if forall i :: 0 <= i < |before| ==> before[i].volume.Some? {
      forall i | n - 21 <= i < n - 1 ensures kept[i].volume.Some? { assert kept[i] == before[i - (n - 21)]; }
    }
  }

  function Growth(observations: seq<Observation>): real {
    if observations == [] then 1.0
    else
      var last := observations[|observations| - 1];
      Growth(observations[..|observations| - 1]) * if last.dailyReturn.Some? then 1.0 + last.dailyReturn.value else 1.0
  }

  /** The product of the returns telescopes to the last close over the first. */
  lemma {:induction false} GrowthTelescopes(root: real -> real, bars: seq<Bar>, n: nat)
    requires 0 < n <= |Accepted(bars)|
    ensures var o := Replayed(root, bars);
            o[0].close > 0.0 && Growth(o[..n]) == o[n - 1].close / o[0].close
    decreases n
  {
    hide At, Observe, Accepted;
    var o := Replayed(root, bars);
    PreviousValuesChain(root, bars, n - 1);
    assert o[..n][..n - 1] == o[..n - 1];
    FirstClose(root, bars);
    if n > 1 {
      GrowthTelescopes(root, bars, n - 1);
      Telescoped(o[0].close, o[n - 2].close, o[n - 1].close);
    } else {
      assert Growth(o[..0]) == 1.0;
      QuotientIs(o[0].close, o[0].close, 1.0);
    }
  }

  lemma FirstClose(root: real -> real, bars: seq<Bar>)
    requires Accepted(bars) != []
    ensures Replayed(root, bars)[0].close > 0.0
  {
    hide Rsi, PercentB, DailyReturn, Vol20, VolumeRatio20, PreviousClose, MeanOfLast;
    ObserveAt(root, Accepted(bars), 0);
  }

  lemma Telescoped(first: real, middle: real, last: real)
    requires first > 0.0 && middle > 0.0
    ensures (middle / first) * (1.0 + Return(middle, last)) == last / first
  {
    var r, q := middle / first, last / middle;
    assert Times(r, first) == middle && Times(q, middle) == last;
    Reorder(q, r, first);
    QuotientIs(last, first, q * r);
  }

  // ------------------------------------------------------------- lineage

  /**
   The lineage published with an observation is built from the reconstruction modes alone: two
   histories have the same lineage exactly when their last 120 bars agree on the mode.
   */
  lemma LineageSeesOnlyModes(root: real -> real, a: seq<Bar>, b: seq<Bar>)
    requires a != [] && b != [] && AllUsable(a) && AllUsable(b)
    ensures At(root, a).lineage == At(root, b).lineage <==>
              var x, y := Last(a, 120), Last(b, 120);
              |x| == |y| && forall i :: 0 <= i < |x| ==> x[i].mode == y[i].mode
  {
    hide Rsi, PercentB, DailyReturn, Vol20, VolumeRatio20, PreviousClose, MeanOfLast;
    var x, y := Modes(Last(a, 120)), Modes(Last(b, 120));
    if x == y {
      assert forall i :: 0 <= i < |x| ==> Last(a, 120)[i].mode == x[i] == y[i] == Last(b, 120)[i].mode;
    }
  }

  /** So a revised close with a new revision hash keeps the lineage it had before. */
  lemma RevisionKeepsLineage(root: real -> real)
    ensures exists a: seq<Bar>, b: seq<Bar> ::
              && |a| == |b| == 1 && AllUsable(a) && AllUsable(b)
              && a[0].revision != b[0].revision && At(root, a).close != At(root, b).close
              && At(root, a).lineage == At(root, b).lineage
  {
    var a := Bar("AAA", 1, Some(10.0), None, "pass", "operational_strict", "r1");
    var b := a.(close := Some(11.0), revision := "r2");
    assert "r1"[1] != "r2"[1];
    LineageSeesOnlyModes(root, [a], [b]);
    hide Rsi, PercentB, DailyReturn, Vol20, VolumeRatio20, PreviousClose, MeanOfLast;
    assert [a][0].revision != [b][0].revision && At(root, [a]).close != At(root, [b]).close;
  }

  // ---------------------------------------------------------- the loops

  function ReturnsSoFar(history: seq<Bar>): seq<real>
    requires AllUsable(history)
  {
    if history == [] then [] else Returns(Closes(history))
  }

  /** What the direct form reads off the longer history, from what was kept so far. */
  lemma ClosesStep(root: real -> real, history: seq<Bar>, bar: Bar)
    requires AllUsable(history) && Usable(bar)
    ensures var kept, priorCloses := history + [bar], Closes(history);
            && AllUsable(kept)
            && PreviousClose(kept) == (if history == [] then None else Some(priorCloses[|history| - 1]))
            && DailyReturn(kept) == (if history == [] then None else Some(Return(priorCloses[|history| - 1], bar.close.value)))
            && ReturnsSoFar(kept) == ReturnsSoFar(history) + (if DailyReturn(kept).Some? then [DailyReturn(kept).value] else [])
            && Vol20(root, kept) ==
                 if |ReturnsSoFar(kept)| >= 20 then Some(root(Variance(LastReturns(ReturnsSoFar(kept))))) else None
  {
    hide Variance, Return;
    Step(history, bar);
  }

  lemma VolumesStep(history: seq<Bar>, bar: Bar)
    ensures var kept, prior := history + [bar], Volumes(Last(history, 20));
            VolumeRatio20(kept) ==
              if bar.volume.Some? && |prior| == 20 && Mean(prior) != 0.0 && |kept| >= 20 then
                Some(Ratio(bar.volume.value, Mean(prior)))
              else None
  {
    hide Mean, Ratio;
    assert (history + [bar])[..|history|] == history;
    VolumesPresent(Last(history, 20));
  }

  /** The loop body for a usable bar: everything but the new bar comes from what was kept so far. */
  method Publish(root: real -> real, history: seq<Bar>, dailyReturns: seq<real>, bar: Bar)
    returns (published: Observation, extended: seq<real>)
    requires AllUsable(history) && Usable(bar) && dailyReturns == ReturnsSoFar(history)
    ensures AllUsable(history + [bar])
    ensures published == At(root, history + [bar]) && extended == ReturnsSoFar(history + [bar])
  {
    hide Rsi, PercentB, Variance, Mean, Volumes, Closes, Modes, Quality, Provenance, Return, Ratio;
    hide PreviousClose, DailyReturn, Vol20, VolumeRatio20, MeanOfLast, Last, ReturnsSoFar;
    ClosesStep(root, history, bar);
    VolumesStep(history, bar);
    var kept := history + [bar];
    assert kept[..|history|] == history;
    var close, priorCloses := bar.close.value, Closes(history);
    var previous := if history == [] then None else Some(priorCloses[|priorCloses| - 1]);
    var previousSma20 := MeanOfLast(priorCloses, 20);
    var prior := Volumes(Last(history, 20));
    var dailyReturn := if previous.None? then None else Some(Return(previous.value, close));
    extended := dailyReturns + if dailyReturn.Some? then [dailyReturn.value] else [];
    var closes := Closes(kept);
    var rsi := WilderRsi(closes);
    var ratio :=
      if bar.volume.Some? && |prior| == 20 && Mean(prior) != 0.0 && |kept| >= 20 then
        Some(Ratio(bar.volume.value, Mean(prior)))
      else None;
    var vol20 := if |extended| >= 20 then Some(root(Variance(LastReturns(extended)))) else None;
    published := Observation(
      bar.instrument, bar.session, Quality(bar), Provenance(bar), |kept|, dailyReturn, vol20, ratio, close,
      MeanOfLast(closes, 20), MeanOfLast(closes, 50), MeanOfLast(closes, 120),
      previous, previousSma20, rsi, PercentB(root, closes), Modes(Last(kept, 120)));
  }

  /** One instrument's loop: histories grow in step, and each bar is observed as it is appended. */
  method ReplayInstrument(root: real -> real, bars: seq<Bar>) returns (observations: seq<Observation>)
    ensures observations == Replayed(root, bars)
  {
    hide At, Returns, Closes;
    var history: seq<Bar>, dailyReturns: seq<real> := [], [];
    observations := [];
    var i := 0;
    while i < |bars|
      invariant 0 <= i <= |bars|
      invariant history == Accepted(bars[..i])
      invariant dailyReturns == ReturnsSoFar(history)
      invariant observations == Observe(root, history)
    {
      assert bars[..i + 1][..i] == bars[..i];
      if Usable(bars[i]) {
        var published, extended := Publish(root, history, dailyReturns, bars[i]);
        history, dailyReturns := history + [bars[i]], extended;
        assert history[..|history| - 1] == Accepted(bars[..i]);
        observations := observations + [published];
      }
      i := i + 1;
    }
    assert bars[..i] == bars;
  }

  lemma Step(history: seq<Bar>, bar: Bar)
    requires AllUsable(history) && Usable(bar)
    ensures AllUsable(history + [bar])
    ensures Closes(history + [bar]) == Closes(history) + [bar.close.value]
    ensures history != [] ==>
              Returns(Closes(history + [bar])) ==
                Returns(Closes(history)) + [Return(Closes(history)[|history| - 1], bar.close.value)]
    ensures history == [] ==> Returns(Closes(history + [bar])) == []
  {
    assert Closes(history + [bar]) == Closes(history) + [bar.close.value];
  }

  // ---------------------------------------------------- all instruments

  /** The rows of one instrument, in row order. */
  function Rows(bars: seq<Bar>, instrument: string): seq<Bar> {
    if bars == [] then []
    else
      var last := bars[|bars| - 1];
      Rows(bars[..|bars| - 1], instrument) + if last.instrument == instrument then [last] else []
  }

  /** The instruments one after the other, each replayed from its own rows. */
  function ReplayAll(root: real -> real, bars: seq<Bar>, instruments: seq<string>): seq<Observation> {
    if instruments == [] then []
    else
      var n := |instruments| - 1;
      ReplayAll(root, bars, instruments[..n]) + Replayed(root, Rows(bars, instruments[n]))
  }

  function Of(observations: seq<Observation>, subject: string): seq<Observation> {
    if observations == [] then []
    else
      var last := observations[|observations| - 1];
      Of(observations[..|observations| - 1], subject) + if last.subject == subject then [last] else []
  }

  lemma {:induction false} OfConcat(a: seq<Observation>, b: seq<Observation>, subject: string)
    ensures Of(a + b, subject) == Of(a, subject) + Of(b, subject)
    decreases |b|
  {
    if b == [] {
      assert a + b == a;
    } else {
      assert (a + b)[..|a + b| - 1] == a + b[..|b| - 1];
      OfConcat(a, b[..|b| - 1], subject);
    }
  }

  lemma {:induction false} OfUniform(observations: seq<Observation>, subject: string, instrument: string)
    requires forall i :: 0 <= i < |observations| ==> observations[i].subject == instrument
    ensures Of(observations, subject) == if subject == instrument then observations else []
  {
    if observations != [] { OfUniform(observations[..|observations| - 1], subject, instrument); }
  }

  lemma {:induction false} RowsOfOne(bars: seq<Bar>, instrument: string)
    ensures forall i :: 0 <= i < |Rows(bars, instrument)| ==> Rows(bars, instrument)[i].instrument == instrument
  {
    if bars != [] { RowsOfOne(bars[..|bars| - 1], instrument); }
  }

  lemma {:induction false} AcceptedOfOne(bars: seq<Bar>, instrument: string)
    requires forall i :: 0 <= i < |bars| ==> bars[i].instrument == instrument
    ensures forall i :: 0 <= i < |Accepted(bars)| ==> Accepted(bars)[i].instrument == instrument
  {
    if bars != [] { AcceptedOfOne(bars[..|bars| - 1], instrument); }
  }

  lemma SubjectOfOne(root: real -> real, bars: seq<Bar>, instrument: string)
    requires forall i :: 0 <= i < |bars| ==> bars[i].instrument == instrument
    ensures forall i :: 0 <= i < |Replayed(root, bars)| ==> Replayed(root, bars)[i].subject == instrument
  {
    hide Rsi, PercentB, DailyReturn, Vol20, VolumeRatio20, PreviousClose, MeanOfLast, Modes, Last;
    AcceptedOfOne(bars, instrument);
    forall i | 0 <= i < |Replayed(root, bars)| ensures Replayed(root, bars)[i].subject == instrument {
      ObserveAt(root, Accepted(bars), i);
    }
  }

  /** What is published for an instrument is its own replay: no other instrument's row enters it. */
  lemma {:induction false} OthersAreIrrelevant(root: real -> real, bars: seq<Bar>, instruments: seq<string>,
      subject: string)
    requires Distinct(instruments)
    ensures Of(ReplayAll(root, bars, instruments), subject) ==
            if subject in instruments then Replayed(root, Rows(bars, subject)) else []
  {
    hide Observe, Replayed, Of;
    if instruments == [] {
      OfUniform([], subject, subject);
    } else {
      var n := |instruments| - 1;
      var last := instruments[n];
      OthersAreIrrelevant(root, bars, instruments[..n], subject);
      RowsOfOne(bars, last);
      SubjectOfOne(root, Rows(bars, last), last);
      OfUniform(Replayed(root, Rows(bars, last)), subject, last);
      OfConcat(ReplayAll(root, bars, instruments[..n]), Replayed(root, Rows(bars, last)), subject);
    }
  }

  /** The keys of the grouping in the order they are visited. */
  ghost predicate Visits(instruments: seq<string>, bars: seq<Bar>) {
    Distinct(instruments) && forall name :: name in instruments <==> exists i :: 0 <= i < |bars| && bars[i].instrument == name
  }

  /** The grouping loop: every row under its instrument, in row order. */
  method GroupRows(bars: seq<Bar>) returns (grouped: map<string, seq<Bar>>)
    ensures forall name :: name in grouped <==> Rows(bars, name) != []
    ensures forall name :: name in grouped ==> grouped[name] == Rows(bars, name)
  {
    grouped := map[];
    var i := 0;
    while i < |bars|
      invariant 0 <= i <= |bars|
      invariant forall name :: name in grouped <==> Rows(bars[..i], name) != []
      invariant forall name :: name in grouped ==> grouped[name] == Rows(bars[..i], name)
    {
      assert bars[..i + 1][..i] == bars[..i];
      var name := bars[i].instrument;
      grouped := grouped[name := (if name in grouped then grouped[name] else []) + [bars[i]]];
      i := i + 1;
    }
    assert bars[..i] == bars;
  }

  lemma {:induction false} RowsPresent(bars: seq<Bar>, name: string)
    ensures Rows(bars, name) != [] <==> exists i :: 0 <= i < |bars| && bars[i].instrument == name
  {
    if bars != [] {
      var n := |bars| - 1;
      RowsPresent(bars[..n], name);
      if i :| 0 <= i < n && bars[i].instrument == name { assert bars[..n][i].instrument == name; }
    }
  }

  /** `load_price_replay_observations` after the query: group the rows, then run each instrument's loop. */
  method LoadPriceReplayObservations(root: real -> real, bars: seq<Bar>, instruments: seq<string>)
    returns (observations: seq<Observation>)
    requires Visits(instruments, bars)
    ensures observations == ReplayAll(root, bars, instruments)
  {
    hide Rows, Replayed;
    var grouped := GroupRows(bars);
    assert forall k :: 0 <= k < |instruments| ==> instruments[k] in grouped by {
      forall k | 0 <= k < |instruments| ensures instruments[k] in grouped {
        assert instruments[k] in instruments;
        RowsPresent(bars, instruments[k]);
      }
    }
    hide Visits;
    observations := [];
    var k := 0;
    while k < |instruments|
      invariant 0 <= k <= |instruments|
      invariant observations == ReplayAll(root, bars, instruments[..k])
    {
      assert instruments[..k + 1][..k] == instruments[..k];
      var published := ReplayInstrument(root, grouped[instruments[k]]);
      observations := observations + published;
      k := k + 1;
    }
    assert instruments[..k] == instruments;
  }
}
