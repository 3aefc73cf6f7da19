/**
 What the published figures of one instrument are, said of the published closes and returns and the
 accepted bars' volumes alone.
 */
module ReplayLaws {
  import opened Numbers
  import opened Replay
  import opened Signals
  import opened Wrappers

  /** The sum of the figures from position `i` up to `j`. */
  function RangeSum(xs: seq<real>, i: nat, j: nat): real
    requires i <= j <= |xs|
  {
    if i == j then 0.0 else RangeSum(xs, i, j - 1) + xs[j - 1]
  }

  /** The sum of their squared distances from `mean`. */
  function RangeSpread(xs: seq<real>, mean: real, i: nat, j: nat): real
    requires i <= j <= |xs|
  {
    if i == j then 0.0 else RangeSpread(xs, mean, i, j - 1) + (xs[j - 1] - mean) * (xs[j - 1] - mean)
  }

  function PublishedCloses(o: seq<Observation>): (closes: seq<real>)
    ensures |closes| == |o|
  {
    seq(|o|, i requires 0 <= i < |o| => o[i].close)
  }

  /** The published returns; the first observation has none. */
  function PublishedReturns(o: seq<Observation>): (dailyReturns: seq<real>)
    ensures |dailyReturns| == |o|
  {
    seq(|o|, i requires 0 <= i < |o| => if o[i].dailyReturn.Some? then o[i].dailyReturn.value else 0.0)
  }

  function Sma(o: Observation, n: nat): Option<real> {
    if n == 20 then o.sma20 else if n == 50 then o.sma50 else o.sma120
  }

  lemma {:induction false} RangeSumIs(xs: seq<real>, i: nat, j: nat)
    requires i <= j <= |xs|
    ensures RangeSum(xs, i, j) == Sum(xs[i..j])
    decreases j
  {
    if i < j {
      RangeSumIs(xs, i, j - 1);
      assert xs[i..j][..j - 1 - i] == xs[i..j - 1];
    }
  }

  lemma {:induction false} RangeSpreadIs(xs: seq<real>, mean: real, i: nat, j: nat)
    requires i <= j <= |xs|
    ensures RangeSpread(xs, mean, i, j) == Sum(Squares(Deviations(xs[i..j], mean)))
    decreases j
  {
    if i < j {
      RangeSpreadIs(xs, mean, i, j - 1);
      var ys, before := Squares(Deviations(xs[i..j], mean)), Squares(Deviations(xs[i..j - 1], mean));
      assert ys[..j - 1 - i] == before;
      assert ys[j - 1 - i] == Square(xs[j - 1] - mean);
    }
  }

  /** `n` times the mean is the total. */
  predicate IsMean(mean: real, total: real, n: nat) {
    n as real * mean == total
  }

  lemma MeanIs(xs: seq<real>, n: nat)
    requires |xs| == n > 0
    ensures IsMean(Mean(xs), Sum(xs), n)
  {
    var m, s := Mean(xs), Sum(xs);
    assert m == s / n as real;
    Quotient(s, n as real);
  }

  lemma Quotient(a: real, b: real)
    requires b > 0.0
    ensures b * (a / b) == a
  {
  }

  lemma VarianceIs(xs: seq<real>, n: nat)
    requires |xs| == n > 0
    ensures IsMean(Variance(xs), Sum(Squares(Deviations(xs, Mean(xs)))), n)
  {
    hide Mean, Sum;
    Quotient(Sum(Squares(Deviations(xs, Mean(xs)))), n as real);
  }

  /** The `k`-th observation of a history, its close, and the closes up to it. */
  lemma ObservedAt(root: real -> real, kept: seq<Bar>, k: nat)
    requires AllUsable(kept) && k < |kept|
    ensures Observe(root, kept)[k] == At(root, kept[..k + 1]) && Observe(root, kept)[k].close == Closes(kept)[k]
    ensures Closes(kept[..k + 1]) == Closes(kept)[..k + 1]
  {
    hide At, Observe, Closes;
    ObserveAt(root, kept, k);
    CloseAt(root, kept[..k + 1]);
    assert kept[..k + 1][k] == kept[k];
  }

  lemma CloseAt(root: real -> real, kept: seq<Bar>)
    requires kept != [] && AllUsable(kept)
    ensures At(root, kept).close == kept[|kept| - 1].close.value
  {
    hide MeanOfLast, Rsi, PercentB, Vol20, VolumeRatio20, DailyReturn, PreviousClose, Quality, Provenance, Modes, Last;
  }

  /** The closes published are those of the accepted bars. */
  lemma ClosesPublished(root: real -> real, kept: seq<Bar>)
    requires AllUsable(kept)
    ensures PublishedCloses(Observe(root, kept)) == Closes(kept)
  {
    hide At, Closes;
    var o := Observe(root, kept);
    hide Observe;
    forall k | 0 <= k < |kept| ensures PublishedCloses(o)[k] == Closes(kept)[k] {
      ObservedAt(root, kept, k);
    }
  }

  /** Each n-bar mean is the sum of the last n published closes over n, from the n-th bar on. */
  lemma MeansAreMeans(root: real -> real, bars: seq<Bar>, k: nat, n: nat)
    requires k < |Accepted(bars)| && n in {20, 50, 120}
    ensures var o := Replayed(root, bars);
            && (Sma(o[k], n).Some? <==> k + 1 >= n)
            && (k + 1 >= n ==> IsMean(Sma(o[k], n).value, RangeSum(PublishedCloses(o), k + 1 - n, k + 1), n))
  {
    hide Accepted, At, Observe, Closes, Mean, Sum, RangeSum, IsMean, PublishedCloses;
    var kept := Accepted(bars);
    ObservedAt(root, kept, k);
    ClosesPublished(root, kept);
    SmaAt(root, kept[..k + 1], n);
    hide Sma;
    if k + 1 >= n {
      var closes := Closes(kept);
      var window := closes[k + 1 - n..k + 1];
      assert closes[..k + 1][k + 1 - n..] == window;
      RangeSumIs(closes, k + 1 - n, k + 1);
      MeanIs(window, n);
    }
  }

  lemma SmaAt(root: real -> real, kept: seq<Bar>, n: nat)
    requires kept != [] && AllUsable(kept) && n in {20, 50, 120}
    ensures Sma(At(root, kept), n) == if |kept| >= n then Some(Mean(Closes(kept)[|kept| - n..])) else None
  {
    hide Mean, Rsi, PercentB, Vol20, VolumeRatio20, DailyReturn, PreviousClose, Closes, Quality, Provenance, Modes;
  }

  /** From one bar to the next the mean moves by the close that enters less the close that leaves, over n. */
  lemma MeansMove(root: real -> real, bars: seq<Bar>, k: nat, n: nat)
    requires n <= k < |Accepted(bars)| && n in {20, 50, 120}
    ensures var o := Replayed(root, bars);
            && Sma(o[k], n).Some? && Sma(o[k - 1], n).Some?
            && IsMean(Sma(o[k], n).value - Sma(o[k - 1], n).value, o[k].close - o[k - n].close, n)
  {
    hide Accepted, Replayed, Sma, IsMean, RangeSum;
    var o := Replayed(root, bars);
    assert |o| == |Accepted(bars)| by { ReplayedSize(root, bars); }
    MeansAreMeans(root, bars, k, n);
    MeansAreMeans(root, bars, k - 1, n);
    var xs := PublishedCloses(o);
    SumFirst(xs, k - n, k);
    SumLast(xs, k + 1 - n, k + 1);
    MeanDifference(Sma(o[k], n).value, Sma(o[k - 1], n).value, RangeSum(xs, k + 1 - n, k + 1), RangeSum(xs, k - n, k), n);
  }

  lemma ReplayedSize(root: real -> real, bars: seq<Bar>)
    ensures |Replayed(root, bars)| == |Accepted(bars)|
  {
    hide Accepted, Observe;
  }

  lemma MeanDifference(a: real, b: real, x: real, y: real, n: nat)
    requires IsMean(a, x, n) && IsMean(b, y, n)
    ensures IsMean(a - b, x - y, n)
  {
  }

  lemma SumLast(xs: seq<real>, i: nat, j: nat)
    requires i < j <= |xs|
    ensures RangeSum(xs, i, j) == RangeSum(xs, i, j - 1) + xs[j - 1]
  {
  }

  lemma {:induction false} SumFirst(xs: seq<real>, i: nat, j: nat)
    requires i < j <= |xs|
    ensures RangeSum(xs, i, j) == xs[i] + RangeSum(xs, i + 1, j)
    decreases j
  {
    if i + 1 < j { SumFirst(xs, i, j - 1); }
  }

  /** The returns published from the second observation on are those of the accepted closes. */
  lemma ReturnsPublished(root: real -> real, kept: seq<Bar>)
    requires AllUsable(kept) && kept != []
    ensures PublishedReturns(Observe(root, kept))[1..] == Returns(Closes(kept))
  {
    hide At, Closes, Observe, Return, Returns;
    var published := PublishedReturns(Observe(root, kept));
    forall k | 1 <= k < |kept| ensures published[k] == Returns(Closes(kept))[k - 1] {
      ObservedAt(root, kept, k);
      ReturnAt(root, kept[..k + 1]);
      ReturnsUpTo(Closes(kept), k + 1);
    }
  }

  lemma ReturnAt(root: real -> real, kept: seq<Bar>)
    requires |kept| > 1 && AllUsable(kept)
    ensures At(root, kept).dailyReturn == Some(Returns(Closes(kept))[|kept| - 2])
  {
    hide MeanOfLast, Rsi, PercentB, Vol20, VolumeRatio20, PreviousClose, Quality, Provenance, Modes, Closes, Returns;
  }

  lemma ReturnsUpTo(closes: seq<real>, n: nat)
    requires 0 < n <= |closes| && forall i :: 0 <= i < |closes| ==> closes[i] > 0.0
    ensures Returns(closes[..n]) == Returns(closes)[..n - 1]
  {
    hide Return;
  }

  /**
   The volatility is the root of the population variance of the last 20 published returns, from the
   21st bar on: of their mean squared distance from their mean.
   */
  lemma VolIsDeviation(root: real -> real, bars: seq<Bar>, k: nat) returns (mean: real, variance: real)
    requires k < |Accepted(bars)|
    ensures var o := Replayed(root, bars);
            && (o[k].vol20.Some? <==> k >= 20)
            && (k >= 20 ==>
                  && IsMean(mean, RangeSum(PublishedReturns(o), k - 19, k + 1), 20)
                  && IsMean(variance, RangeSpread(PublishedReturns(o), mean, k - 19, k + 1), 20)
                  && o[k].vol20 == Some(root(variance)))
  {
    hide Accepted, At, Observe, Closes, Mean, Sum, Variance, RangeSum, RangeSpread, IsMean, PublishedReturns, Returns;
    var kept := Accepted(bars);
    ObservedAt(root, kept, k);
    VolAt(root, kept[..k + 1]);
    mean, variance := 0.0, 0.0;
    if k >= 20 {
      var published := PublishedReturns(Observe(root, kept));
      var xs := published[k - 19..k + 1];
      LastReturnsAre(root, kept, k);
      mean, variance := Mean(xs), Variance(xs);
      MeanIs(xs, 20);
      VarianceIs(xs, 20);
      RangeSumIs(published, k - 19, k + 1);
      RangeSpreadIs(published, mean, k - 19, k + 1);
    }
  }

  lemma VolAt(root: real -> real, kept: seq<Bar>)
    requires kept != [] && AllUsable(kept)
    ensures At(root, kept).vol20 ==
            if |kept| > 20 then Some(root(Variance(Returns(Closes(kept))[|kept| - 21..]))) else None
  {
    hide Variance, Rsi, PercentB, VolumeRatio20, DailyReturn, PreviousClose, Closes, Returns, MeanOfLast, Quality, Provenance;
    hide Modes;
  }

  lemma LastReturnsAre(root: real -> real, kept: seq<Bar>, k: nat)
    requires AllUsable(kept) && 20 <= k < |kept|
    ensures PublishedReturns(Observe(root, kept))[k - 19..k + 1] == Returns(Closes(kept[..k + 1]))[k - 20..]
  {
    hide At, Closes, Observe, PublishedReturns, Returns;
    ReturnsPublished(root, kept);
    ObservedAt(root, kept, k);
    var published, closes := PublishedReturns(Observe(root, kept)), Closes(kept);
    ReturnsUpTo(closes, k + 1);
    assert published[1..][k - 20..k] == published[k - 19..k + 1];
    assert Returns(closes)[..k][k - 20..] == Returns(closes)[k - 20..k];
  }

  /**
   The %b places the close between two deviations below and above the published 20-bar mean, the
   deviation being the root of the closes' population variance; with no room between, it is a half.
   */
  lemma PercentBPlacesClose(root: real -> real, bars: seq<Bar>, k: nat) returns (variance: real)
    requires k < |Accepted(bars)|
    ensures var o := Replayed(root, bars);
            && (o[k].percentB.Some? <==> k >= 19)
            && (k >= 19 ==>
                  && o[k].sma20.Some?
                  && IsMean(variance, RangeSpread(PublishedCloses(o), o[k].sma20.value, k - 19, k + 1), 20)
                  && Places(o[k].percentB.value, o[k].close, o[k].sma20.value, root(variance)))
  {
    hide Accepted, At, Observe, Closes, Mean, Sum, Variance, RangeSpread, IsMean, PublishedCloses, PercentBOf, Places;
    var kept := Accepted(bars);
    ObservedAt(root, kept, k);
    PercentBAt(root, kept[..k + 1]);
    SmaAt(root, kept[..k + 1], 20);
    ClosesPublished(root, kept);
    variance := 0.0;
    if k >= 19 {
      var closes := Closes(kept);
      var window := closes[k - 19..k + 1];
      assert closes[..k + 1][k - 19..] == window && window[19] == closes[k];
      variance := Variance(window);
      VarianceIs(window, 20);
      RangeSpreadIs(closes, Mean(window), k - 19, k + 1);
      PercentBPlaces(window, root(variance));
    }
  }

  /** `share` of the way from two deviations below the mean to two above it lies the close. */
  predicate Places(share: real, close: real, mean: real, sd: real) {
    if sd == 0.0 then share == 0.5 else share * (4.0 * sd) == close - (mean - 2.0 * sd)
  }

  lemma PercentBAt(root: real -> real, kept: seq<Bar>)
    requires kept != [] && AllUsable(kept)
    ensures At(root, kept).percentB ==
            if |kept| < 20 then None
            else Some(PercentBOf(Closes(kept)[|kept| - 20..], root(Variance(Closes(kept)[|kept| - 20..]))))
  {
    hide Variance, Rsi, VolumeRatio20, DailyReturn, PreviousClose, Closes, Vol20, MeanOfLast, PercentBOf, Quality, Provenance;
    hide Modes;
  }

  lemma PercentBPlaces(window: seq<real>, sd: real)
    requires |window| == 20
    ensures Places(PercentBOf(window, sd), window[19], Mean(window), sd)
  {
    hide Mean;
    var lower, upper := Mean(window) - 2.0 * sd, Mean(window) + 2.0 * sd;
    assert upper - lower == 4.0 * sd;
    if sd != 0.0 { Fraction(window[19] - lower, 4.0 * sd); }
  }

  lemma Fraction(a: real, b: real)
    requires b != 0.0
    ensures (a / b) * b == a
  {
  }

  /** The sum of the volumes of the bars from `i` up to `j`, absent ones counting nothing. */
  function VolumeSum(kept: seq<Bar>, i: nat, j: nat): real
    requires i <= j <= |kept|
  {
    if i == j then 0.0 else VolumeSum(kept, i, j - 1) + if kept[j - 1].volume.Some? then kept[j - 1].volume.value else 0.0
  }

  lemma {:induction false} VolumeSumIs(kept: seq<Bar>, i: nat, j: nat)
    requires i <= j <= |kept|
    ensures VolumeSum(kept, i, j) == Sum(Volumes(kept[i..j]))
    decreases j
  {
    if i < j {
      VolumeSumIs(kept, i, j - 1);
      assert kept[i..j][..j - 1 - i] == kept[i..j - 1];
      var before, last := Volumes(kept[i..j - 1]), kept[j - 1];
      assert kept[i..j][j - 1 - i] == last;
      if last.volume.Some? { assert (before + [last.volume.value])[..|before|] == before; } else { assert before + [] == before; }
    }
  }

  /**
   The volume ratio is there exactly when the bar has a volume and so have the 20 bars before it,
   not adding up to zero, and then it is 20 times the volume over their sum.
   */
  lemma RatioIsShare(root: real -> real, bars: seq<Bar>, k: nat)
    requires k < |Accepted(bars)|
    ensures var o, kept := Replayed(root, bars), Accepted(bars);
            && (o[k].volumeRatio20.Some? <==>
                  && k >= 20 && kept[k].volume.Some? && (forall i :: k - 20 <= i < k ==> kept[i].volume.Some?)
                  && VolumeSum(kept, k - 20, k) != 0.0)
            && (o[k].volumeRatio20.Some? ==>
                  k >= 20 && kept[k].volume.Some?
                  && o[k].volumeRatio20.value * VolumeSum(kept, k - 20, k) == 20.0 * kept[k].volume.value)
  {
    hide Accepted, At, Observe, Mean, Sum, Volumes, VolumeSum;
    var kept := Accepted(bars);
    ObserveAt(root, kept, k);
    RatioAt(root, kept[..k + 1]);
    RatioPresent(kept[..k + 1]);
    if k >= 20 {
      var before := kept[k - 20..k];
      assert kept[..k + 1][..k] == kept[..k] && Last(kept[..k], 20) == before;
      VolumeSumIs(kept, k - 20, k);
      VolumesPresent(before);
      RatioOf(kept[..k + 1], before);
      forall i | k - 20 <= i < k ensures kept[..k + 1][i] == kept[i] == before[i - (k - 20)] {}
    }
  }

  lemma RatioAt(root: real -> real, kept: seq<Bar>)
    requires kept != [] && AllUsable(kept)
    ensures At(root, kept).volumeRatio20 == VolumeRatio20(kept)
  {
    hide MeanOfLast, Rsi, PercentB, Vol20, VolumeRatio20, DailyReturn, PreviousClose, Quality, Provenance, Modes, Closes;
  }

  /** A mean of twenty vanishes with its sum, and a ratio to it is twenty times the ratio to the sum. */
  lemma RatioOf(kept: seq<Bar>, before: seq<Bar>)
    requires |kept| >= 21 && before == Last(kept[..|kept| - 1], 20)
    ensures |Volumes(before)| == 20 ==> (Mean(Volumes(before)) == 0.0 <==> Sum(Volumes(before)) == 0.0)
    ensures VolumeRatio20(kept).Some? ==>
              kept[|kept| - 1].volume.Some?
              && VolumeRatio20(kept).value * Sum(Volumes(before)) == 20.0 * kept[|kept| - 1].volume.value
  {
    hide Volumes, Sum;
    var xs := Volumes(before);
    if |xs| == 20 {
      MeanIs(xs, 20);
      if VolumeRatio20(kept).Some? {
        Fraction(kept[|kept| - 1].volume.value, Mean(xs));
        Scale(VolumeRatio20(kept).value, Mean(xs));
      }
    }
  }

  lemma Scale(a: real, b: real)
    ensures a * (20.0 * b) == 20.0 * (a * b)
  {
  }

  /** The index of every observation is that of the published closes up to it. */
  lemma RsiOfCloses(root: real -> real, bars: seq<Bar>, k: nat)
    requires k < |Accepted(bars)|
    ensures var o := Replayed(root, bars); o[k].rsi14 == Rsi(PublishedCloses(o)[..k + 1])
  {
    hide Accepted, At, Observe, Closes, Rsi, PublishedCloses;
    var kept := Accepted(bars);
    ObservedAt(root, kept, k);
    ClosesPublished(root, kept);
    RsiAt(root, kept[..k + 1]);
  }

  lemma RsiAt(root: real -> real, kept: seq<Bar>)
    requires kept != [] && AllUsable(kept)
    ensures At(root, kept).rsi14 == Rsi(Closes(kept))
  {
    hide MeanOfLast, Rsi, PercentB, Vol20, VolumeRatio20, DailyReturn, PreviousClose, Quality, Provenance, Modes, Closes;
  }

  /** What an observation takes over from its bar, and how its mode is published. */
  ghost predicate Describes(o: Observation, bar: Bar, count: nat) {
    && o.subject == bar.instrument && o.session == bar.session && o.validBars == count
    && (o.provenance == "historical_live" <==> bar.mode == "operational_strict")
    && (o.provenance == "retrospective_reconstructed" <==> bar.mode != "operational_strict")
    && o.quality == if bar.mode in {"operational_strict", "retrospective_reconstructed"} then bar.quality
                    else "unsupported_reconstruction_mode"
  }

  lemma ObservationsDescribeBars(root: real -> real, bars: seq<Bar>, k: nat)
    requires k < |Accepted(bars)|
    ensures Describes(Replayed(root, bars)[k], Accepted(bars)[k], k + 1)
  {
    hide Accepted, At, Observe, Describes;
    ObserveAt(root, Accepted(bars), k);
    DescribedAt(root, Accepted(bars)[..k + 1]);
  }

  lemma DescribedAt(root: real -> real, kept: seq<Bar>)
    requires kept != [] && AllUsable(kept)
    ensures Describes(At(root, kept), kept[|kept| - 1], |kept|)
  {
    hide MeanOfLast, Rsi, PercentB, Vol20, VolumeRatio20, DailyReturn, PreviousClose, Modes, Closes;
    assert "historical_live"[0] != "retrospective_reconstructed"[0];
  }

  /** A further bar with a positive close adds one observation of it at the end; any other bar changes nothing. */
  lemma FurtherBar(root: real -> real, bars: seq<Bar>, bar: Bar)
    ensures Replayed(root, []) == []
    ensures var o, o' := Replayed(root, bars), Replayed(root, bars + [bar]);
            if bar.close.None? || bar.close.value <= 0.0 then o' == o
            else |o'| == |o| + 1 && o <= o' && o'[|o|].close == bar.close.value && o'[|o|].session == bar.session
  {
    hide At;
    AcceptedMore(bars, bar);
    NothingObserved(root);
    var kept := Accepted(bars);
    hide Accepted, Observe;
    if Usable(bar) {
      ObserveMore(root, kept, bar);
      ObservationsDescribeBars(root, bars + [bar], |kept|);
      ObservedAt(root, kept + [bar], |kept|);
    } else {
      assert kept + [] == kept;
    }
  }

  lemma NothingObserved(root: real -> real)
    ensures Observe(root, []) == []
  {
  }

  lemma AcceptedMore(bars: seq<Bar>, bar: Bar)
    ensures Accepted([]) == []
    ensures Accepted(bars + [bar]) == Accepted(bars) + if Usable(bar) then [bar] else []
  {
    assert (bars + [bar])[..|bars|] == bars;
  }

  lemma ObserveMore(root: real -> real, kept: seq<Bar>, bar: Bar)
    requires AllUsable(kept + [bar]) && AllUsable(kept)
    ensures Observe(root, kept + [bar]) == Observe(root, kept) + [At(root, kept + [bar])]
  {
    assert (kept + [bar])[..|kept|] == kept;
    hide At;
  }
}
