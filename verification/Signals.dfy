/**
 Signal arithmetic over exact reals: Wilder RSI over the last 120 closes and the Bollinger
 %b of the last 20. The square root is any non-negative value whose square is the variance.
 */
module Signals {
  import opened Numbers
  import opened Wrappers

  function Mean(xs: seq<real>): real
    requires xs != []
  {
    Sum(xs) / |xs| as real
  }

  function Times(a: real, b: real): real {
    a * b
  }

  function Last<T>(xs: seq<T>, n: nat): seq<T> {
    if |xs| <= n then xs else xs[|xs| - n..]
  }

  function Changes(closes: seq<real>): (changes: seq<real>)
    requires closes != []
    ensures |changes| == |closes| - 1
  {
    seq(|closes| - 1, i requires 0 <= i < |closes| - 1 => closes[i + 1] - closes[i])
  }

  function Gains(changes: seq<real>): (gains: seq<real>)
    ensures |gains| == |changes|
  {
    seq(|changes|, i requires 0 <= i < |changes| => Max(changes[i], 0.0))
  }

  function Losses(changes: seq<real>): (losses: seq<real>)
    ensures |losses| == |changes|
  {
    seq(|changes|, i requires 0 <= i < |changes| => Max(-changes[i], 0.0))
  }

  // ---------------------------------------------------------------- RSI

  /** Wilder's average: the mean of the first 14, then each value blended in at one part in 14. */
  function Smoothed(xs: seq<real>): real
    requires |xs| >= 14
  {
    if |xs| == 14 then Sum(xs) / 14.0
    else Blend(Smoothed(xs[..|xs| - 1]), xs[|xs| - 1])
  }

  function Blend(average: real, x: real): real {
    (average * 13.0 + x) / 14.0
  }

  function Strength(averageGain: real, averageLoss: real): real
    requires averageGain >= 0.0 && averageLoss >= 0.0
  {
    if averageGain == 0.0 && averageLoss == 0.0 then 50.0
    else if averageLoss == 0.0 then 100.0
    else StrengthRatio(averageGain, averageLoss)
  }

  function StrengthRatio(averageGain: real, averageLoss: real): real
    requires averageGain >= 0.0 && averageLoss > 0.0
  {
    assert averageGain / averageLoss >= 0.0 by { QuotientSign(averageGain, averageLoss); }
    100.0 - 100.0 / (1.0 + averageGain / averageLoss)
  }

  lemma QuotientSign(a: real, b: real)
    requires a >= 0.0 && b > 0.0
    ensures a / b >= 0.0
  {
    var q := a / b;
    assert q * b == a;
    if q < 0.0 { ProductSign(-q, b); }
  }

  lemma ProductSign(a: real, b: real)
    requires a > 0.0 && b > 0.0
    ensures Times(a, b) > 0.0
  {
  }

  /** A fourteenth of `d`, decayed `bars` times by 13 parts in 14. */
  function Share(d: real, bars: nat): real {
    if bars == 0 then d / 14.0 else Share(d, bars - 1) * 13.0 / 14.0
  }

  lemma {:induction false} SumOfChanged(xs: seq<real>, k: nat, d: real)
    requires k < |xs|
    ensures Sum(xs[k := xs[k] + d]) == Sum(xs) + d
  {
    var n := |xs| - 1;
    assert k == n ==> xs[k := xs[k] + d][..n] == xs[..n];
    if k < n {
      assert xs[k := xs[k] + d][..n] == xs[..n][k := xs[k] + d];
      SumOfChanged(xs[..n], k, d);
    }
  }

  /**
   What one value weighs in the average: the first 14 a fourteenth each, every later one a fourteenth
   when it comes, and all of it decays by 13 parts in 14 with each value after.
   */
  lemma {:induction false} WeightOfOne(xs: seq<real>, k: nat, d: real)
    requires |xs| >= 14 && k < |xs|
    ensures Smoothed(xs[k := xs[k] + d]) == Smoothed(xs) + Share(d, if k < 14 then |xs| - 14 else |xs| - 1 - k)
  {
    var ys := xs[k := xs[k] + d];
    if |xs| == 14 {
      SumOfChanged(xs, k, d);
    } else {
      var n := |xs| - 1;
      if k == n {
        assert ys[..n] == xs[..n];
      } else {
        assert ys[..n] == xs[..n][k := xs[k] + d];
        WeightOfOne(xs[..n], k, d);
      }
    }
  }

  /** Without any movement the average is zero, so those weights are all there is to it. */
  lemma {:induction false} NothingMoved(xs: seq<real>)
    requires |xs| >= 14 && forall i :: 0 <= i < |xs| ==> xs[i] == 0.0
    ensures Smoothed(xs) == 0.0
  {
    if |xs| == 14 { SumOfNothing(xs); } else { NothingMoved(xs[..|xs| - 1]); }
  }

  lemma {:induction false} SumOfNothing(xs: seq<real>)
    requires forall i :: 0 <= i < |xs| ==> xs[i] == 0.0
    ensures Sum(xs) == 0.0
  {
    if xs != [] { SumOfNothing(xs[..|xs| - 1]); }
  }

  lemma Reorder(a: real, b: real, c: real)
    ensures Times(a * b, c) == Times(a, b * c) == Times(b, a * c)
  {
  }

  lemma QuotientIs(a: real, b: real, q: real)
    requires b != 0.0 && Times(q, b) == a
    ensures a / b == q
  {
    assert (a / b) * b == a;
    assert (q - a / b) * b == 0.0;
  }

  /** The window the index looks at, when there is one. */
  function Window(closes: seq<real>): seq<real> {
    Last(closes, 120)
  }

  function RsiOf(window: seq<real>): real
    requires |window| >= 15
  {
    var changes := Changes(window);
    SmoothedSign(Gains(changes));
    SmoothedSign(Losses(changes));
    Strength(Smoothed(Gains(changes)), Smoothed(Losses(changes)))
  }

  function Rsi(closes: seq<real>): Option<real> {
    if |closes| < 15 then None else Some(RsiOf(Window(closes)))
  }

  ghost predicate NonNegative(xs: seq<real>) {
    forall i :: 0 <= i < |xs| ==> xs[i] >= 0.0
  }

  ghost predicate AllZero(xs: seq<real>) {
    forall i :: 0 <= i < |xs| ==> xs[i] == 0.0
  }

  lemma {:induction false} SumSign(xs: seq<real>)
    requires NonNegative(xs)
    ensures Sum(xs) >= 0.0 && (Sum(xs) == 0.0 <==> AllZero(xs))
  {
    if xs != [] {
      var n := |xs| - 1;
      SumSign(xs[..n]);
      assert AllZero(xs) <==> AllZero(xs[..n]) && xs[n] == 0.0 by {
        if AllZero(xs[..n]) && xs[n] == 0.0 {
          forall i | 0 <= i < |xs| ensures xs[i] == 0.0 { if i < n { assert xs[..n][i] == 0.0; } }
        }
      }
    }
  }

  /** A smoothed average of non-negative values is zero only when every one of them is. */
  lemma {:induction false} SmoothedSign(xs: seq<real>)
    requires |xs| >= 14 && NonNegative(xs)
    ensures Smoothed(xs) >= 0.0 && (Smoothed(xs) == 0.0 <==> AllZero(xs))
    decreases |xs|
  {
    if |xs| == 14 {
      SumSign(xs);
    } else {
      var n := |xs| - 1;
      SmoothedSign(xs[..n]);
      assert AllZero(xs) <==> AllZero(xs[..n]) && xs[n] == 0.0 by {
        if AllZero(xs[..n]) && xs[n] == 0.0 {
          forall i | 0 <= i < |xs| ensures xs[i] == 0.0 { if i < n { assert xs[..n][i] == 0.0; } }
        }
      }
    }
  }

  ghost predicate Rises(window: seq<real>) {
    exists i :: 0 <= i < |window| - 1 && window[i] < window[i + 1]
  }

  ghost predicate Falls(window: seq<real>) {
    exists i :: 0 <= i < |window| - 1 && window[i] > window[i + 1]
  }

  lemma SomeGain(window: seq<real>)
    requires |window| >= 15
    ensures AllZero(Gains(Changes(window))) <==> !Rises(window)
  {
    var gains := Gains(Changes(window));
    if Rises(window) {
      var i :| 0 <= i < |window| - 1 && window[i] < window[i + 1];
      assert gains[i] > 0.0;
    }
  }

  lemma SomeLoss(window: seq<real>)
    requires |window| >= 15
    ensures AllZero(Losses(Changes(window))) <==> !Falls(window)
  {
    var losses := Losses(Changes(window));
    if Falls(window) {
      var i :| 0 <= i < |window| - 1 && window[i] > window[i + 1];
      assert losses[i] > 0.0;
    }
  }

  lemma AveragesMean(window: seq<real>)
    requires |window| >= 15
    ensures var g, l := Smoothed(Gains(Changes(window))), Smoothed(Losses(Changes(window)));
            g >= 0.0 && l >= 0.0 && (g > 0.0 <==> Rises(window)) && (l > 0.0 <==> Falls(window))
  {
    SomeGain(window);
    SomeLoss(window);
    hide Smoothed, AllZero, Rises, Falls;
    SmoothedSign(Gains(Changes(window)));
    SmoothedSign(Losses(Changes(window)));
  }

  /** Where the averages are not both zero, the index is the gains' share of all movement. */
  lemma StrengthIsShare(g: real, l: real)
    requires g >= 0.0 && l >= 0.0 && g + l > 0.0
    ensures Strength(g, l) == 100.0 * (g / (g + l))
  {
    if l == 0.0 {
      assert g / g == 1.0;
    } else {
      QuotientSign(g, l);
      var q := g / l;
      assert q * l == g;
      assert (1.0 + q) * l == g + l;
      Reciprocal(1.0 + q, l, g + l);
      ShareComplement(g, l);
    }
  }

  lemma Reciprocal(a: real, b: real, c: real)
    requires a > 0.0 && b > 0.0 && c > 0.0 && a * b == c
    ensures 100.0 / a == 100.0 * (b / c)
  {
    var r := b / c;
    assert Times(r, c) == b;
    assert Times(r, c) == Times(r, a * b);
    Reorder(r, a, b);
    assert Times(r * a, b) == Times(r, a * b);
    QuotientIs(b, b, r * a);
    Reorder(100.0, r, a);
    QuotientIs(100.0, a, 100.0 * r);
  }

  lemma ShareComplement(g: real, l: real)
    requires g >= 0.0 && l >= 0.0 && g + l > 0.0
    ensures g / (g + l) + l / (g + l) == 1.0
    ensures 0.0 <= g / (g + l) <= 1.0
  {
    QuotientSign(g, g + l);
    QuotientSign(l, g + l);
  }

  /** RSI always lies in [0, 100] and exists exactly from the fifteenth close on. */
  lemma RsiInRange(closes: seq<real>)
    ensures Rsi(closes).Some? <==> |closes| >= 15
    ensures Rsi(closes).Some? ==> 0.0 <= Rsi(closes).value <= 100.0
  {
    if |closes| >= 15 {
      var w := Window(closes);
      var g, l := Smoothed(Gains(Changes(w))), Smoothed(Losses(Changes(w)));
      AveragesMean(w);
      if g + l > 0.0 { StrengthIsShare(g, l); ShareComplement(g, l); }
    }
  }

  /** The extremes: all rise, all fall, and a flat window. */
  lemma RsiExtremes(closes: seq<real>)
    requires |closes| >= 15
    ensures var w, rsi := Window(closes), Rsi(closes).value;
            && (rsi == 100.0 <==> Rises(w) && !Falls(w))
            && (rsi == 0.0 <==> Falls(w) && !Rises(w))
            && (!Rises(w) && !Falls(w) ==> rsi == 50.0)
  {
    var w := Window(closes);
    var g, l := Smoothed(Gains(Changes(w))), Smoothed(Losses(Changes(w)));
    AveragesMean(w);
    if g + l > 0.0 {
      StrengthIsShare(g, l);
      ShareComplement(g, l);
      var share := g / (g + l);
      assert share * (g + l) == g;
    }
  }

  function Scaled(k: real, xs: seq<real>): (ys: seq<real>)
    ensures |ys| == |xs|
  {
    seq(|xs|, i requires 0 <= i < |xs| => Times(k, xs[i]))
  }

  function Mirrored(k: real, xs: seq<real>): (ys: seq<real>)
    ensures |ys| == |xs|
  {
    seq(|xs|, i requires 0 <= i < |xs| => k - xs[i])
  }

  lemma {:induction false} SumScaled(k: real, xs: seq<real>)
    ensures Sum(Scaled(k, xs)) == Times(k, Sum(xs))
  {
    if xs != [] {
      var n := |xs| - 1;
      SumScaled(k, xs[..n]);
      assert Scaled(k, xs)[..n] == Scaled(k, xs[..n]);
      assert k * Sum(xs) == k * Sum(xs[..n]) + k * xs[n];
    }
  }

  lemma {:induction false} SmoothedScaled(k: real, xs: seq<real>)
    requires |xs| >= 14
    ensures Smoothed(Scaled(k, xs)) == Times(k, Smoothed(xs))
    decreases |xs|
  {
    if |xs| == 14 {
      SumScaled(k, xs);
      assert k * (Sum(xs) / 14.0) == (k * Sum(xs)) / 14.0;
    } else {
      var n := |xs| - 1;
      SmoothedScaled(k, xs[..n]);
      assert Scaled(k, xs)[..n] == Scaled(k, xs[..n]);
      var s := Smoothed(xs[..n]);
      assert k * ((s * 13.0 + xs[n]) / 14.0) == ((k * s) * 13.0 + k * xs[n]) / 14.0;
    }
  }

  lemma StrengthScaled(k: real, g: real, l: real)
    requires k > 0.0 && g >= 0.0 && l >= 0.0
    ensures Times(k, g) >= 0.0 && Times(k, l) >= 0.0 && Strength(Times(k, g), Times(k, l)) == Strength(g, l)
  {
    if l > 0.0 {
      ProductSign(k, l);
      var q := g / l;
      assert q * l == g;
      Reorder(q, k, l);
      QuotientIs(k * g, k * l, q);
    } else if g > 0.0 {
      assert k * g > 0.0;
    }
  }

  /** Quoting every price in another unit changes nothing. */
  lemma RsiScaleInvariant(k: real, closes: seq<real>)
    requires k > 0.0
    ensures Rsi(Scaled(k, closes)) == Rsi(closes)
  {
    if |closes| >= 15 {
      hide RsiOf, Times;
      assert Window(Scaled(k, closes)) == Scaled(k, Window(closes));
      RsiOfScaled(k, Window(closes));
    }
  }

  lemma RsiOfScaled(k: real, w: seq<real>)
    requires k > 0.0 && |w| >= 15
    ensures RsiOf(Scaled(k, w)) == RsiOf(w)
  {
    hide Smoothed, Changes, Gains, Losses, Strength, Times, Scaled;
    var changes := Changes(w);
    ChangesScaled(k, w);
    MovesScaled(k, changes);
    SmoothedScaled(k, Gains(changes));
    SmoothedScaled(k, Losses(changes));
    AveragesMean(w);
    StrengthScaled(k, Smoothed(Gains(changes)), Smoothed(Losses(changes)));
  }

  lemma ChangesScaled(k: real, w: seq<real>)
    requires w != []
    ensures Changes(Scaled(k, w)) == Scaled(k, Changes(w))
  {
    forall i | 0 <= i < |w| - 1 ensures Times(k, w[i + 1]) - Times(k, w[i]) == Times(k, w[i + 1] - w[i]) {
    }
  }

  lemma MovesScaled(k: real, changes: seq<real>)
    requires k > 0.0
    ensures Gains(Scaled(k, changes)) == Scaled(k, Gains(changes))
    ensures Losses(Scaled(k, changes)) == Scaled(k, Losses(changes))
  {
    forall i | 0 <= i < |changes|
      ensures Max(Times(k, changes[i]), 0.0) == Times(k, Max(changes[i], 0.0))
      ensures Max(-Times(k, changes[i]), 0.0) == Times(k, Max(-changes[i], 0.0))
    {
      MaxScaled(k, changes[i]);
      MaxScaled(k, -changes[i]);
      assert -Times(k, changes[i]) == Times(k, -changes[i]);
    }
    hide Times, Max;
  }

  lemma MaxScaled(k: real, x: real)
    requires k > 0.0
    ensures Max(k * x, 0.0) == k * Max(x, 0.0)
  {
  }

  /** Turning every price upside down turns the index into its complement, flat windows included. */
  lemma RsiMirror(k: real, closes: seq<real>)
    requires |closes| >= 15
    ensures Rsi(Mirrored(k, closes)) == Some(100.0 - Rsi(closes).value)
  {
    var w := Window(closes);
    assert Window(Mirrored(k, closes)) == Mirrored(k, w);
    var changes, mirrored := Changes(w), Changes(Mirrored(k, w));
    assert forall i :: 0 <= i < |changes| ==> mirrored[i] == -changes[i];
    assert Gains(mirrored) == Losses(changes);
    assert Losses(mirrored) == Gains(changes);
    AveragesMean(w);
    var g, l := Smoothed(Gains(changes)), Smoothed(Losses(changes));
    if g + l > 0.0 {
      StrengthIsShare(g, l);
      StrengthIsShare(l, g);
      ShareComplement(g, l);
      assert 100.0 * (g / (g + l)) + 100.0 * (l / (g + l)) == 100.0;
    }
  }

  /** `_wilder_rsi`: the first 14 changes seed the averages, the rest are folded in one by one. */
  method WilderRsi(closes: seq<real>) returns (rsi: Option<real>)
    ensures rsi == Rsi(closes)
  {
    if |closes| < 15 {
      return None;
    }
    hide Changes, Gains, Losses, Sum, Smoothed, Blend, Last;
    var changes := Changes(Last(closes, 120));
    var gains, losses := Gains(changes), Losses(changes);
    var averageGain, averageLoss := Sum(gains[..14]) / 14.0, Sum(losses[..14]) / 14.0;
    SmoothedStart(gains);
    SmoothedStart(losses);
    var i := 14;
    while i < |gains|
      invariant 14 <= i <= |gains|
      invariant averageGain == Smoothed(gains[..i]) && averageLoss == Smoothed(losses[..i])
    {
      SmoothedStep(gains, i);
      SmoothedStep(losses, i);
      averageGain := Blend(averageGain, gains[i]);
      averageLoss := Blend(averageLoss, losses[i]);
      i := i + 1;
    }
    assert gains[..i] == gains && losses[..i] == losses;
    AveragesMean(Last(closes, 120));
    if averageGain == 0.0 && averageLoss == 0.0 {
      return Some(50.0);
    }
    if averageLoss == 0.0 {
      return Some(100.0);
    }
    QuotientSign(averageGain, averageLoss);
    rsi := Some(100.0 - 100.0 / (1.0 + averageGain / averageLoss));
  }

  lemma SmoothedStart(xs: seq<real>)
    requires |xs| >= 14
    ensures Smoothed(xs[..14]) == Sum(xs[..14]) / 14.0
  {
  }

  lemma SmoothedStep(xs: seq<real>, i: nat)
    requires 14 <= i < |xs|
    ensures Smoothed(xs[..i + 1]) == Blend(Smoothed(xs[..i]), xs[i])
  {
    assert xs[..i + 1][..i] == xs[..i];
  }

  // ---------------------------------------------------------- Bollinger

  function Deviations(xs: seq<real>, mean: real): (ds: seq<real>)
    ensures |ds| == |xs|
  {
    seq(|xs|, i requires 0 <= i < |xs| => xs[i] - mean)
  }

  function Square(x: real): real {
    x * x
  }

  function Squares(xs: seq<real>): (ys: seq<real>)
    ensures |ys| == |xs|
  {
    seq(|xs|, i requires 0 <= i < |xs| => Square(xs[i]))
  }

  /** The population variance. */
  function Variance(xs: seq<real>): real
    requires xs != []
  {
    Sum(Squares(Deviations(xs, Mean(xs)))) / |xs| as real
  }

  ghost predicate IsRoot(s: real, variance: real) {
    s >= 0.0 && Square(s) == variance
  }

  /** %b of the last close of a 20-bar window against two deviations either side of its mean. */
  function PercentBOf(window: seq<real>, deviation: real): real
    requires |window| == 20
  {
    var lower, upper := Mean(window) - 2.0 * deviation, Mean(window) + 2.0 * deviation;
    if upper == lower then 0.5 else (window[19] - lower) / (upper - lower)
  }

  ghost predicate Flat(window: seq<real>) {
    forall i :: 0 <= i < |window| ==> window[i] == window[0]
  }

  lemma {:induction false} SumDeviations(xs: seq<real>, mean: real)
    ensures Sum(Deviations(xs, mean)) == Sum(xs) - |xs| as real * mean
  {
    if xs != [] {
      var n := |xs| - 1;
      SumDeviations(xs[..n], mean);
      assert Deviations(xs, mean)[..n] == Deviations(xs[..n], mean);
      assert |xs| as real * mean == n as real * mean + mean;
    }
  }

  lemma CancelFactor(k: real, a: real, b: real)
    requires k > 0.0 && Times(k, a) <= Times(k, b)
    ensures a <= b
  {
    assert Times(k, a - b) == Times(k, a) - Times(k, b);
    if a > b { ProductSign(k, a - b); }
  }

  lemma SquareOfStep(s: real, q: real, x: real, k: nat)
    requires Square(s) <= Times(k as real, q) && (k == 0 ==> s == 0.0 && q == 0.0)
    ensures Square(s + x) <= Times((k + 1) as real, q + Square(x))
  {
    var kr := k as real;
    SquareOfSumOfTwo(s, x);
    Spread(kr, q, Square(x));
    if k > 0 {
      CrossTerm(kr, s, x);
      SquareSign(kr * x - s);
      hide Times, Square;
      CancelFactor(kr, 2.0 * Times(s, x), Times(kr, Square(x)) + q);
    }
  }

  lemma SquareOfSumOfTwo(s: real, x: real)
    ensures Square(s + x) == Square(s) + 2.0 * Times(s, x) + Square(x)
  {
  }

  lemma Spread(k: real, q: real, y: real)
    ensures Times(k + 1.0, q + y) == Times(k, q) + Times(k, y) + q + y
    ensures Times(k, Times(k, y) + q) == Times(k, Times(k, y)) + Times(k, q)
  {
  }

  lemma CrossTerm(k: real, s: real, x: real)
    ensures Square(k * x - s) == Times(k, Times(k, Square(x))) - Times(k, 2.0 * Times(s, x)) + Square(s)
  {
  }

  /** Cauchy and Schwarz against the constant one. */
  lemma {:induction false} SquareOfSum(xs: seq<real>)
    ensures Square(Sum(xs)) <= Times(|xs| as real, Sum(Squares(xs)))
    ensures Sum(Squares(xs)) >= 0.0
  {
    if xs != [] {
      var n := |xs| - 1;
      SquareOfSum(xs[..n]);
      assert Squares(xs)[..n] == Squares(xs[..n]);
      SquareOfStep(Sum(xs[..n]), Sum(Squares(xs[..n])), xs[n], n);
    }
  }

  /** The last deviation squared is at most 19 times the variance of the 20. */
  lemma LastDeviation(window: seq<real>)
    requires |window| == 20
    ensures Square(window[19] - Mean(window)) <= 19.0 * Variance(window)
  {
    var mean := Mean(window);
    var ds := Deviations(window, mean);
    SumDeviations(window, mean);
    var d := ds[19];
    var rest := ds[..19];
    assert Sum(rest) == -d;
    SquareOfSum(rest);
    assert Squares(ds)[..19] == Squares(rest);
    var q := Sum(Squares(rest));
    assert Sum(Squares(ds)) == q + Square(d);
    assert Square(d) == Square(Sum(rest));
  }

  lemma FlatIffStill(window: seq<real>)
    requires |window| == 20
    ensures Variance(window) >= 0.0 && (Variance(window) == 0.0 <==> Flat(window))
  {
    var mean := Mean(window);
    var ds := Deviations(window, mean);
    forall i | 0 <= i < 20 ensures Squares(ds)[i] >= 0.0 && (Squares(ds)[i] == 0.0 <==> window[i] == mean) {
      SquareSign(ds[i]);
    }
    SumSign(Squares(ds));
    if Flat(window) {
      SumConstant(window, window[0]);
      assert mean == window[0];
      assert AllZero(Squares(ds));
    }
    if AllZero(Squares(ds)) {
      assert forall i :: 0 <= i < 20 ==> Squares(ds)[i] == 0.0 && window[i] == mean;
    }
  }

  lemma SquareSign(x: real)
    ensures Square(x) >= 0.0 && (Square(x) == 0.0 <==> x == 0.0)
  {
    if x > 0.0 {
      ProductSign(x, x);
      assert Times(x, x) == Square(x);
    }
    if x < 0.0 {
      ProductSign(-x, -x);
      assert Times(-x, -x) == Square(x);
    }
  }

  lemma {:induction false} SumConstant(xs: seq<real>, c: real)
    requires forall i :: 0 <= i < |xs| ==> xs[i] == c
    ensures Sum(xs) == |xs| as real * c
  {
    if xs != [] {
      SumConstant(xs[..|xs| - 1], c);
      assert |xs| as real * c == (|xs| - 1) as real * c + c;
    }
  }

  /** The bands coincide, and %b falls back to one half, exactly when all 20 closes are equal. */
  lemma FallbackOnlyWhenFlat(window: seq<real>, deviation: real)
    requires |window| == 20 && IsRoot(deviation, Variance(window))
    ensures Mean(window) + 2.0 * deviation == Mean(window) - 2.0 * deviation <==> Flat(window)
    ensures Flat(window) ==> PercentBOf(window, deviation) == 0.5
  {
    FlatIffStill(window);
    SquareSign(deviation);
  }

  /** Off the fallback, %b is one half plus a quarter of the last close's deviation score. */
  lemma PercentBCentred(window: seq<real>, s: real)
    requires |window| == 20 && s > 0.0
    ensures Times(4.0 * s, PercentBOf(window, s) - 0.5) == window[19] - Mean(window)
  {
    var b, width := PercentBOf(window, s), 4.0 * s;
    var lower := Mean(window) - 2.0 * s;
    assert b == (window[19] - lower) / width;
    assert b * width == window[19] - lower;
    assert Times(width, b - 0.5) == b * width - 0.5 * width;
  }

  /** Samuelson's inequality for %b: it stays within the square root of 19/16 of one half. */
  lemma PercentBBounded(window: seq<real>, deviation: real)
    requires |window| == 20 && IsRoot(deviation, Variance(window)) && !Flat(window)
    ensures Square(PercentBOf(window, deviation) - 0.5) <= 19.0 / 16.0
  {
    FlatIffStill(window);
    SquareSign(deviation);
    PercentBCentred(window, deviation);
    LastDeviation(window);
    ScoreBound(PercentBOf(window, deviation) - 0.5, deviation, window[19] - Mean(window), Variance(window));
  }

  lemma ScoreBound(c: real, s: real, d: real, v: real)
    requires s > 0.0 && Square(s) == v && Times(4.0 * s, c) == d && Square(d) <= 19.0 * v
    ensures Square(c) <= 19.0 / 16.0
  {
    SquareOfScore(c, s, d, v);
    SquareSign(s);
    var bound := 19.0 / 16.0;
    assert Times(16.0 * v, bound) == 19.0 * v;
    CancelFactor(16.0 * v, Square(c), bound);
  }

  lemma SquareOfScore(c: real, s: real, d: real, v: real)
    requires Square(s) == v && Times(4.0 * s, c) == d
    ensures Square(d) == Times(16.0 * v, Square(c))
  {
    assert Square(d) == Square(Times(4.0 * s, c)) == 16.0 * Times(Square(s), Square(c));
    assert Times(Square(s), Square(c)) == Times(v, Square(c));
  }

  /** The bound is exact: a window that moves only on its last bar meets it. */
  lemma BoundAttained(window: seq<real>, deviation: real)
    requires |window| == 20 && IsRoot(deviation, Variance(window))
    requires Flat(window[..19]) && window[19] != window[0]
    ensures Square(PercentBOf(window, deviation) - 0.5) == 19.0 / 16.0
  {
    var a, x, mean := window[0], window[19], Mean(window);
    SumConstant(window[..19], a) by {
      forall i | 0 <= i < 19 ensures window[..19][i] == a { assert window[..19][0] == a; }
    }
    assert Sum(window) == 19.0 * a + x;
    var e := (x - a) / 20.0;
    assert mean == a + e;
    var ds := Deviations(window, mean);
    var d := x - mean;
    assert d == 19.0 * e;
    assert Squares(ds)[19] == d * d;
    SumConstant(Squares(ds)[..19], e * e) by {
      forall i | 0 <= i < 19 ensures Squares(ds)[..19][i] == e * e {
        assert window[..19][i] == window[..19][0];
        assert ds[i] == -e;
      }
    }
    assert Variance(window) == (19.0 * (e * e) + d * d) / 20.0;
    assert d * d == 361.0 * (e * e);
    assert Variance(window) == 19.0 * (e * e);
    FlatIffStill(window);
    SquareSign(deviation);
    assert window[..19][0] == a;
    PercentBCentred(window, deviation);
    ScoreAttains(PercentBOf(window, deviation) - 0.5, deviation, e);
  }

  lemma ScoreAttains(c: real, s: real, e: real)
    requires e != 0.0 && Square(s) == 19.0 * Square(e) && Times(4.0 * s, c) == 19.0 * e
    ensures Square(c) == 19.0 / 16.0
  {
    var y, bound := Square(e), 19.0 / 16.0;
    SquareOfScore(c, s, 19.0 * e, 19.0 * y);
    SquareSign(e);
    assert Square(19.0 * e) == 361.0 * y;
    assert Times(16.0 * (19.0 * y), bound) == 361.0 * y;
    CancelFactor(16.0 * (19.0 * y), Square(c), bound);
    CancelFactor(16.0 * (19.0 * y), bound, Square(c));
  }
}
