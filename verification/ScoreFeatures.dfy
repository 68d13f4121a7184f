/** What each feature of the score says about the bars themselves. */
module ScoreFeatures {
  import opened Reals
  import opened SignalScore
  import opened SignalScoreProofs

  /** `part` is `x` times `whole`. */
  ghost predicate Proportion(x: real, whole: real, part: real) {
    x * whole == part
  }

  // ----- trend and slope

  /** Each average is the mean of the new value, counted twice, and p - 1 times the average before. */
  lemma {:induction false} EmaWeights(xs: seq<real>, period: int, i: nat)
    requires 0 < i < |xs| && period > 0
    ensures (period + 1) as real * Ema(xs, period, i)
         == 2.0 * xs[i] + (period - 1) as real * Ema(xs, period, i - 1)
  {
    BlendWeights(xs[i], Ema(xs, period, i - 1), period);
    hide Blend, Alpha;
  }

  lemma {:induction false} BlendWeights(x: real, y: real, period: int)
    requires period > 0
    ensures (period + 1) as real * Blend(x, y, Alpha(period)) == 2.0 * x + (period - 1) as real * y
  {
    var p, k := (period + 1) as real, Alpha(period);
    assert p * k == 2.0;
    assert p * (x * k) == x * (p * k) && p * (y * k) == y * (p * k);
    assert p * (x * k + y * (1.0 - k)) == p * (x * k) + p * y - p * (y * k);
  }

  /** The fast average rises exactly when the new close is above it, and falls exactly when it is below. */
  lemma {:induction false} EmaFollows(xs: seq<real>, period: int, i: nat)
    requires 0 < i < |xs| && period > 0
    ensures Ema(xs, period, i) > Ema(xs, period, i - 1) <==> xs[i] > Ema(xs, period, i - 1)
    ensures Ema(xs, period, i) < Ema(xs, period, i - 1) <==> xs[i] < Ema(xs, period, i - 1)
  {
    EmaWeights(xs, period, i);
    var now, before, p := Ema(xs, period, i), Ema(xs, period, i - 1), (period + 1) as real;
    hide Ema;
    assert (period - 1) as real == p - 2.0;
    assert (p - 2.0) * before == p * before - 2.0 * before;
    assert p * (now - before) == 2.0 * (xs[i] - before);
  }

  /** There is a trend up when the fast average is above the slow one, and it slopes exactly when the last close is
      above the fast average before it; down likewise. */
  lemma {:induction false} TrendIs(s: Settings, bars: seq<Bar>)
    requires s.Valid() && |bars| >= s.Needed() && s.emaFast >= 1
    ensures var f, n, closes := FeaturesOf(s, bars), |bars|, Closes(bars);
      var fast, slow, before := Ema(closes, s.emaFast, n - 1), Ema(closes, s.emaSlow, n - 1),
                                Ema(closes, s.emaFast, n - 2);
      && (f.side == BUY <==> fast > slow) && (f.side == SELL <==> fast < slow)
      && (f.slope <==> (f.side == BUY && bars[n - 1].close > before) || (f.side == SELL && bars[n - 1].close < before))
  {
    EmaFollows(Closes(bars), s.emaFast, |bars| - 1);
    hide Ema, Rsi, Atr, Bodies, Body, Streak, Highest, Lowest, WickPenalty, Ratio, Mean;
  }

  // ----- RSI

  /** The distance the closes travelled over `n` steps from index `lo`. */
  function Travelled(xs: seq<real>, lo: nat, n: nat): real
    requires lo + n < |xs|
  {
    if n == 0 then 0.0 else Travelled(xs, lo, n - 1) + Abs(xs[lo + n] - xs[lo + n - 1])
  }

  lemma {:induction false} GainsAndLosses(xs: seq<real>, lo: nat, n: nat)
    requires lo + n < |xs|
    ensures Gains(xs, lo, n) + Losses(xs, lo, n) == Travelled(xs, lo, n)
    ensures Gains(xs, lo, n) - Losses(xs, lo, n) == xs[lo + n] - xs[lo]
  {
    if n > 0 {
      GainsAndLosses(xs, lo, n - 1);
    }
  }

  lemma {:induction false} StrengthIsShare(gain: real, loss: real)
    requires gain >= 0.0 && loss >= 0.0
    ensures gain + loss > 0.0 ==> Strength(gain, loss) * (gain + loss) == 100.0 * gain
  {
    if loss > 0.0 {
      var q := gain / loss;
      assert q * loss == gain && q >= 0.0;
      var u := 100.0 / (1.0 + q);
      assert u * (1.0 + q) == 100.0;
      assert u * (gain + loss) == u * (1.0 + q) * loss;
      assert (100.0 - u) * (gain + loss) == 100.0 * gain;
    }
  }

  lemma {:induction false} StrengthOfMeans(gain: real, loss: real, n: nat)
    requires gain >= 0.0 && loss >= 0.0 && n >= 1
    ensures gain + loss > 0.0 ==> Strength(Mean(gain, n), Mean(loss, n)) * (gain + loss) == 100.0 * gain
  {
    var g, l, k := Mean(gain, n), Mean(loss, n), n as real;
    assert g * k == gain && l * k == loss;
    if gain + loss > 0.0 {
      MeanSign(gain, n);
      MeanSign(loss, n);
      StrengthIsShare(g, l);
      var r := Strength(g, l);
      hide Strength, Mean;
      assert r * (gain + loss) == r * (g + l) * k;
      assert 100.0 * g * k == 100.0 * gain;
    }
  }

  /** The RSI is the rises' share of the distance the closes travelled, which the net change over the period decides: at
      50 they end where they began. When nothing moved it reads 100, and 50 with too few closes. */
  lemma {:induction false} RsiIsTheShareOfRises(xs: seq<real>, period: nat)
    requires period >= 1
    ensures |xs| < period + 1 ==> Rsi(xs, period) == 50.0
    ensures |xs| >= period + 1 ==>
      var lo, hi := |xs| - period - 1, |xs| - 1;
      var travelled := Travelled(xs, lo, period);
      && travelled >= 0.0
      && (travelled == 0.0 ==> Rsi(xs, period) == 100.0)
      && (travelled > 0.0 ==> Rsi(xs, period) * travelled == 50.0 * (travelled + (xs[hi] - xs[lo])))
  {
    if |xs| >= period + 1 {
      var lo := |xs| - period - 1;
      GainsAndLosses(xs, lo, period);
      var gain, loss := Gains(xs, lo, period), Losses(xs, lo, period);
      StrengthOfMeans(gain, loss, period);
      MeanSign(loss, period);
      hide Gains, Losses, Travelled, Mean;
      if gain + loss > 0.0 {
        hide Strength;
      }
    }
  }

  // ----- ranges

  /** The true range spans the bar and the close before it. */
  lemma {:induction false} TrueRangeSpans(prev: Bar, cur: Bar)
    requires cur.low <= cur.high
    ensures TrueRange(prev, cur) == MaxR(cur.high, prev.close) - MinR(cur.low, prev.close)
  {
  }

  /** What bar `i` spans together with the close before it. */
  function Span(bars: seq<Bar>, i: int): real
    requires 0 < i < |bars|
  {
    MaxR(bars[i].high, bars[i - 1].close) - MinR(bars[i].low, bars[i - 1].close)
  }

  /** The spans of the last `n` of the first `hi` bars, added up. */
  function Spans(bars: seq<Bar>, hi: nat, n: nat): real
    requires n < hi <= |bars|
  {
    if n == 0 then 0.0 else Spans(bars, hi, n - 1) + Span(bars, hi - n)
  }

  lemma {:induction false} RangesAreSpans(bars: seq<Bar>, hi: nat, n: nat)
    requires n < hi <= |bars| && forall b <- bars :: b.low <= b.high
    ensures Ranges(bars, hi, n) == Spans(bars, hi, n)
  {
    if n > 0 {
      RangesAreSpans(bars, hi, n - 1);
      TrueRangeSpans(bars[hi - n - 1], bars[hi - n]);
    }
  }

  /** On bars with low <= high the average range of p periods is the p-th part of the last p spans; with fewer than p +
      1 bars it is 0. */
  lemma {:induction false} AtrIsTheMeanSpan(bars: seq<Bar>, period: nat)
    requires period >= 1 && forall b <- bars :: b.low <= b.high
    ensures |bars| >= period + 1 ==> Atr(bars, |bars|, period) * period as real == Spans(bars, |bars|, period)
    ensures |bars| < period + 1 ==> Atr(bars, |bars|, period) == 0.0
  {
    if |bars| >= period + 1 {
      RangesAreSpans(bars, |bars|, period);
      hide Ranges, Spans;
    }
  }

  /** The tiers compare the sums of the last true ranges with and without the last bar: up by more than a fifth, or down
      by a tenth or more. */
  lemma {:induction false} TiersCompareRanges(s: Settings, bars: seq<Bar>)
    requires s.Valid() && |bars| >= s.Needed()
    ensures var f, n := FeaturesOf(s, bars), |bars|;
      var now, before := Ranges(bars, n, s.atrPeriod), Ranges(bars, n - 1, s.atrPeriod);
      if before > 0.0 then
        (f.atrRatio > 1.2 <==> now > 1.2 * before) && (f.atrRatio > 0.9 <==> now > 0.9 * before)
      else f.atrRatio == 1.0
  {
    var n := |bars|;
    RatioOfMeans(Ranges(bars, n, s.atrPeriod), Ranges(bars, n - 1, s.atrPeriod), s.atrPeriod);
    hide Ema, Rsi, Ranges, Bodies, Body, Streak, Highest, Lowest, WickPenalty, Ratio, Mean;
  }

  lemma {:induction false} RatioOfMeans(x: real, y: real, n: nat)
    requires n >= 1
    ensures y > 0.0 ==> (Ratio(Mean(x, n), Mean(y, n)) > 1.2 <==> x > 1.2 * y)
    ensures y > 0.0 ==> (Ratio(Mean(x, n), Mean(y, n)) > 0.9 <==> x > 0.9 * y)
    ensures y <= 0.0 ==> Ratio(Mean(x, n), Mean(y, n)) == 1.0
  {
    MeanOrder(y, n);
    if y > 0.0 {
      var q := Ratio(Mean(x, n), Mean(y, n));
      MeansProportion(x, y, n);
      hide Ratio, Mean, Proportion;
      ProportionOrder(q, 1.2, y, x);
      ProportionOrder(q, 0.9, y, x);
    }
  }

  lemma {:induction false} MeanOrder(x: real, n: nat)
    requires n >= 1
    ensures Mean(x, n) > 0.0 <==> x > 0.0
  {
    MeanSign(x, n);
    if x < 0.0 {
      assert Mean(-x, n) == -Mean(x, n);
    }
  }

  lemma {:induction false} MeansProportion(x: real, y: real, n: nat)
    requires n >= 1 && y > 0.0
    ensures Proportion(Ratio(Mean(x, n), Mean(y, n)), y, x)
  {
    var a, b, k := Mean(x, n), Mean(y, n), n as real;
    MeanOrder(y, n);
    assert a * k == x && b * k == y;
    var q := a / b;
    assert q * b == a;
    assert q * y == q * b * k;
  }

  lemma {:induction false} ProportionOrder(q: real, level: real, whole: real, part: real)
    requires Proportion(q, whole, part) && whole > 0.0
    ensures q > level <==> part > level * whole
  {
    OrderByFactor(q, level, whole);
  }

  lemma {:induction false} OrderByFactor(x: real, y: real, w: real)
    requires w > 0.0
    ensures x > y <==> x * w > y * w
  {
    assert x * w - y * w == (x - y) * w;
  }

  // ----- bodies

  function BodyBack(bars: seq<Bar>, back: nat): real
    requires back < |bars|
  {
    var b := bars[|bars| - 1 - back];
    if b.close >= b.open then b.close - b.open else b.open - b.close
  }

  /** The bodies of the last ten bars, written out. */
  function TenBodies(bars: seq<Bar>): real
    requires |bars| >= 10
  {
    BodyBack(bars, 0) + BodyBack(bars, 1) + BodyBack(bars, 2) + BodyBack(bars, 3) + BodyBack(bars, 4)
    + BodyBack(bars, 5) + BodyBack(bars, 6) + BodyBack(bars, 7) + BodyBack(bars, 8) + BodyBack(bars, 9)
  }

  lemma {:induction false} BodiesStep(bars: seq<Bar>, n: nat)
    requires n < |bars|
    ensures Bodies(bars, n + 1) == Bodies(bars, n) + BodyBack(bars, n)
  {
  }

  lemma {:induction false} BodiesAreTen(bars: seq<Bar>)
    requires |bars| >= 10
    ensures Bodies(bars, 10) == TenBodies(bars)
  {
    assert Bodies(bars, 0) == 0.0;
    BodiesStep(bars, 0);
    BodiesStep(bars, 1);
    BodiesStep(bars, 2);
    BodiesStep(bars, 3);
    BodiesStep(bars, 4);
    BodiesStep(bars, 5);
    BodiesStep(bars, 6);
    BodiesStep(bars, 7);
    BodiesStep(bars, 8);
    BodiesStep(bars, 9);
    hide Bodies, BodyBack;
  }

  lemma {:induction false} AverageBodyCompares(body: real, sum: real)
    ensures body > Mean(sum, 10) <==> 10.0 * body > sum
    ensures sum > 0.0 ==> Proportion(Ratio(body, Mean(sum, 10)), sum, 10.0 * body)
    ensures sum <= 0.0 ==> Ratio(body, Mean(sum, 10)) == 1.0
  {
    var m := Mean(sum, 10);
    assert m * 10.0 == sum;
    if m > 0.0 {
      var q := body / m;
      assert q * m == body;
      assert q * sum == q * m * 10.0;
    }
  }

  /** The last body is above the average exactly when ten of it exceed the last ten together, and it accelerates by that
      proportion. */
  lemma {:induction false} BodiesCompare(s: Settings, bars: seq<Bar>)
    requires s.Valid() && |bars| >= s.Needed()
    ensures var f, ten, last := FeaturesOf(s, bars), TenBodies(bars), BodyBack(bars, 0);
      && (f.bodyAboveAverage <==> 10.0 * last > ten)
      && (if ten > 0.0 then Proportion(f.acceleration, ten, 10.0 * last) else f.acceleration == 1.0)
  {
    BodiesAreTen(bars);
    AverageBodyCompares(BodyBack(bars, 0), TenBodies(bars));
    BodyFields(s, bars);
    hide FeaturesOf, Bodies, BodyBack, TenBodies, Ratio, Mean, Proportion;
  }

  lemma {:induction false} BodyFields(s: Settings, bars: seq<Bar>)
    requires s.Valid() && |bars| >= s.Needed()
    ensures var f, last, average := FeaturesOf(s, bars), BodyBack(bars, 0), Mean(Bodies(bars, 10), 10);
      f.bodyAboveAverage == (last > average) && f.acceleration == Ratio(last, average)
  {
    assert Body(bars[|bars| - 1]) == BodyBack(bars, 0);
    hide Ema, Rsi, Atr, Bodies, Body, BodyBack, Streak, Highest, Lowest, WickPenalty, Ratio, Mean;
  }

  // ----- shape

  lemma {:induction false} HighestBounds(bars: seq<Bar>, x: real)
    requires bars != []
    ensures x > Highest(bars) <==> forall b <- bars :: x > b.high
    ensures x < Lowest(bars) <==> forall b <- bars :: x < b.low
  {
    var n := |bars| - 1;
    if n == 0 {
      assert bars == [bars[0]];
    } else {
      HighestBounds(bars[..n], x);
      assert bars == bars[..n] + [bars[n]];
    }
  }

  /** A breakout is a close beyond all five bars before it, in the direction of the trend. */
  lemma {:induction false} BreakoutIff(s: Settings, bars: seq<Bar>)
    requires s.Valid() && |bars| >= s.Needed()
    ensures var f, n := FeaturesOf(s, bars), |bars|;
      f.breakout <==>
        || (f.side == BUY && forall i | n - 6 <= i < n - 1 :: bars[n - 1].close > bars[i].high)
        || (f.side == SELL && forall i | n - 6 <= i < n - 1 :: bars[n - 1].close < bars[i].low)
  {
    BreakoutField(s, bars);
    FiveBounds(bars, bars[|bars| - 1].close);
    hide FeaturesOf, Highest, Lowest;
  }

  lemma {:induction false} BreakoutField(s: Settings, bars: seq<Bar>)
    requires s.Valid() && |bars| >= s.Needed()
    ensures var f, n := FeaturesOf(s, bars), |bars|;
      var five := bars[n - 6..n - 1];
      f.breakout <==> (f.side == BUY && bars[n - 1].close > Highest(five))
                      || (f.side == SELL && bars[n - 1].close < Lowest(five))
  {
    hide Ema, Rsi, Atr, Bodies, Body, Streak, Highest, Lowest, WickPenalty, Ratio, Mean;
  }

  lemma {:induction false} FiveBounds(bars: seq<Bar>, x: real)
    requires |bars| >= 6
    ensures var n := |bars|;
      var five := bars[n - 6..n - 1];
      && (x > Highest(five) <==> forall i | n - 6 <= i < n - 1 :: x > bars[i].high)
      && (x < Lowest(five) <==> forall i | n - 6 <= i < n - 1 :: x < bars[i].low)
  {
    var n := |bars|;
    var five := bars[n - 6..n - 1];
    HighestBounds(five, x);
    hide Highest, Lowest;
    assert forall i | n - 6 <= i < n - 1 :: bars[i] == five[i - (n - 6)];
    assert forall b <- five :: exists i :: n - 6 <= i < n - 1 && bars[i] == b;
  }

  /** The bar `back` places before the last closed in the direction of the trend. */
  predicate Along(side: Side, bars: seq<Bar>, back: nat)
    requires back < |bars|
  {
    var b := bars[|bars| - 1 - back];
    if side == BUY then b.close > b.open else side == SELL && b.close < b.open
  }

  /** The streak looks at the two bars before the last: 1, and one more for each that follows the trend, up to the first
      that does not. */
  lemma {:induction false} StreakIs(s: Settings, bars: seq<Bar>)
    requires s.Valid() && |bars| >= s.Needed()
    ensures var f := FeaturesOf(s, bars);
      f.streak == if !Along(f.side, bars, 1) then 1 else if !Along(f.side, bars, 2) then 2 else 3
  {
    var side := FeaturesOf(s, bars).side;
    StreakStep(side, bars, 1);
    StreakStep(side, bars, 2);
    assert Streak(side, bars, 3, 3) == 1;
    hide Ema, Rsi, Atr, Bodies, Body, Streak, Highest, Lowest, WickPenalty, Ratio, Mean;
  }

  lemma {:induction false} StreakStep(side: Side, bars: seq<Bar>, i: nat)
    requires i < 3 <= |bars|
    ensures Streak(side, bars, i, 3) == if Along(side, bars, i) then 1 + Streak(side, bars, i + 1, 3) else 1
  {
  }

  /** The penalty is the last bar's wick against the trend over its body, at most 1; without a range, a body or a trend
      there is none. */
  lemma {:induction false} PenaltyIsTheWick(s: Settings, bars: seq<Bar>)
    requires s.Valid() && |bars| >= s.Needed()
    ensures var f, b, body := FeaturesOf(s, bars), bars[|bars| - 1], BodyBack(bars, 0);
      if b.high <= b.low || body == 0.0 || f.side == NONE then f.penalty == 0.0
      else if f.side == BUY then Proportion(f.penalty, body, MinR(b.high - MaxR(b.open, b.close), body))
      else Proportion(f.penalty, body, MinR(MinR(b.open, b.close) - b.low, body))
  {
    var b := bars[|bars| - 1];
    WickShare(FeaturesOf(s, bars).side, b);
    assert Body(b) == BodyBack(bars, 0);
    assert FeaturesOf(s, bars).penalty == WickPenalty(FeaturesOf(s, bars).side, b) by {
      PenaltyField(s, bars);
    }
    hide FeaturesOf, Body, BodyBack, WickPenalty, Proportion;
  }

  lemma {:induction false} PenaltyField(s: Settings, bars: seq<Bar>)
    requires s.Valid() && |bars| >= s.Needed()
    ensures FeaturesOf(s, bars).penalty == WickPenalty(FeaturesOf(s, bars).side, bars[|bars| - 1])
  {
    hide Ema, Rsi, Atr, Bodies, Body, Streak, Highest, Lowest, WickPenalty, Ratio, Mean;
  }

  lemma {:induction false} ShareOfWhole(wick: real, body: real)
    requires body > 0.0
    ensures Proportion(MinR(wick / body, 1.0), body, MinR(wick, body))
  {
    var q := wick / body;
    assert q * body == wick;
    OrderByFactor(q, 1.0, body);
  }

  lemma {:induction false} WickShare(side: Side, b: Bar)
    ensures if b.high <= b.low || Body(b) == 0.0 || side == NONE then WickPenalty(side, b) == 0.0
            else if side == BUY then
              Proportion(WickPenalty(side, b), Body(b), MinR(b.high - MaxR(b.open, b.close), Body(b)))
            else Proportion(WickPenalty(side, b), Body(b), MinR(MinR(b.open, b.close) - b.low, Body(b)))
  {
    if Body(b) > 0.0 {
      ShareOfWhole(b.high - MaxR(b.close, b.open), Body(b));
      ShareOfWhole(MinR(b.close, b.open) - b.low, Body(b));
    }
    hide Proportion;
  }

  /** The direction is that of the trend exactly when the score reaches the minimum and there are bars enough. */
  lemma {:induction false} DirectionIff(s: Settings, bars: seq<Bar>)
    requires s.Valid() && s.emaFast >= 1
    ensures var (score, side) := Score(s, bars);
      && (|bars| < s.Needed() ==> score == 0.0 && side == NONE)
      && (|bars| >= s.Needed() ==>
            var closes, last := Closes(bars), |bars| - 1;
            && score == ScoreOf(FeaturesOf(s, bars))
            && (side == BUY <==> score >= s.minScore && Ema(closes, s.emaFast, last) > Ema(closes, s.emaSlow, last))
            && (side == SELL <==> score >= s.minScore && Ema(closes, s.emaFast, last) < Ema(closes, s.emaSlow, last)))
  {
    hide Ema, ScoreOf;
    if |bars| >= s.Needed() {
      TrendIs(s, bars);
      hide FeaturesOf;
    }
  }
}
