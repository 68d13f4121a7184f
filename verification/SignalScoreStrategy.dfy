/** The strategy object: it computes the score in loops and caches the indicators it saw last. */
module SignalScoreStrategy {
  import opened Integers
  import opened Options
  import opened Reals
  import opened SignalScore
  import opened ScoreFeatures

  /** The whole moving-average series. */
  method EmaSeries(values: seq<real>, period: int) returns (r: seq<real>)
    ensures |r| == |values| && forall i | 0 <= i < |values| :: r[i] == Ema(values, period, i)
  {
    if values == [] || period <= 0 {
      return values;
    }
    var k := Alpha(period);
    r := [values[0]];
    for i := 1 to |values|
      invariant |r| == i && forall j | 0 <= j < i :: r[j] == Ema(values, period, j)
    {
      r := r + [Blend(values[i], r[i - 1], k)];
    }
  }

  // ----- what the formulas give for any integer periods

  /** The RSI for any period; none when it divides by zero. A negative period leaves no steps to look at, and no loss
      reads as 100. */
  function RsiAny(closes: seq<real>, period: int): Option<real> {
    if |closes| < period + 1 then Some(50.0)
    else if period == 0 then None
    else if period < 0 then Some(100.0)
    else Some(Rsi(closes, period))
  }

  /** The average true range for any period; none when it divides by zero. A negative period averages all but the first
      ranges over a negative number. */
  function AtrAny(bars: seq<Bar>, hi: nat, period: int): Option<real>
    requires hi <= |bars|
  {
    if hi < period + 1 then Some(0.0)
    else if period == 0 then None
    else if period < 0 then Some(AtrBehind(bars, hi, -period))
    else Some(Atr(bars, hi, period))
  }

  /** All but the first `k` true ranges, over -k. */
  function AtrBehind(bars: seq<Bar>, hi: nat, k: nat): real
    requires k >= 1 && hi <= |bars|
  {
    if hi <= k + 1 then 0.0 else -Mean(Ranges(bars, hi, hi - 1 - k), k)
  }

  /** A positive period gives the RSI and the average range. Without a period both raise unless there is nothing to look
      at. Over a negative period the RSI reads 100, and the average range is what all bars but the first k + 1 span,
      over -k. */
  lemma {:induction false} OddPeriods(closes: seq<real>, bars: seq<Bar>, k: int)
    requires k >= 1 && forall b <- bars :: b.low <= b.high
    ensures RsiAny(closes, k) == Some(Rsi(closes, k)) && AtrAny(bars, |bars|, k) == Some(Atr(bars, |bars|, k))
    ensures RsiAny(closes, 0) == if closes == [] then Some(50.0) else None
    ensures AtrAny(bars, |bars|, 0) == if bars == [] then Some(0.0) else None
    ensures RsiAny(closes, -k) == Some(100.0)
    ensures AtrAny(bars, |bars|, -k).Some?
    ensures AtrAny(bars, |bars|, -k).value * (-k) as real
         == if |bars| <= k + 1 then 0.0 else Spans(bars, |bars|, |bars| - 1 - k)
  {
    if |bars| > k + 1 {
      RangesAreSpans(bars, |bars|, |bars| - 1 - k);
    }
    hide Ranges, Spans;
  }

  /** The features of two bars or more, given the RSI and the two average ranges. */
  function FeaturesFrom(s: Settings, bars: seq<Bar>, rsi: real, atr: real, before: real): Features
    requires |bars| >= 2
  {
    var n, closes := |bars|, Closes(bars);
    var side := TrendOf(Ema(closes, s.emaFast, n - 1), Ema(closes, s.emaSlow, n - 1));
    var fast, earlier := Ema(closes, s.emaFast, n - 1), Ema(closes, s.emaFast, n - 2);
    var lookback := Min(10, n - 1);
    var last, average := bars[n - 1], Mean(Bodies(bars, lookback), lookback);
    var recent := bars[(if n >= 6 then n - 6 else 0)..n - 1];
    Features(
      side,
      (side == BUY && fast > earlier) || (side == SELL && fast < earlier),
      rsi,
      Body(last) > average,
      Ratio(Body(last), average),
      Streak(side, bars, 1, Min(3, n - 1)),
      Ratio(atr, before),
      (side == BUY && last.close > Highest(recent)) || (side == SELL && last.close < Lowest(recent)),
      WickPenalty(side, last))
  }

  /** The average range up to the bar before the last, where it can be formed. */
  function AtrBefore(s: Settings, bars: seq<Bar>): Option<real> {
    if |bars| >= 1 && |bars| > s.atrPeriod + 2 then AtrAny(bars, |bars| - 1, s.atrPeriod)
    else AtrAny(bars, |bars|, s.atrPeriod)
  }

  /** Score and direction for any settings; none when the source raises: fewer than two bars although no more are asked
      for, or an average over an empty period. */
  function ScoreAny(s: Settings, bars: seq<Bar>): Option<(real, Side)> {
    if |bars| < s.Needed() then Some((0.0, NONE))
    else if |bars| < 2 then None
    else
      match (RsiAny(Closes(bars), s.rsiPeriod), AtrAny(bars, |bars|, s.atrPeriod), AtrBefore(s, bars))
      case (Some(rsi), Some(atr), Some(before)) =>
        var f := FeaturesFrom(s, bars, rsi, atr, before);
        Some((ScoreOf(f), if ScoreOf(f) < s.minScore then NONE else f.side))
      case _ => None
  }

  /** With positive periods that is the score. */
  lemma {:induction false} ScoreAnyIsScore(s: Settings, bars: seq<Bar>)
    requires s.Valid()
    ensures ScoreAny(s, bars) == Some(Score(s, bars))
  {
    hide Ema, Rsi, Atr, Bodies, Streak, Highest, Lowest, WickPenalty, ScoreOf, Ratio, Mean, Body, TrendOf;
  }

  // ----- the loops

  method RsiOf(closes: seq<real>, period: int) returns (rsi: Option<real>)
    ensures rsi == RsiAny(closes, period)
  {
    hide Strength, Mean;
    if |closes| < period + 1 {
      return Some(50.0);
    }
    if period == 0 {
      return None;
    }
    if period < 0 {
      return Some(100.0);
    }
    var lo := |closes| - period - 1;
    var gains, losses := 0.0, 0.0;
    for i := 0 to period
      invariant gains == Gains(closes, lo, i) && losses == Losses(closes, lo, i)
    {
      var d := closes[lo + i + 1] - closes[lo + i];
      gains := gains + MaxR(d, 0.0);
      losses := losses + MaxR(-d, 0.0);
    }
    rsi := Some(Strength(Mean(gains, period), Mean(losses, period)));
  }

  /** All true ranges, then the mean of the last `period` of them. */
  method AtrOf(bars: seq<Bar>, hi: nat, period: int) returns (atr: Option<real>)
    requires hi <= |bars|
    ensures atr == AtrAny(bars, hi, period)
  {
    hide TrueRange, Mean;
    if hi < period + 1 {
      return Some(0.0);
    }
    var ranges: seq<real> := [];
    for i := 1 to if hi >= 1 then hi else 1
      invariant |ranges| == i - 1 && forall j | 0 <= j < i - 1 :: ranges[j] == TrueRange(bars[j], bars[j + 1])
    {
      ranges := ranges + [TrueRange(bars[i - 1], bars[i])];
    }
    if period == 0 {
      return None;
    }
    var count := if period > 0 then period else if |ranges| >= -period then |ranges| + period else 0;
    var sum := 0.0;
    for n := 0 to count
      invariant n < hi || (n == 0 && hi == 0)
      invariant hi > 0 ==> sum == Ranges(bars, hi, n)
      invariant n == 0 ==> sum == 0.0
    {
      assert ranges[|ranges| - 1 - n] == TrueRange(bars[hi - n - 2], bars[hi - n - 1]);
      sum := sum + ranges[|ranges| - 1 - n];
    }
    if period < 0 {
      NothingAveraged(-period);
      return Some(-Mean(sum, -period));
    }
    atr := Some(Mean(sum, period));
  }

  lemma {:induction false} NothingAveraged(k: nat)
    requires k >= 1
    ensures Mean(0.0, k) == 0.0
  {
  }

  method AverageBody(bars: seq<Bar>, lookback: nat) returns (average: real)
    requires 1 <= lookback <= |bars|
    ensures average == Mean(Bodies(bars, lookback), lookback)
  {
    hide Mean, Body;
    var sum := 0.0;
    for i := 0 to lookback
      invariant sum == Bodies(bars, i)
    {
      sum := sum + Body(bars[|bars| - 1 - i]);
    }
    average := Mean(sum, lookback);
  }

  /** Count the bars before the last one that follow the trend, stopping at the first that does not. */
  method CountStreak(side: Side, bars: seq<Bar>, n: nat) returns (streak: nat)
    requires 1 <= n <= |bars|
    ensures streak == Streak(side, bars, 1, n)
  {
    streak := 1;
    var i := 1;
    while i < n && Follows(side, bars, i)
      invariant 1 <= i <= n && streak + Streak(side, bars, i, n) == Streak(side, bars, 1, n) + 1
    {
      streak := streak + 1;
      i := i + 1;
    }
  }

  method HighestAndLowest(bars: seq<Bar>) returns (high: real, low: real)
    requires bars != []
    ensures high == Highest(bars) && low == Lowest(bars)
  {
    high, low := bars[0].high, bars[0].low;
    for i := 1 to |bars|
      invariant high == Highest(bars[..i]) && low == Lowest(bars[..i])
    {
      assert bars[..i + 1][..i] == bars[..i];
      high, low := MaxR(high, bars[i].high), MinR(low, bars[i].low);
    }
    assert bars[..|bars|] == bars;
  }

  ghost predicate IsSeries(r: seq<real>, values: seq<real>, period: int) {
    |r| == |values| && forall i | 0 <= i < |values| :: r[i] == Ema(values, period, i)
  }

  /** Trend, slope, bodies, streak, breakout and wick of the history, from its moving averages. */
  method CollectFeatures(s: Settings, bars: seq<Bar>, fast: seq<real>, slow: seq<real>, rsi: real, atr: real,
                         before: real)
    returns (f: Features)
    requires |bars| >= 2 && IsSeries(fast, Closes(bars), s.emaFast) && IsSeries(slow, Closes(bars), s.emaSlow)
    ensures f == FeaturesFrom(s, bars, rsi, atr, before)
  {
    hide Ema, Bodies, Streak, Highest, Lowest, WickPenalty, Mean, Body, Ratio;
    var n := |bars|;
    var side := TrendOf(fast[n - 1], slow[n - 1]);
    var slope := (side == BUY && fast[n - 1] > fast[n - 2]) || (side == SELL && fast[n - 1] < fast[n - 2]);
    var last := bars[n - 1];
    var average := AverageBody(bars, Min(10, n - 1));
    var streak := CountStreak(side, bars, Min(3, n - 1));
    var high, low := HighestAndLowest(bars[(if n >= 6 then n - 6 else 0)..n - 1]);
    f := Features(side, slope, rsi, Body(last) > average, Ratio(Body(last), average), streak, Ratio(atr, before),
                  (side == BUY && last.close > high) || (side == SELL && last.close < low), WickPenalty(side, last));
  }

  class Strategy {
    const settings: Settings
    var lastEmaFast: real
    var lastEmaSlow: real
    var lastRsi: real
    var lastAtr: real

    constructor (settings: Settings)
      ensures this.settings == settings && lastEmaFast == lastEmaSlow == lastAtr == 0.0 && lastRsi == 50.0
    {
      this.settings := settings;
      lastEmaFast, lastEmaSlow, lastRsi, lastAtr := 0.0, 0.0, 50.0, 0.0;
    }

    /** Score and direction, and the indicators it saw, cached as far as it came. */
    method ComputeScore(bars: seq<Bar>) returns (r: Option<(real, Side)>)
      modifies this
      ensures r == ScoreAny(settings, bars)
      ensures settings.Valid() ==> r == Some(Score(settings, bars))
      ensures if |bars| < settings.Needed() || |bars| < 2 then unchanged(this)
              else
                var rsi, atr := RsiAny(Closes(bars), settings.rsiPeriod), AtrAny(bars, |bars|, settings.atrPeriod);
                && lastEmaFast == Ema(Closes(bars), settings.emaFast, |bars| - 1)
                && lastEmaSlow == Ema(Closes(bars), settings.emaSlow, |bars| - 1)
                && lastRsi == (if rsi.Some? then rsi.value else old(lastRsi))
                && lastAtr == (if rsi.Some? && atr.Some? then atr.value else old(lastAtr))
    {
      hide Ema, RsiAny, AtrAny, FeaturesFrom, ScoreOf, Score;
      if settings.Valid() {
        ScoreAnyIsScore(settings, bars);
      }
      if |bars| < settings.Needed() {
        return Some((0.0, NONE));
      }
      if |bars| < 2 {
        return None;
      }
      var n, closes := |bars|, Closes(bars);
      var fast := EmaSeries(closes, settings.emaFast);
      var slow := EmaSeries(closes, settings.emaSlow);
      lastEmaFast, lastEmaSlow := fast[n - 1], slow[n - 1];
      var rsi := RsiOf(closes, settings.rsiPeriod);
      if rsi.None? {
        return None;
      }
      lastRsi := rsi.value;
      var atr := AtrOf(bars, n, settings.atrPeriod);
      if atr.None? {
        return None;
      }
      lastAtr := atr.value;
      var before := atr;
      if n > settings.atrPeriod + 2 {
        before := AtrOf(bars, n - 1, settings.atrPeriod);
        if before.None? {
          return None;
        }
      }
      var f := CollectFeatures(settings, bars, fast, slow, lastRsi, lastAtr, before.value);
      var score := ScoreOf(f);
      r := Some((score, if score < settings.minScore then NONE else f.side));
    }
  }
}
