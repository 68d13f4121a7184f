/** The weighted signal score: indicators, features and score as functions of the candle history. */
module SignalScore {
  import opened Integers
  import opened Reals

  datatype Bar = Bar(open: real, high: real, low: real, close: real)

  datatype Side = BUY | SELL | NONE

  datatype Settings = Settings(emaFast: int, emaSlow: int, rsiPeriod: int, atrPeriod: int, minScore: real)
  {
    predicate Valid() {
      rsiPeriod >= 1 && atrPeriod >= 1
    }

    /** Fewer candles than this give no score. */
    function Needed(): int {
      Max(Max(emaSlow, rsiPeriod), atrPeriod) + 15
    }
  }

  function Closes(bars: seq<Bar>): (r: seq<real>)
    ensures |r| == |bars|
  {
    seq(|bars|, i requires 0 <= i < |bars| => bars[i].close)
  }

  // ----- indicators

  /** Smoothing factor of an exponential moving average. */
  function Alpha(period: int): real
    requires period > 0
  {
    2.0 / (period + 1) as real
  }

  /** Weighted mix of two values. */
  function Blend(x: real, y: real, k: real): real {
    x * k + y * (1.0 - k)
  }

  /** An average from its sum. */
  function Mean(sum: real, n: nat): (r: real)
    requires n >= 1
    ensures sum >= 0.0 ==> r >= 0.0
  {
    sum / n as real
  }

  function Ema(xs: seq<real>, period: int, i: nat): real
    requires i < |xs|
  {
    if period <= 0 then xs[i]
    else if i == 0 then xs[0]
    else Blend(xs[i], Ema(xs, period, i - 1), Alpha(period))
  }

  /** Sum of the rises over `n` steps from index `lo`. */
  function Gains(xs: seq<real>, lo: nat, n: nat): (r: real)
    requires lo + n < |xs|
    ensures r >= 0.0
  {
    if n == 0 then 0.0 else Gains(xs, lo, n - 1) + MaxR(xs[lo + n] - xs[lo + n - 1], 0.0)
  }

  /** Sum of the falls over `n` steps from index `lo`. */
  function Losses(xs: seq<real>, lo: nat, n: nat): (r: real)
    requires lo + n < |xs|
    ensures r >= 0.0
  {
    if n == 0 then 0.0 else Losses(xs, lo, n - 1) + MaxR(-(xs[lo + n] - xs[lo + n - 1]), 0.0)
  }

  /** Relative strength from average rise and average fall. */
  function Strength(gain: real, loss: real): real
    requires gain >= 0.0 && loss >= 0.0
  {
    if loss == 0.0 then 100.0
    else
      assert gain / loss >= 0.0;
      100.0 - 100.0 / (1.0 + gain / loss)
  }

  function Rsi(xs: seq<real>, period: nat): real
    requires period >= 1
  {
    if |xs| < period + 1 then 50.0
    else
      var lo := |xs| - period - 1;
      Strength(Mean(Gains(xs, lo, period), period), Mean(Losses(xs, lo, period), period))
  }

  function TrueRange(prev: Bar, cur: Bar): real {
    MaxR(MaxR(cur.high - cur.low, Abs(cur.high - prev.close)), Abs(cur.low - prev.close))
  }

  /** Sum of the true ranges of the `n` bars that end before index `hi`. */
  function Ranges(bars: seq<Bar>, hi: nat, n: nat): real
    requires n < hi <= |bars|
  {
    if n == 0 then 0.0 else Ranges(bars, hi, n - 1) + TrueRange(bars[hi - n - 1], bars[hi - n])
  }

  /** Average true range of the first `hi` bars. */
  function Atr(bars: seq<Bar>, hi: nat, period: nat): real
    requires period >= 1 && hi <= |bars|
  {
    if hi < period + 1 then 0.0 else Mean(Ranges(bars, hi, period), period)
  }

  function Body(b: Bar): real {
    Abs(b.close - b.open)
  }

  /** Sum of the last `n` bodies. */
  function Bodies(bars: seq<Bar>, n: nat): real
    requires n <= |bars|
  {
    if n == 0 then 0.0 else Bodies(bars, n - 1) + Body(bars[|bars| - n])
  }

  function Highest(bars: seq<Bar>): real
    requires bars != []
  {
    if |bars| == 1 then bars[0].high else MaxR(Highest(bars[..|bars| - 1]), bars[|bars| - 1].high)
  }

  function Lowest(bars: seq<Bar>): real
    requires bars != []
  {
    if |bars| == 1 then bars[0].low else MinR(Lowest(bars[..|bars| - 1]), bars[|bars| - 1].low)
  }

  // ----- features

  /** The direction of the EMA alignment. */
  function TrendOf(fast: real, slow: real): Side {
    if fast > slow then BUY else if fast < slow then SELL else NONE
  }

  /** Bar `i` before the last one closed in the direction of the trend. */
  predicate Follows(side: Side, bars: seq<Bar>, i: nat)
    requires i < |bars|
  {
    var b := bars[|bars| - 1 - i];
    (side == BUY && b.close > b.open) || (side == SELL && b.close < b.open)
  }

  /** One plus the number of consecutive bars before the last one, from `i` on and below `n`, that follow the trend. */
  function Streak(side: Side, bars: seq<Bar>, i: nat, n: nat): nat
    requires n <= |bars|
    decreases n - i
  {
    if i < n && Follows(side, bars, i) then 1 + Streak(side, bars, i + 1, n) else 1
  }

  function Ratio(x: real, y: real): real {
    if y > 0.0 then x / y else 1.0
  }

  /** The share of the body that the wick against the trend makes up, at most 1. */
  function WickPenalty(side: Side, b: Bar): real {
    if b.high - b.low > 0.0 && Body(b) > 0.0 then
      match side
      case BUY => MinR((b.high - MaxR(b.close, b.open)) / Body(b), 1.0)
      case SELL => MinR((MinR(b.close, b.open) - b.low) / Body(b), 1.0)
      case NONE => 0.0
    else 0.0
  }

  /** Everything the score depends on. */
  datatype Features = Features(
    side: Side, slope: bool, rsi: real, bodyAboveAverage: bool, acceleration: real, streak: nat, atrRatio: real,
    breakout: bool, penalty: real)

  function FeaturesOf(s: Settings, bars: seq<Bar>): Features
    requires s.Valid() && |bars| >= s.Needed()
  {
    var n := |bars|;
    var closes := Closes(bars);
    var fast, before, slow :=
      Ema(closes, s.emaFast, n - 1), Ema(closes, s.emaFast, n - 2), Ema(closes, s.emaSlow, n - 1);
    var side := TrendOf(fast, slow);
    var last := bars[n - 1];
    var average := Mean(Bodies(bars, 10), 10);
    Features(
      side,
      (side == BUY && fast > before) || (side == SELL && fast < before),
      Rsi(closes, s.rsiPeriod),
      Body(last) > average,
      Ratio(Body(last), average),
      Streak(side, bars, 1, 3),
      Ratio(Atr(bars, n, s.atrPeriod), Atr(bars, n - 1, s.atrPeriod)),
      (side == BUY && last.close > Highest(bars[n - 6..n - 1])) ||
        (side == SELL && last.close < Lowest(bars[n - 6..n - 1])),
      WickPenalty(side, last))
  }

  // ----- score

  function TrendScore(f: Features): real {
    if f.side == NONE then 0.0 else if f.slope then 3.0 else 1.5
  }

  function RsiScore(f: Features): real {
    match f.side
    case BUY => (if 50.0 < f.rsi < 80.0 then 1.0 else 0.0) + (if f.rsi > 60.0 then 0.5 else 0.0)
    case SELL => (if 20.0 < f.rsi < 50.0 then 1.0 else 0.0) + (if f.rsi < 40.0 then 0.5 else 0.0)
    case NONE => 0.0
  }

  /** Momentum times the impulse multiplier: body acceleration, capped, and directional continuity. */
  function Amplified(momentum: real, acceleration: real, streak: nat): real {
    var impulse := MinR(acceleration - 1.0, 0.5) + (streak - 1) as real * 0.1;
    momentum * (1.0 + MaxR(impulse, 0.0))
  }

  function MomentumScore(f: Features): real {
    Amplified(RsiScore(f) + (if f.bodyAboveAverage then 1.5 else 0.0), f.acceleration, f.streak)
  }

  function VolatilityScore(f: Features): real {
    (if f.atrRatio > 1.2 then 2.0 else if f.atrRatio > 0.9 then 1.0 else 0.5)
    + (if f.atrRatio > 1.2 then 1.0 else 0.0)
    + (if f.breakout then 1.0 else 0.0)
  }

  function ScoreOf(f: Features): real {
    MaxR(TrendScore(f) + MinR(MomentumScore(f), 3.0) + MinR(VolatilityScore(f), 4.0) - f.penalty, 0.0)
  }

  /** Score and direction of a candle history. */
  function Score(s: Settings, bars: seq<Bar>): (real, Side)
    requires s.Valid()
  {
    if |bars| < s.Needed() then (0.0, NONE)
    else
      var f := FeaturesOf(s, bars);
      (ScoreOf(f), if ScoreOf(f) < s.minScore then NONE else f.side)
  }
}
