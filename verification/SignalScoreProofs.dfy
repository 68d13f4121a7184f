/** The score sees only the shape of prices: rescaling or shifting them changes nothing, and it stays
    within 0 and 10. */
module SignalScoreProofs {
  import opened Reals
  import opened SignalScore

  // ----- affine change of prices

  function Scaled(a: real, x: real): real {
    a * x
  }

  function Moved(a: real, b: real, x: real): real {
    Scaled(a, x) + b
  }

  function MovedBar(a: real, b: real, bar: Bar): Bar {
    Bar(Moved(a, b, bar.open), Moved(a, b, bar.high), Moved(a, b, bar.low), Moved(a, b, bar.close))
  }

  function MovedBars(a: real, b: real, bars: seq<Bar>): (r: seq<Bar>)
    ensures |r| == |bars|
    ensures forall i | 0 <= i < |bars| :: r[i] == MovedBar(a, b, bars[i])
  {
    seq(|bars|, i requires 0 <= i < |bars| => MovedBar(a, b, bars[i]))
  }

  function MovedAll(a: real, b: real, xs: seq<real>): (r: seq<real>)
    ensures |r| == |xs|
    ensures forall i | 0 <= i < |xs| :: r[i] == Moved(a, b, xs[i])
  {
    seq(|xs|, i requires 0 <= i < |xs| => Moved(a, b, xs[i]))
  }

  lemma {:induction false} ScaledAdd(a: real, x: real, y: real)
    ensures Scaled(a, x + y) == Scaled(a, x) + Scaled(a, y)
    ensures Scaled(a, x - y) == Scaled(a, x) - Scaled(a, y)
    ensures Scaled(a, -x) == -Scaled(a, x) && Scaled(a, 0.0) == 0.0
  {
  }

  lemma {:induction false} ScaledSign(a: real, d: real)
    requires a > 0.0
    ensures (Scaled(a, d) < 0.0 <==> d < 0.0) && (Scaled(a, d) > 0.0 <==> d > 0.0)
  {
  }

  /** Scaling keeps the order, and so commutes with maximum, minimum and absolute value. */
  lemma {:induction false} ScaledOrder(a: real, x: real, y: real)
    requires a > 0.0
    ensures Scaled(a, x) < Scaled(a, y) <==> x < y
    ensures Scaled(a, x) <= Scaled(a, y) <==> x <= y
    ensures MaxR(Scaled(a, x), Scaled(a, y)) == Scaled(a, MaxR(x, y))
    ensures MinR(Scaled(a, x), Scaled(a, y)) == Scaled(a, MinR(x, y))
    ensures Abs(Scaled(a, x)) == Scaled(a, Abs(x))
  {
    hide Scaled;
    ScaledAdd(a, x, y);
    ScaledSign(a, x - y);
    ScaledSign(a, x);
  }

  lemma {:induction false} MovedOrder(a: real, b: real, x: real, y: real)
    requires a > 0.0
    ensures Moved(a, b, x) < Moved(a, b, y) <==> x < y
    ensures Moved(a, b, x) <= Moved(a, b, y) <==> x <= y
    ensures Moved(a, b, x) - Moved(a, b, y) == Scaled(a, x - y)
    ensures MaxR(Moved(a, b, x), Moved(a, b, y)) == Moved(a, b, MaxR(x, y))
    ensures MinR(Moved(a, b, x), Moved(a, b, y)) == Moved(a, b, MinR(x, y))
  {
    hide Scaled;
    ScaledAdd(a, x, y);
    ScaledOrder(a, x, y);
  }

  lemma {:induction false} ScaledRatio(a: real, x: real, y: real)
    requires a > 0.0 && y != 0.0
    ensures Scaled(a, y) != 0.0 && Scaled(a, x) / Scaled(a, y) == x / y
  {
    var q := x / y;
    assert q * y == x;
    assert q * (a * y) == a * x;
  }

  lemma {:induction false} ScaledMean(a: real, x: real, n: nat)
    requires n >= 1
    ensures Mean(Scaled(a, x), n) == Scaled(a, Mean(x, n))
  {
  }

  lemma {:induction false} MovedBlend(a: real, b: real, x: real, y: real, k: real)
    ensures Blend(Moved(a, b, x), Moved(a, b, y), k) == Moved(a, b, Blend(x, y, k))
  {
    assert (a * x + b) * k == a * (x * k) + b * k;
    assert (a * y + b) * (1.0 - k) == a * (y * (1.0 - k)) + b * (1.0 - k);
    assert b * k + b * (1.0 - k) == b;
  }

  lemma {:induction false} EmaMoves(a: real, b: real, xs: seq<real>, period: int, i: nat)
    requires i < |xs|
    ensures Ema(MovedAll(a, b, xs), period, i) == Moved(a, b, Ema(xs, period, i))
  {
    hide Moved, Blend, Alpha;
    if period > 0 && i > 0 {
      EmaMoves(a, b, xs, period, i - 1);
      MovedBlend(a, b, xs[i], Ema(xs, period, i - 1), Alpha(period));
    }
  }

  lemma {:induction false} GainsScale(a: real, b: real, xs: seq<real>, lo: nat, n: nat)
    requires a > 0.0 && lo + n < |xs|
    ensures Gains(MovedAll(a, b, xs), lo, n) == Scaled(a, Gains(xs, lo, n))
    ensures Losses(MovedAll(a, b, xs), lo, n) == Scaled(a, Losses(xs, lo, n))
  {
    hide Moved, MaxR, Scaled;
    ScaledAdd(a, 0.0, 0.0);
    if n > 0 {
      GainsScale(a, b, xs, lo, n - 1);
      var d := xs[lo + n] - xs[lo + n - 1];
      MovedOrder(a, b, xs[lo + n], xs[lo + n - 1]);
      ScaledOrder(a, d, 0.0);
      ScaledOrder(a, -d, 0.0);
      ScaledAdd(a, d, 0.0);
      ScaledAdd(a, Gains(xs, lo, n - 1), MaxR(d, 0.0));
      ScaledAdd(a, Losses(xs, lo, n - 1), MaxR(-d, 0.0));
    }
  }

  lemma {:induction false} StrengthUnmoved(a: real, gain: real, loss: real)
    requires a > 0.0 && gain >= 0.0 && loss >= 0.0
    ensures Scaled(a, gain) >= 0.0 && Scaled(a, loss) >= 0.0
    ensures Strength(Scaled(a, gain), Scaled(a, loss)) == Strength(gain, loss)
  {
    ScaledOrder(a, 0.0, gain);
    ScaledOrder(a, 0.0, loss);
    ScaledSign(a, loss);
    if loss != 0.0 {
      ScaledRatio(a, gain, loss);
    }
    ScaledAdd(a, 0.0, 0.0);
    hide Scaled;
  }

  lemma {:induction false} RsiUnmoved(a: real, b: real, xs: seq<real>, period: nat)
    requires a > 0.0 && period >= 1
    ensures Rsi(MovedAll(a, b, xs), period) == Rsi(xs, period)
  {
    hide Gains, Losses, Moved, Strength, Mean, Scaled;
    if |xs| >= period + 1 {
      var lo := |xs| - period - 1;
      GainsScale(a, b, xs, lo, period);
      ScaledMean(a, Gains(xs, lo, period), period);
      ScaledMean(a, Losses(xs, lo, period), period);
      StrengthUnmoved(a, Mean(Gains(xs, lo, period), period), Mean(Losses(xs, lo, period), period));
    }
  }

  lemma {:induction false} TrueRangeScales(a: real, b: real, prev: Bar, cur: Bar)
    requires a > 0.0
    ensures TrueRange(MovedBar(a, b, prev), MovedBar(a, b, cur)) == Scaled(a, TrueRange(prev, cur))
  {
    hide Moved, MaxR, Abs, Scaled;
    var x, y, z := cur.high - cur.low, cur.high - prev.close, cur.low - prev.close;
    MovedOrder(a, b, cur.high, cur.low);
    MovedOrder(a, b, cur.high, prev.close);
    MovedOrder(a, b, cur.low, prev.close);
    ScaledOrder(a, y, 0.0);
    ScaledOrder(a, z, 0.0);
    ScaledOrder(a, x, Abs(y));
    ScaledOrder(a, MaxR(x, Abs(y)), Abs(z));
  }

  lemma {:induction false} RangesScale(a: real, b: real, bars: seq<Bar>, hi: nat, n: nat)
    requires a > 0.0 && n < hi <= |bars|
    ensures Ranges(MovedBars(a, b, bars), hi, n) == Scaled(a, Ranges(bars, hi, n))
  {
    hide TrueRange, MovedBar, Scaled;
    ScaledAdd(a, 0.0, 0.0);
    if n > 0 {
      RangesScale(a, b, bars, hi, n - 1);
      TrueRangeScales(a, b, bars[hi - n - 1], bars[hi - n]);
      ScaledAdd(a, Ranges(bars, hi, n - 1), TrueRange(bars[hi - n - 1], bars[hi - n]));
    }
  }

  lemma {:induction false} AtrScales(a: real, b: real, bars: seq<Bar>, hi: nat, period: nat)
    requires a > 0.0 && period >= 1 && hi <= |bars|
    ensures Atr(MovedBars(a, b, bars), hi, period) == Scaled(a, Atr(bars, hi, period))
  {
    hide Ranges, MovedBar, Scaled, Mean;
    ScaledAdd(a, 0.0, 0.0);
    if hi >= period + 1 {
      RangesScale(a, b, bars, hi, period);
      ScaledMean(a, Ranges(bars, hi, period), period);
    }
  }

  lemma {:induction false} BodyScales(a: real, b: real, bar: Bar)
    requires a > 0.0
    ensures Body(MovedBar(a, b, bar)) == Scaled(a, Body(bar))
  {
    hide Moved, Abs, Scaled;
    MovedOrder(a, b, bar.close, bar.open);
    ScaledOrder(a, bar.close - bar.open, 0.0);
  }

  lemma {:induction false} BodiesScale(a: real, b: real, bars: seq<Bar>, n: nat)
    requires a > 0.0 && n <= |bars|
    ensures Bodies(MovedBars(a, b, bars), n) == Scaled(a, Bodies(bars, n))
  {
    hide Body, MovedBar, Scaled;
    ScaledAdd(a, 0.0, 0.0);
    if n > 0 {
      BodiesScale(a, b, bars, n - 1);
      BodyScales(a, b, bars[|bars| - n]);
      ScaledAdd(a, Bodies(bars, n - 1), Body(bars[|bars| - n]));
    }
  }

  lemma {:induction false} ExtremesMove(a: real, b: real, bars: seq<Bar>)
    requires a > 0.0 && bars != []
    ensures Highest(MovedBars(a, b, bars)) == Moved(a, b, Highest(bars))
    ensures Lowest(MovedBars(a, b, bars)) == Moved(a, b, Lowest(bars))
  {
    hide Moved, MaxR, MinR, Scaled;
    if |bars| > 1 {
      var n := |bars| - 1;
      ExtremesMove(a, b, bars[..n]);
      assert MovedBars(a, b, bars)[..n] == MovedBars(a, b, bars[..n]);
      MovedOrder(a, b, Highest(bars[..n]), bars[n].high);
      MovedOrder(a, b, Lowest(bars[..n]), bars[n].low);
    }
  }

  lemma {:induction false} StreakUnmoved(a: real, b: real, side: Side, bars: seq<Bar>, i: nat, n: nat)
    requires a > 0.0 && n <= |bars|
    ensures Streak(side, MovedBars(a, b, bars), i, n) == Streak(side, bars, i, n)
    decreases n - i
  {
    hide Moved, Scaled;
    if i < n {
      var bar := bars[|bars| - 1 - i];
      MovedOrder(a, b, bar.close, bar.open);
      MovedOrder(a, b, bar.open, bar.close);
      StreakUnmoved(a, b, side, bars, i + 1, n);
    }
  }

  lemma {:induction false} RatioUnmoved(a: real, x: real, y: real)
    requires a > 0.0
    ensures Ratio(Scaled(a, x), Scaled(a, y)) == Ratio(x, y)
  {
    ScaledSign(a, y);
    if y > 0.0 {
      ScaledRatio(a, x, y);
    }
    hide Scaled;
  }

  lemma {:induction false} PenaltyUnmoved(a: real, b: real, side: Side, bar: Bar)
    requires a > 0.0
    ensures WickPenalty(side, MovedBar(a, b, bar)) == WickPenalty(side, bar)
  {
    hide Moved, MaxR, MinR, Body, Scaled;
    var body := Body(bar);
    var top, bottom := MaxR(bar.close, bar.open), MinR(bar.close, bar.open);
    BodyScales(a, b, bar);
    ScaledSign(a, body);
    MovedOrder(a, b, bar.high, bar.low);
    MovedOrder(a, b, bar.low, bar.high);
    MovedOrder(a, b, bar.close, bar.open);
    MovedOrder(a, b, bar.high, top);
    MovedOrder(a, b, bottom, bar.low);
    if body > 0.0 {
      ScaledRatio(a, bar.high - top, body);
      ScaledRatio(a, bottom - bar.low, body);
    }
  }

  /** Trend, slope and breakout compare prices, so they do not move either. */
  lemma {:induction false} DirectionUnmoved(a: real, b: real, s: Settings, bars: seq<Bar>)
    requires a > 0.0 && s.Valid() && |bars| >= s.Needed()
    ensures var f, g := FeaturesOf(s, MovedBars(a, b, bars)), FeaturesOf(s, bars);
      f.side == g.side && f.slope == g.slope && f.breakout == g.breakout
  {
    hide Moved, Scaled, Mean, Ema, Rsi, Atr, Ranges, Bodies, Body, Streak, Highest, Lowest, WickPenalty, Ratio;
    var n, closes := |bars|, Closes(bars);
    assert Closes(MovedBars(a, b, bars)) == MovedAll(a, b, closes);
    EmaMoves(a, b, closes, s.emaFast, n - 1);
    EmaMoves(a, b, closes, s.emaFast, n - 2);
    EmaMoves(a, b, closes, s.emaSlow, n - 1);
    var fast, before, slow :=
      Ema(closes, s.emaFast, n - 1), Ema(closes, s.emaFast, n - 2), Ema(closes, s.emaSlow, n - 1);
    MovedOrder(a, b, fast, slow);
    MovedOrder(a, b, slow, fast);
    MovedOrder(a, b, fast, before);
    MovedOrder(a, b, before, fast);
    var recent := bars[n - 6..n - 1];
    assert MovedBars(a, b, bars)[n - 6..n - 1] == MovedBars(a, b, recent);
    ExtremesMove(a, b, recent);
    MovedOrder(a, b, Highest(recent), bars[n - 1].close);
    MovedOrder(a, b, bars[n - 1].close, Lowest(recent));
  }

  /** So do the body and wick features. */
  lemma {:induction false} BodiesUnmoved(a: real, b: real, s: Settings, bars: seq<Bar>)
    requires a > 0.0 && s.Valid() && |bars| >= s.Needed()
    ensures var f, g := FeaturesOf(s, MovedBars(a, b, bars)), FeaturesOf(s, bars);
      f.bodyAboveAverage == g.bodyAboveAverage && f.acceleration == g.acceleration
  {
    hide Moved, Scaled, Mean, Ema, Rsi, Atr, Ranges, Bodies, Body, Streak, Highest, Lowest, WickPenalty, Ratio, TrendOf;
    var last, average := bars[|bars| - 1], Mean(Bodies(bars, 10), 10);
    BodyScales(a, b, last);
    BodiesScale(a, b, bars, 10);
    ScaledMean(a, Bodies(bars, 10), 10);
    ScaledOrder(a, average, Body(last));
    RatioUnmoved(a, Body(last), average);
  }

  lemma {:induction false} RsiFeatureUnmoved(a: real, b: real, s: Settings, bars: seq<Bar>)
    requires a > 0.0 && s.Valid() && |bars| >= s.Needed()
    ensures FeaturesOf(s, MovedBars(a, b, bars)).rsi == FeaturesOf(s, bars).rsi
  {
    hide Moved, Scaled, Mean, Ema, Rsi, Atr, Ranges, Bodies, Body, Streak, Highest, Lowest, WickPenalty, Ratio, TrendOf;
    assert Closes(MovedBars(a, b, bars)) == MovedAll(a, b, Closes(bars));
    RsiUnmoved(a, b, Closes(bars), s.rsiPeriod);
  }

  lemma {:induction false} AtrFeatureUnmoved(a: real, b: real, s: Settings, bars: seq<Bar>)
    requires a > 0.0 && s.Valid() && |bars| >= s.Needed()
    ensures FeaturesOf(s, MovedBars(a, b, bars)).atrRatio == FeaturesOf(s, bars).atrRatio
  {
    hide Moved, Scaled, Mean, Ema, Rsi, Atr, Ranges, Bodies, Body, Streak, Highest, Lowest, WickPenalty, Ratio, TrendOf;
    var n := |bars|;
    AtrScales(a, b, bars, n, s.atrPeriod);
    AtrScales(a, b, bars, n - 1, s.atrPeriod);
    RatioUnmoved(a, Atr(bars, n, s.atrPeriod), Atr(bars, n - 1, s.atrPeriod));
  }

  /** And streak and penalty. */
  lemma {:induction false} ShapeUnmoved(a: real, b: real, s: Settings, bars: seq<Bar>)
    requires a > 0.0 && s.Valid() && |bars| >= s.Needed()
    ensures var f, g := FeaturesOf(s, MovedBars(a, b, bars)), FeaturesOf(s, bars);
      f.streak == g.streak && f.penalty == g.penalty
  {
    DirectionUnmoved(a, b, s, bars);
    hide Moved, Scaled, Mean, Ema, Rsi, Atr, Ranges, Bodies, Body, Streak, Highest, Lowest, WickPenalty, Ratio, TrendOf;
    var side := FeaturesOf(s, bars).side;
    StreakUnmoved(a, b, side, bars, 1, 3);
    PenaltyUnmoved(a, b, side, bars[|bars| - 1]);
  }

  /** Every feature of the score is unchanged by a positive rescaling and a shift of all prices. */
  lemma {:induction false} FeaturesUnmoved(a: real, b: real, s: Settings, bars: seq<Bar>)
    requires a > 0.0 && s.Valid() && |bars| >= s.Needed()
    ensures FeaturesOf(s, MovedBars(a, b, bars)) == FeaturesOf(s, bars)
  {
    hide FeaturesOf;
    DirectionUnmoved(a, b, s, bars);
    BodiesUnmoved(a, b, s, bars);
    RsiFeatureUnmoved(a, b, s, bars);
    AtrFeatureUnmoved(a, b, s, bars);
    ShapeUnmoved(a, b, s, bars);
  }

  /** Score and direction depend only on the shape of the price history. */
  lemma {:induction false} ScoreUnmoved(a: real, b: real, s: Settings, bars: seq<Bar>)
    requires a > 0.0 && s.Valid()
    ensures Score(s, MovedBars(a, b, bars)) == Score(s, bars)
  {
    hide ScoreOf, FeaturesOf;
    if |bars| >= s.Needed() {
      FeaturesUnmoved(a, b, s, bars);
    }
  }

  // ----- bounds

  /** High and low enclose open and close. */
  ghost predicate Consistent(b: Bar) {
    b.low <= MinR(b.open, b.close) && MaxR(b.open, b.close) <= b.high
  }

  lemma {:induction false} PenaltyInUnit(side: Side, b: Bar)
    requires Consistent(b)
    ensures 0.0 <= WickPenalty(side, b) <= 1.0
  {
    var body := Body(b);
    if body > 0.0 {
      var up, down := b.high - MaxR(b.close, b.open), MinR(b.close, b.open) - b.low;
      assert up / body >= 0.0 && down / body >= 0.0;
    }
  }

  /** Only the last bar has to be consistent for the score to lie between 0 and 10. */
  lemma {:induction false} ScoreWithinTen(s: Settings, bars: seq<Bar>)
    requires s.Valid() && (bars != [] ==> Consistent(bars[|bars| - 1]))
    ensures 0.0 <= Score(s, bars).0 <= 10.0
    ensures Score(s, bars).1 != NONE ==> Score(s, bars).0 >= s.minScore
  {
    if |bars| >= s.Needed() {
      var f := FeaturesOf(s, bars);
      PenaltyInUnit(f.side, bars[|bars| - 1]);
      assert f.penalty == WickPenalty(f.side, bars[|bars| - 1]);
      hide FeaturesOf, MomentumScore, WickPenalty;
    }
  }

  // ----- mirror image

  function Opposite(side: Side): Side {
    match side
    case BUY => SELL
    case SELL => BUY
    case NONE => NONE
  }

  function MirrorBar(b: Bar): Bar {
    Bar(-b.open, -b.low, -b.high, -b.close)
  }

  function MirrorBars(bars: seq<Bar>): (r: seq<Bar>)
    ensures |r| == |bars|
    ensures forall i | 0 <= i < |bars| :: r[i] == MirrorBar(bars[i])
  {
    seq(|bars|, i requires 0 <= i < |bars| => MirrorBar(bars[i]))
  }

  /** The closes the RSI looks at are all equal. */
  ghost predicate Flat(xs: seq<real>, period: nat) {
    |xs| >= period + 1 && forall i | |xs| - period - 1 <= i < |xs| - 1 :: xs[i] == xs[i + 1]
  }

  lemma {:induction false} EmaMirrors(xs: seq<real>, period: int, i: nat)
    requires i < |xs|
    ensures Ema(Negated(xs), period, i) == -Ema(xs, period, i)
  {
    hide Blend, Alpha;
    if period > 0 && i > 0 {
      EmaMirrors(xs, period, i - 1);
      BlendMirrors(xs[i], Ema(xs, period, i - 1), Alpha(period));
    }
  }

  lemma {:induction false} BlendMirrors(x: real, y: real, k: real)
    ensures Blend(-x, -y, k) == -Blend(x, y, k)
  {
    assert (-x) * k == -(x * k) && (-y) * (1.0 - k) == -(y * (1.0 - k));
  }

  lemma {:induction false} GainsMirror(xs: seq<real>, lo: nat, n: nat)
    requires lo + n < |xs|
    ensures Gains(Negated(xs), lo, n) == Losses(xs, lo, n) && Losses(Negated(xs), lo, n) == Gains(xs, lo, n)
  {
    if n > 0 {
      GainsMirror(xs, lo, n - 1);
    }
  }

  lemma {:induction false} FlatIff(xs: seq<real>, lo: nat, n: nat)
    requires lo + n < |xs|
    ensures (Gains(xs, lo, n) == 0.0 && Losses(xs, lo, n) == 0.0) <==> forall i | lo <= i < lo + n :: xs[i] == xs[i + 1]
  {
    if n > 0 {
      FlatIff(xs, lo, n - 1);
      assert Gains(xs, lo, n - 1) >= 0.0 && Losses(xs, lo, n - 1) >= 0.0;
    }
  }

  lemma {:induction false} StrengthMirrors(gain: real, loss: real)
    requires gain >= 0.0 && loss >= 0.0
    ensures Strength(loss, gain) == 100.0 - Strength(gain, loss) <==> gain != 0.0 || loss != 0.0
  {
    if gain > 0.0 && loss > 0.0 {
      var q := gain / loss;
      assert q > 0.0 && loss / gain == 1.0 / q;
      var u := 1.0 / (1.0 + q);
      assert u * (1.0 + q) == 1.0;
      assert 1.0 + 1.0 / q == (1.0 + q) / q;
      assert 1.0 / (1.0 + 1.0 / q) == q / (1.0 + q) == 1.0 - u;
      assert 100.0 / (1.0 + q) == 100.0 * u && 100.0 / (1.0 + 1.0 / q) == 100.0 * (1.0 - u);
    }
  }

  lemma {:induction false} MeanSign(x: real, n: nat)
    requires n >= 1
    ensures Mean(x, n) == 0.0 <==> x == 0.0
  {
    assert Mean(x, n) * n as real == x;
  }

  /** The mirrored RSI is 100 minus the RSI, exactly when the market moved at all. */
  lemma {:induction false} RsiMirrorsIff(xs: seq<real>, period: nat)
    requires period >= 1
    ensures Rsi(Negated(xs), period) == 100.0 - Rsi(xs, period) <==> !Flat(xs, period)
  {
    if |xs| >= period + 1 {
      var lo := |xs| - period - 1;
      var gain, loss := Gains(xs, lo, period), Losses(xs, lo, period);
      GainsMirror(xs, lo, period);
      FlatIff(xs, lo, period);
      MeanSign(gain, period);
      MeanSign(loss, period);
      StrengthMirrors(Mean(gain, period), Mean(loss, period));
      hide Gains, Losses, Mean, Strength;
    }
  }

  lemma {:induction false} RangesMirror(bars: seq<Bar>, hi: nat, n: nat)
    requires n < hi <= |bars|
    ensures Ranges(MirrorBars(bars), hi, n) == Ranges(bars, hi, n)
  {
    if n > 0 {
      RangesMirror(bars, hi, n - 1);
      assert TrueRange(MirrorBar(bars[hi - n - 1]), MirrorBar(bars[hi - n])) ==
        TrueRange(bars[hi - n - 1], bars[hi - n]);
    }
  }

  lemma {:induction false} BodiesMirror(bars: seq<Bar>, n: nat)
    requires n <= |bars|
    ensures Bodies(MirrorBars(bars), n) == Bodies(bars, n)
  {
    if n > 0 {
      BodiesMirror(bars, n - 1);
      assert Body(MirrorBar(bars[|bars| - n])) == Body(bars[|bars| - n]);
    }
  }

  lemma {:induction false} ExtremesMirror(bars: seq<Bar>)
    requires bars != []
    ensures Highest(MirrorBars(bars)) == -Lowest(bars) && Lowest(MirrorBars(bars)) == -Highest(bars)
  {
    if |bars| > 1 {
      var n := |bars| - 1;
      ExtremesMirror(bars[..n]);
      assert MirrorBars(bars)[..n] == MirrorBars(bars[..n]);
    }
  }

  lemma {:induction false} StreakMirrors(side: Side, bars: seq<Bar>, i: nat, n: nat)
    requires n <= |bars|
    ensures Streak(Opposite(side), MirrorBars(bars), i, n) == Streak(side, bars, i, n)
    decreases n - i
  {
    if i < n {
      StreakMirrors(side, bars, i + 1, n);
    }
  }

  lemma {:induction false} PenaltyMirrors(side: Side, b: Bar)
    ensures WickPenalty(Opposite(side), MirrorBar(b)) == WickPenalty(side, b)
  {
    assert Body(MirrorBar(b)) == Body(b);
    assert MaxR(-b.close, -b.open) == -MinR(b.close, b.open) && MinR(-b.close, -b.open) == -MaxR(b.close, b.open);
    hide Body;
  }

  lemma {:induction false} DirectionMirrors(s: Settings, bars: seq<Bar>)
    requires s.Valid() && |bars| >= s.Needed()
    ensures var f, g := FeaturesOf(s, MirrorBars(bars)), FeaturesOf(s, bars);
      f.side == Opposite(g.side) && f.slope == g.slope && f.breakout == g.breakout
  {
    hide Mean, Ema, Rsi, Atr, Ranges, Bodies, Body, Streak, Highest, Lowest, WickPenalty, Ratio;
    var n, closes := |bars|, Closes(bars);
    assert Closes(MirrorBars(bars)) == Negated(closes);
    EmaMirrors(closes, s.emaFast, n - 1);
    EmaMirrors(closes, s.emaFast, n - 2);
    EmaMirrors(closes, s.emaSlow, n - 1);
    assert MirrorBars(bars)[n - 6..n - 1] == MirrorBars(bars[n - 6..n - 1]);
    ExtremesMirror(bars[n - 6..n - 1]);
  }

  lemma {:induction false} ShapeMirrors(s: Settings, bars: seq<Bar>)
    requires s.Valid() && |bars| >= s.Needed()
    ensures var f, g := FeaturesOf(s, MirrorBars(bars)), FeaturesOf(s, bars);
      && f.streak == g.streak && f.penalty == g.penalty
  {
    DirectionMirrors(s, bars);
    hide Mean, Ema, Rsi, Atr, Ranges, Bodies, Body, Streak, Highest, Lowest, WickPenalty, Ratio, TrendOf;
    var side := FeaturesOf(s, bars).side;
    StreakMirrors(side, bars, 1, 3);
    PenaltyMirrors(side, bars[|bars| - 1]);
  }

  lemma {:induction false} SizesMirror(s: Settings, bars: seq<Bar>)
    requires s.Valid() && |bars| >= s.Needed()
    ensures var f, g := FeaturesOf(s, MirrorBars(bars)), FeaturesOf(s, bars);
      f.bodyAboveAverage == g.bodyAboveAverage && f.acceleration == g.acceleration && f.atrRatio == g.atrRatio
  {
    var n := |bars|;
    assert Body(MirrorBar(bars[n - 1])) == Body(bars[n - 1]);
    hide Mean, Ema, Rsi, Ranges, Bodies, Body, Streak, Highest, Lowest, WickPenalty, Ratio, TrendOf;
    BodiesMirror(bars, 10);
    RangesMirror(bars, n, s.atrPeriod);
    RangesMirror(bars, n - 1, s.atrPeriod);
  }

  lemma {:induction false} MirroredRsi(s: Settings, bars: seq<Bar>)
    requires s.Valid() && |bars| >= s.Needed() && !Flat(Closes(bars), s.rsiPeriod)
    ensures FeaturesOf(s, MirrorBars(bars)).rsi == 100.0 - FeaturesOf(s, bars).rsi
  {
    RsiMirrorsIff(Closes(bars), s.rsiPeriod);
    assert Closes(MirrorBars(bars)) == Negated(Closes(bars));
    hide Mean, Ema, Rsi, Atr, Ranges, Bodies, Body, Streak, Highest, Lowest, WickPenalty, Ratio, TrendOf, Flat;
  }

  /** Mirroring flips the side and reflects the RSI; every other feature stays. */
  lemma {:induction false} FeaturesMirror(s: Settings, bars: seq<Bar>)
    requires s.Valid() && |bars| >= s.Needed() && !Flat(Closes(bars), s.rsiPeriod)
    ensures var g := FeaturesOf(s, bars);
      FeaturesOf(s, MirrorBars(bars)) == g.(side := Opposite(g.side), rsi := 100.0 - g.rsi)
  {
    hide FeaturesOf, Flat;
    DirectionMirrors(s, bars);
    ShapeMirrors(s, bars);
    SizesMirror(s, bars);
    MirroredRsi(s, bars);
  }

  lemma {:induction false} FlatRsi(xs: seq<real>, period: nat)
    requires period >= 1 && Flat(xs, period)
    ensures Rsi(xs, period) == Rsi(Negated(xs), period) == 100.0
  {
    var lo := |xs| - period - 1;
    GainsMirror(xs, lo, period);
    FlatIff(xs, lo, period);
  }

  lemma {:induction false} FlatMirroredRsi(s: Settings, bars: seq<Bar>)
    requires s.Valid() && |bars| >= s.Needed() && Flat(Closes(bars), s.rsiPeriod)
    ensures FeaturesOf(s, MirrorBars(bars)).rsi == FeaturesOf(s, bars).rsi == 100.0
  {
    FlatRsi(Closes(bars), s.rsiPeriod);
    assert Closes(MirrorBars(bars)) == Negated(Closes(bars));
    hide Mean, Ema, Rsi, Atr, Ranges, Bodies, Body, Streak, Highest, Lowest, WickPenalty, Ratio, TrendOf, Flat;
  }

  /** In a flat market mirroring flips the side and leaves everything else, the RSI of 100 included. */
  lemma {:induction false} FlatFeaturesMirror(s: Settings, bars: seq<Bar>)
    requires s.Valid() && |bars| >= s.Needed() && Flat(Closes(bars), s.rsiPeriod)
    ensures var g := FeaturesOf(s, bars);
      g.rsi == 100.0 && FeaturesOf(s, MirrorBars(bars)) == g.(side := Opposite(g.side))
  {
    hide FeaturesOf, Flat;
    DirectionMirrors(s, bars);
    ShapeMirrors(s, bars);
    SizesMirror(s, bars);
    FlatMirroredRsi(s, bars);
  }

  /** Below the cap of 3, half a point more momentum shows. */
  lemma {:induction false} MomentumShows(base: real, acceleration: real, streak: nat)
    requires (base == 0.0 || base == 1.5) && 1 <= streak <= 3
    ensures 0.0 <= MinR(Amplified(base, acceleration, streak), 3.0)
    ensures MinR(Amplified(base, acceleration, streak), 3.0) < MinR(Amplified(base + 0.5, acceleration, streak), 3.0)
  {
    var factor := 1.0 + MaxR(MinR(acceleration - 1.0, 0.5) + (streak - 1) as real * 0.1, 0.0);
    assert 1.0 <= factor <= 1.7;
    if base == 0.0 {
      assert base * factor == 0.0 && (base + 0.5) * factor == 0.5 * factor;
    } else {
      assert base * factor == 1.5 * factor && (base + 0.5) * factor == 2.0 * factor;
    }
  }

  lemma {:induction false} StreakRange(side: Side, bars: seq<Bar>, i: nat, n: nat)
    requires i <= n <= |bars|
    ensures 1 <= Streak(side, bars, i, n) <= n - i + 1
    decreases n - i
  {
    if i < n {
      StreakRange(side, bars, i + 1, n);
    }
  }

  /** With an RSI of 100 a buyer scores strictly more than a seller with the same features. */
  lemma {:induction false} BuyerScoresMore(f: Features)
    requires f.rsi == 100.0 && 1 <= f.streak <= 3 && f.penalty <= 1.0
    ensures ScoreOf(f.(side := BUY)) > ScoreOf(f.(side := SELL))
  {
    var b, q := f.(side := BUY), f.(side := SELL);
    var base := if f.bodyAboveAverage then 1.5 else 0.0;
    MomentumShows(base, f.acceleration, f.streak);
    assert RsiScore(b) == 0.5 && RsiScore(q) == 0.0;
    assert VolatilityScore(b) == VolatilityScore(q) >= 0.5;
    assert TrendScore(b) == TrendScore(q) >= 1.5;
    hide Amplified, VolatilityScore, TrendScore, RsiScore;
    assert MomentumScore(b) == Amplified(base + 0.5, f.acceleration, f.streak);
    assert MomentumScore(q) == Amplified(base, f.acceleration, f.streak);
  }

  lemma {:induction false} PenaltyAtMostOne(side: Side, b: Bar)
    ensures WickPenalty(side, b) <= 1.0
  {
  }

  lemma {:induction false} FeatureRanges(s: Settings, bars: seq<Bar>)
    requires s.Valid() && |bars| >= s.Needed()
    ensures var f := FeaturesOf(s, bars); 1 <= f.streak <= 3 && f.penalty <= 1.0
  {
    hide Mean, Ema, Rsi, Atr, Ranges, Bodies, Body, Streak, Highest, Lowest, WickPenalty, Ratio;
    var side := FeaturesOf(s, bars).side;
    StreakRange(side, bars, 1, 3);
    PenaltyAtMostOne(side, bars[|bars| - 1]);
  }

  /** Mirroring all prices flips the direction and keeps the score exactly when there are too few bars to score, the
      closes behind the RSI are not all equal, or the averages show no trend. */
  lemma {:induction false} ScoreMirrors(s: Settings, bars: seq<Bar>)
    requires s.Valid()
    ensures Score(s, MirrorBars(bars)) == (Score(s, bars).0, Opposite(Score(s, bars).1)) <==>
      |bars| < s.Needed() || !Flat(Closes(bars), s.rsiPeriod) || FeaturesOf(s, bars).side == NONE
  {
    hide FeaturesOf, ScoreOf, Flat;
    if |bars| >= s.Needed() {
      var g := FeaturesOf(s, bars);
      if !Flat(Closes(bars), s.rsiPeriod) {
        FeaturesMirror(s, bars);
        MirroredFeaturesScoreTheSame(g);
      } else {
        FlatFeaturesMirror(s, bars);
        FeatureRanges(s, bars);
        BuyerScoresMore(g);
        assert g == g.(side := g.side);
      }
    }
  }

  lemma {:induction false} VolatilityIgnoresSide(g: Features)
    ensures VolatilityScore(g.(side := Opposite(g.side), rsi := 100.0 - g.rsi)) == VolatilityScore(g)
  {
  }

  lemma {:induction false} MirroredFeaturesScoreTheSame(g: Features)
    ensures ScoreOf(g.(side := Opposite(g.side), rsi := 100.0 - g.rsi)) == ScoreOf(g)
  {
    assert RsiScore(g.(side := Opposite(g.side), rsi := 100.0 - g.rsi)) == RsiScore(g);
    hide RsiScore, Amplified, MinR, MaxR, VolatilityScore;
    assert VolatilityScore(g.(side := Opposite(g.side), rsi := 100.0 - g.rsi)) == VolatilityScore(g) by {
      VolatilityIgnoresSide(g);
    }
  }

  /** In a flat market with a trend the upward one of the two mirror images scores strictly more. */
  lemma {:induction false} FlatMarketFavoursBuyers(s: Settings, bars: seq<Bar>)
    requires s.Valid() && |bars| >= s.Needed() && Flat(Closes(bars), s.rsiPeriod)
    ensures var up, down := Score(s, bars).0, Score(s, MirrorBars(bars)).0;
      match FeaturesOf(s, bars).side
      case BUY => up > down
      case SELL => up < down
      case NONE => up == down
  {
    hide FeaturesOf, ScoreOf, Flat;
    var g := FeaturesOf(s, bars);
    FlatFeaturesMirror(s, bars);
    FeatureRanges(s, bars);
    BuyerScoresMore(g);
    assert g == g.(side := g.side);
  }

  // ----- a flat market at the end of a rise

  const QUICK := Settings(1, 2, 1, 1, 5.5)

  /** Fifteen bars closing at 1 and two closing at 2. */
  function Step(): seq<Bar> {
    seq(17, i => var c := if i < 15 then 1.0 else 2.0; Bar(c, c, c, c))
  }

  lemma {:induction false} ConstantEma(xs: seq<real>, period: int, i: nat, x: real)
    requires i < |xs| && forall j | 0 <= j <= i :: xs[j] == x
    ensures Ema(xs, period, i) == x
  {
    if period > 0 && i > 0 {
      ConstantEma(xs, period, i - 1, x);
      BlendOfEquals(x, Alpha(period));
    }
  }

  lemma {:induction false} BlendOfEquals(x: real, k: real)
    ensures Blend(x, x, k) == x
  {
  }

  lemma {:induction false} EmaStep(xs: seq<real>, period: int, i: nat)
    requires 0 < i < |xs| && period > 0
    ensures Ema(xs, period, i) == Blend(xs[i], Ema(xs, period, i - 1), Alpha(period))
  {
  }

  lemma {:induction false} QuickWeights(x: real, y: real)
    ensures Blend(x, y, Alpha(1)) == x
    ensures Blend(x, y, Alpha(2)) == (2.0 * x + y) / 3.0
  {
    assert Alpha(2) == 2.0 / 3.0 && Alpha(1) == 1.0;
  }

  lemma {:induction false} StepAverages()
    ensures var xs := Closes(Step());
      && Ema(xs, 1, 16) == 2.0 && Ema(xs, 2, 16) < 2.0
  {
    hide Ema, Blend, Alpha;
    var xs := Closes(Step());
    ConstantEma(xs, 2, 14, 1.0);
    EmaStep(xs, 2, 15);
    EmaStep(xs, 2, 16);
    EmaStep(xs, 1, 16);
    QuickWeights(2.0, Ema(xs, 2, 14));
    QuickWeights(2.0, Ema(xs, 2, 15));
    QuickWeights(2.0, Ema(xs, 1, 15));
  }

  lemma {:induction false} StepRises()
    ensures FeaturesOf(QUICK, Step()).side == BUY
  {
    StepAverages();
    hide Mean, Ema, Rsi, Atr, Ranges, Bodies, Body, Streak, Highest, Lowest, WickPenalty, Ratio, Step;
  }

  /** A rise followed by two equal closes, and its mirror image, do not score alike. */
  lemma {:induction false} StepIsNotMirrored()
    ensures Score(QUICK, MirrorBars(Step())).0 < Score(QUICK, Step()).0
  {
    StepRises();
    assert Flat(Closes(Step()), QUICK.rsiPeriod);
    hide FeaturesOf, Score, Flat;
    FlatMarketFavoursBuyers(QUICK, Step());
  }
}
