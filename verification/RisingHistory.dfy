/** A history that rises by one at every bar, scored in full. */
module RisingHistory {
  import opened Reals
  import opened SignalScore
  import opened SignalScoreProofs
  import opened ScoreFeatures

  /** Seventeen bars without wicks: bar i opens at i and closes at i + 1. */
  function Rising(): seq<Bar> {
    seq(17, i => Bar(i as real, i as real + 1.0, i as real, i as real + 1.0))
  }

  lemma {:induction false} BarsAre(i: nat)
    requires i < 17
    ensures |Rising()| == 17
    ensures Rising()[i] == Bar(i as real, i as real + 1.0, i as real, i as real + 1.0)
    ensures Closes(Rising())[i] == i as real + 1.0
  {
  }

  /** A slow average lags behind rising values. */
  lemma {:induction false} SlowLags(xs: seq<real>, i: nat)
    requires 0 < i < |xs| && forall j | 0 <= j < i :: xs[j] < xs[j + 1]
    ensures Ema(xs, 2, i) < xs[i]
  {
    if i > 1 {
      SlowLags(xs, i - 1);
    }
    EmaStep(xs, 2, i);
    QuickWeights(xs[i], Ema(xs, 2, i - 1));
    assert Ema(xs, 2, 0) == xs[0];
    hide Ema, Blend, Alpha;
  }

  lemma {:induction false} RisesUp()
    ensures FeaturesOf(QUICK, Rising()).side == BUY && FeaturesOf(QUICK, Rising()).slope
  {
    var xs := Closes(Rising());
    forall i: nat | i < 17
      ensures xs[i] == i as real + 1.0
    {
      BarsAre(i);
    }
    SlowLags(xs, 16);
    EmaStep(xs, 1, 16);
    EmaStep(xs, 1, 15);
    QuickWeights(xs[16], Ema(xs, 1, 15));
    QuickWeights(xs[15], Ema(xs, 1, 14));
    TrendIs(QUICK, Rising());
    hide Ema, Blend, Alpha, FeaturesOf, Rising;
  }

  lemma {:induction false} ClosesAre(xs: seq<real>)
    requires xs == Closes(Rising())
    ensures |xs| == 17 && xs[15] == 16.0 && xs[16] == 17.0
  {
    BarsAre(15);
    BarsAre(16);
  }

  lemma {:induction false} RsiIsFull()
    ensures FeaturesOf(QUICK, Rising()).rsi == 100.0
  {
    var xs := Closes(Rising());
    ClosesAre(xs);
    assert Travelled(xs, 15, 1) == 1.0 by {
      assert Travelled(xs, 15, 0) == 0.0;
    }
    RsiIsTheShareOfRises(xs, 1);
    hide Ema, Rsi, Atr, Bodies, Body, Streak, Highest, Lowest, WickPenalty, Ratio, Mean, Rising, Travelled;
  }

  lemma {:induction false} BodiesAreEqual()
    ensures !FeaturesOf(QUICK, Rising()).bodyAboveAverage && FeaturesOf(QUICK, Rising()).acceleration == 1.0
  {
    forall back: nat | back < 10
      ensures BodyBack(Rising(), back) == 1.0
    {
      BarsAre(16 - back);
    }
    BodiesCompare(QUICK, Rising());
    hide FeaturesOf, BodyBack, Rising;
  }

  lemma {:induction false} RangesAreEqual()
    ensures WeakTier(FeaturesOf(QUICK, Rising()).atrRatio)
  {
    BarsAre(14);
    BarsAre(15);
    BarsAre(16);
    TrueRangeSpans(Rising()[15], Rising()[16]);
    TrueRangeSpans(Rising()[14], Rising()[15]);
    var bars := Rising();
    hide FeaturesOf, Rising, TrueRange;
    assert Ranges(bars, 17, 0) == 0.0 && Ranges(bars, 16, 0) == 0.0;
    assert Ranges(bars, 17, 1) == 1.0 && Ranges(bars, 16, 1) == 1.0;
    TiersCompareRanges(QUICK, bars);
  }

  /** The tier of a weak trend. */
  predicate WeakTier(ratio: real) {
    0.9 < ratio <= 1.2
  }

  lemma {:induction false} BreaksOut()
    ensures FeaturesOf(QUICK, Rising()).breakout
  {
    hide FeaturesOf, Rising;
    assert |Rising()| == 17 by {
      BarsAre(0);
    }
    forall i | 11 <= i < 16
      ensures Rising()[16].close > Rising()[i].high
    {
      BarsAre(i);
      BarsAre(16);
    }
    RisesUp();
    BreakoutIff(QUICK, Rising());
  }

  lemma {:induction false} StreakIsThree()
    ensures FeaturesOf(QUICK, Rising()).streak == 3
  {
    RisesUp();
    BarsAre(14);
    BarsAre(15);
    StreakIs(QUICK, Rising());
    hide FeaturesOf, Rising;
  }

  lemma {:induction false} NoWick()
    ensures FeaturesOf(QUICK, Rising()).penalty == 0.0
  {
    RisesUp();
    BarsAre(16);
    WicklessBar(Rising()[16]);
    PenaltyField(QUICK, Rising());
    assert |Rising()| == 17;
    hide FeaturesOf, Rising, WickPenalty;
  }

  lemma {:induction false} WicklessBar(b: Bar)
    requires b == Bar(16.0, 17.0, 16.0, 17.0)
    ensures WickPenalty(BUY, b) == 0.0
  {
    assert Body(b) == 1.0;
  }

  lemma {:induction false} RisingScore(f: Features)
    requires f.side == BUY && f.slope && f.rsi == 100.0 && !f.bodyAboveAverage && f.acceleration == 1.0
    requires f.streak == 3 && WeakTier(f.atrRatio) && f.breakout && f.penalty == 0.0
    ensures ScoreOf(f) == 5.6
  {
    assert RsiScore(f) == 0.5;
    assert Amplified(0.5, 1.0, 3) == 0.6;
    assert VolatilityScore(f) == 2.0 && TrendScore(f) == 3.0;
  }

  /** The rising history scores 5.6 and is bought: 3 points for trend and slope, an overbought RSI amplified by the
      streak to 0.6, a weak tier, and a breakout. */
  lemma {:induction false} RisingIsBought()
    ensures Score(QUICK, Rising()) == (5.6, BUY)
  {
    RisesUp();
    RsiIsFull();
    BodiesAreEqual();
    RangesAreEqual();
    BreaksOut();
    StreakIsThree();
    NoWick();
    RisingScore(FeaturesOf(QUICK, Rising()));
    assert |Rising()| == 17;
    hide FeaturesOf, Rising, ScoreOf;
  }
}
