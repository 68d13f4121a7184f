/** What counts for the score and what counts against it. */
module ScoreLaws {
  import opened Reals
  import opened SignalScore

  /** The score from its four parts. */
  function Total(trend: real, momentum: real, volatility: real, penalty: real): real {
    MaxR(trend + MinR(momentum, 3.0) + MinR(volatility, 4.0) - penalty, 0.0)
  }

  lemma {:induction false} Parts(f: Features)
    ensures ScoreOf(f) == Total(TrendScore(f), MomentumScore(f), VolatilityScore(f), f.penalty)
  {
    hide TrendScore, MomentumScore, VolatilityScore;
  }

  // ----- trend

  /** A trend is worth 1.5 points even against its slope and with an RSI that speaks for neither side, unless the score
      stays at zero. */
  lemma {:induction false} TrendCounts(f: Features, side: Side)
    requires side != NONE
    ensures var with, without := ScoreOf(f.(side := side, slope := false, rsi := 50.0)), ScoreOf(f.(side := NONE));
      && with >= without
      && (with > without <==> with > 0.0)
      && (without > 0.0 ==> with == without + 1.5)
  {
    var g, h := f.(side := side, slope := false, rsi := 50.0), f.(side := NONE);
    assert VolatilityScore(g) == VolatilityScore(h);
    assert MomentumScore(g) == MomentumScore(h) by {
      MomentumIs(g);
      MomentumIs(h);
      assert Drive(g) == Drive(h) && Push(g) == Push(h);
      hide MomentumScore, Amplify;
    }
    hide MomentumScore, VolatilityScore;
  }

  /** A slope along the trend is worth 1.5 points, unless there is no trend or the score stays at zero anyway. */
  lemma {:induction false} SlopeCounts(f: Features)
    ensures var with, without := ScoreOf(f.(slope := true)), ScoreOf(f.(slope := false));
      && with >= without
      && (with > without <==> f.side != NONE && with > 0.0)
      && (f.side != NONE && without > 0.0 ==> with == without + 1.5)
  {
    var g, h := f.(slope := true), f.(slope := false);
    assert MomentumScore(g) == MomentumScore(h) && VolatilityScore(g) == VolatilityScore(h);
    hide MomentumScore, VolatilityScore;
  }

  // ----- momentum

  /** How an RSI ranks: for a buyer from 50 up, 60 up and below 80 is best, then 50 to 60, then 80 and more; for a
      seller the reflection. */
  function RsiRank(side: Side, rsi: real): nat {
    match side
    case BUY => if 60.0 < rsi < 80.0 then 3 else if 50.0 < rsi <= 60.0 then 2 else if rsi >= 80.0 then 1 else 0
    case SELL => if 20.0 < rsi < 40.0 then 3 else if 40.0 <= rsi < 50.0 then 2 else if rsi <= 20.0 then 1 else 0
    case NONE => 0
  }

  /** Acceleration and continuity of the move: the body over the average body less one, at most a half, plus a tenth for
      each further bar of the streak. */
  function Push(f: Features): real {
    MinR(f.acceleration - 1.0, 0.5) + (f.streak - 1) as real * 0.1
  }

  /** Momentum before it is amplified. */
  function Drive(f: Features): real {
    RsiRank(f.side, f.rsi) as real * 0.5 + (if f.bodyAboveAverage then 1.5 else 0.0)
  }

  lemma {:induction false} MomentumIs(f: Features)
    ensures MomentumScore(f) == Amplify(Drive(f), Push(f))
  {
    assert RsiScore(f) == RsiRank(f.side, f.rsi) as real * 0.5;
  }

  function Amplify(drive: real, push: real): real {
    drive * (1.0 + MaxR(push, 0.0))
  }

  lemma {:induction false} AmplifyOrder(x: real, y: real, p: real, q: real)
    requires 0.0 <= x <= y && p <= q
    ensures 0.0 <= Amplify(x, p) <= Amplify(y, q)
    ensures x < y && p == q ==> Amplify(x, p) < Amplify(y, q)
    ensures x == y ==> (Amplify(x, p) < Amplify(y, q) <==> x > 0.0 && p < q && q > 0.0)
  {
    var u, v := 1.0 + MaxR(p, 0.0), 1.0 + MaxR(q, 0.0);
    assert (y - x) * u >= 0.0 && y * (v - u) >= 0.0;
    assert y * u - x * u == (y - x) * u && y * v - y * u == y * (v - u);
    if x < y {
      assert (y - x) * u > 0.0;
    }
    if x > 0.0 && u < v {
      assert y * (v - u) > 0.0;
    }
  }

  /** More momentum never lowers the score, and raises it unless it was at its cap of 3 or the score stays at zero. */
  lemma {:induction false} MoreMomentum(f: Features, g: Features)
    requires TrendScore(f) == TrendScore(g) && VolatilityScore(f) == VolatilityScore(g) && f.penalty == g.penalty
    requires MomentumScore(f) <= MomentumScore(g)
    ensures ScoreOf(f) <= ScoreOf(g)
    ensures ScoreOf(f) < ScoreOf(g) <==>
            MomentumScore(f) < MomentumScore(g) && MomentumScore(f) < 3.0 && ScoreOf(g) > 0.0
  {
    hide TrendScore, MomentumScore, VolatilityScore;
  }

  /** A better RSI zone counts, below the momentum cap and unless the score stays at zero. */
  lemma {:induction false} RsiZoneCounts(f: Features, rsi: real)
    requires RsiRank(f.side, f.rsi) <= RsiRank(f.side, rsi)
    ensures var better := f.(rsi := rsi);
      && ScoreOf(f) <= ScoreOf(better)
      && (ScoreOf(f) < ScoreOf(better) <==>
            RsiRank(f.side, f.rsi) < RsiRank(f.side, rsi) && MomentumScore(f) < 3.0 && ScoreOf(better) > 0.0)
  {
    var better := f.(rsi := rsi);
    MomentumIs(f);
    MomentumIs(better);
    AmplifyOrder(Drive(f), Drive(better), Push(f), Push(better));
    hide MomentumScore, Amplify, ScoreOf;
    MoreMomentum(f, better);
  }

  /** A body above the average counts whenever the score does not stay at zero: the cap of 3 is out of reach without
      it. */
  lemma {:induction false} BodyCounts(f: Features)
    requires 1 <= f.streak <= 3
    ensures var with, without := ScoreOf(f.(bodyAboveAverage := true)), ScoreOf(f.(bodyAboveAverage := false));
      with >= without && (with > without <==> with > 0.0)
  {
    var g, h := f.(bodyAboveAverage := true), f.(bodyAboveAverage := false);
    MomentumIs(g);
    MomentumIs(h);
    AmplifyOrder(Drive(h), Drive(g), Push(f), Push(f));
    AmplifyOrder(Drive(h), 1.5, Push(f), 0.7);
    assert Amplify(1.5, 0.7) == 1.5 * 1.7;
    assert Push(h) == Push(f) == Push(g);
    hide MomentumScore, Amplify, ScoreOf;
    MoreMomentum(h, g);
  }

  /** A longer streak and a faster body never lower the score. They raise it when there is momentum to amplify, the
      larger push is positive, the cap was not reached and the score does not stay at zero. */
  lemma {:induction false} PushCounts(f: Features, acceleration: real, streak: nat)
    requires f.acceleration <= acceleration && 1 <= f.streak <= streak
    ensures var more := f.(acceleration := acceleration, streak := streak);
      && ScoreOf(f) <= ScoreOf(more)
      && (ScoreOf(f) < ScoreOf(more) <==>
            && (f.bodyAboveAverage || RsiRank(f.side, f.rsi) > 0)
            && Push(f) < Push(more) && Push(more) > 0.0 && MomentumScore(f) < 3.0 && ScoreOf(more) > 0.0)
  {
    var more := f.(acceleration := acceleration, streak := streak);
    MomentumIs(f);
    MomentumIs(more);
    AmplifyOrder(Drive(f), Drive(more), Push(f), Push(more));
    hide MomentumScore, Amplify, ScoreOf;
    MoreMomentum(f, more);
  }

  // ----- volatility and penalty

  /** The tier of an average-range ratio: chop up to 0.9, a weak trend up to 1.2, a strong one above. */
  function Tier(ratio: real): nat {
    if ratio > 1.2 then 2 else if ratio > 0.9 then 1 else 0
  }

  /** A higher tier counts half a point from chop to weak and two more to strong, unless the score stays at zero. */
  lemma {:induction false} TierCounts(f: Features, ratio: real)
    requires f.atrRatio <= ratio
    ensures var more := f.(atrRatio := ratio);
      && ScoreOf(f) <= ScoreOf(more)
      && (ScoreOf(f) < ScoreOf(more) <==> Tier(f.atrRatio) < Tier(ratio) && ScoreOf(more) > 0.0)
      && (ScoreOf(f) > 0.0 ==>
            ScoreOf(more) - ScoreOf(f) == Worth(Tier(ratio)) - Worth(Tier(f.atrRatio)))
  {
    var more := f.(atrRatio := ratio);
    assert MomentumScore(more) == MomentumScore(f);
    hide MomentumScore;
  }

  /** Points for a tier. */
  function Worth(tier: nat): real {
    if tier == 0 then 0.5 else if tier == 1 then 1.0 else 3.0
  }

  /** A breakout is worth one point, unless the score stays at zero: the cap of 4 is never exceeded. */
  lemma {:induction false} BreakoutCounts(f: Features)
    ensures var with, without := ScoreOf(f.(breakout := true)), ScoreOf(f.(breakout := false));
      && with >= without
      && (with > without <==> with > 0.0)
      && (without > 0.0 ==> with == without + 1.0)
  {
    var g, h := f.(breakout := true), f.(breakout := false);
    assert MomentumScore(g) == MomentumScore(h);
    hide MomentumScore;
  }

  /** A smaller penalty counts in full, unless the score stays at zero. */
  lemma {:induction false} PenaltyCounts(f: Features, penalty: real)
    requires penalty <= f.penalty
    ensures var less := f.(penalty := penalty);
      && ScoreOf(f) <= ScoreOf(less)
      && (ScoreOf(f) < ScoreOf(less) <==> penalty < f.penalty && ScoreOf(less) > 0.0)
      && (ScoreOf(f) > 0.0 ==> ScoreOf(less) - ScoreOf(f) == f.penalty - penalty)
  {
    var less := f.(penalty := penalty);
    assert MomentumScore(less) == MomentumScore(f);
    hide MomentumScore;
  }

  // ----- top marks

  /** Everything a score of 10 takes: trend and slope, a strong tier, a breakout, no penalty, and a body above the
      average amplified to 3 points, for which the better the RSI zone the less push is needed. */
  predicate TopMarks(f: Features) {
    && f.side != NONE && f.slope && f.atrRatio > 1.2 && f.breakout && f.penalty == 0.0 && f.bodyAboveAverage
    && match RsiRank(f.side, f.rsi)
      case 0 => false
      case 1 => Push(f) >= 0.5
      case 2 => Push(f) >= 0.2
      case _ => true
  }

  lemma {:induction false} FullMomentumIff(f: Features)
    requires 1 <= f.streak <= 3
    ensures MomentumScore(f) >= 3.0 <==>
      f.bodyAboveAverage && match RsiRank(f.side, f.rsi)
        case 0 => false
        case 1 => Push(f) >= 0.5
        case 2 => Push(f) >= 0.2
        case _ => true
  {
    MomentumIs(f);
    var rank, push := RsiRank(f.side, f.rsi), Push(f);
    assert push <= 0.7;
    hide Push, RsiRank, MomentumScore;
    var factor := 1.0 + MaxR(push, 0.0);
    assert 1.0 <= factor <= 1.7;
    match rank {
      case 0 => assert Drive(f) == 0.0 || Drive(f) == 1.5;
      case 1 => assert Drive(f) == 0.5 || Drive(f) == 2.0;
      case 2 => assert Drive(f) == 1.0 || Drive(f) == 2.5;
      case _ => assert Drive(f) == 1.5 || Drive(f) == 3.0;
    }
  }

  /** A score of 10 is reached exactly with everything in favour and nothing against. */
  lemma {:induction false} TenIff(f: Features)
    requires 1 <= f.streak <= 3 && f.penalty >= 0.0
    ensures ScoreOf(f) == 10.0 <==> TopMarks(f)
  {
    FullMomentumIff(f);
    hide MomentumScore, Push, RsiRank;
  }
}
