/** What the exit check means in terms of the prices a candle traded at. */
module ExitRule {
  import opened Reals
  import opened BacktestModels
  import opened BacktestHelpers

  /** Prices the execution mode looks at: the close alone, or everything between low and high. */
  predicate Traded(c: Candle, closeMode: bool, x: real) {
    if closeMode then x == c.close else c.low <= x <= c.high
  }

  /** How far price `x` is on the winning side of `level`. */
  function Beyond(d: Direction, x: real, level: real): real {
    if d == BUY then x - level else level - x
  }

  ghost predicate StopReached(p: Position, c: Candle, closeMode: bool) {
    exists x :: Traded(c, closeMode, x) && Beyond(p.direction, x, p.stopLoss) <= 0.0
  }

  ghost predicate TargetReached(p: Position, c: Candle, closeMode: bool) {
    exists x :: Traded(c, closeMode, x) && Beyond(p.direction, x, ActiveTarget(p)) >= 0.0
  }

  /** The stop is the nearer of the two levels to the open. */
  predicate StopNearer(p: Position, c: Candle) {
    Abs(c.open - p.stopLoss) <= Abs(c.open - ActiveTarget(p))
  }

  predicate TakesStop(x: Decision) {
    x.Close? && x.exit.reason == StopHit
  }

  predicate TakesTarget(x: Decision) {
    x.Partial? || (x.Close? && x.exit.reason == TargetHit)
  }

  lemma {:induction false} ReachedAtTheEdge(p: Position, c: Candle, closeMode: bool)
    requires closeMode || c.low <= c.high
    ensures StopReached(p, c, closeMode) <==> AtOrWorse(p.direction, WorstPrice(p.direction, c, closeMode), p.stopLoss)
    ensures TargetReached(p, c, closeMode) <==>
            AtOrBetter(p.direction, BestPrice(p.direction, c, closeMode), ActiveTarget(p))
  {
    var worst, best := WorstPrice(p.direction, c, closeMode), BestPrice(p.direction, c, closeMode);
    var target := ActiveTarget(p);
    hide ActiveTarget;
    assert Traded(c, closeMode, worst) && Traded(c, closeMode, best);
    forall x, level | Traded(c, closeMode, x)
      ensures Beyond(p.direction, worst, level) <= Beyond(p.direction, x, level) <= Beyond(p.direction, best, level)
    {
    }
    assert Beyond(p.direction, worst, p.stopLoss) <= 0.0 <==> AtOrWorse(p.direction, worst, p.stopLoss);
    assert Beyond(p.direction, best, target) >= 0.0 <==> AtOrBetter(p.direction, best, target);
  }

  /** The stop is taken when it was reached, and the target too only in close mode or if it is farther from the open. */
  ghost predicate StopDue(p: Position, c: Candle, closeMode: bool) {
    StopReached(p, c, closeMode) && (TargetReached(p, c, closeMode) ==> closeMode || StopNearer(p, c))
  }

  ghost predicate TargetDue(p: Position, c: Candle, closeMode: bool) {
    TargetReached(p, c, closeMode) && (StopReached(p, c, closeMode) ==> !closeMode && !StopNearer(p, c))
  }

  /** The position is kept exactly when no traded price reached a level. When one was reached it is taken; when both
      were, the stop wins on closes, and inside a candle the level nearer to the open does. A scale-out happens exactly
      when the target taken is not the last level. */
  lemma {:induction false} NearestReachedLevelIsTaken(p: Position, c: Candle, closeMode: bool, ratio: real,
                                                      spread: real)
    requires closeMode || c.low <= c.high
    ensures var x := Decide(p, c, closeMode, ratio, spread);
      && (x == Keep <==> !StopReached(p, c, closeMode) && !TargetReached(p, c, closeMode))
      && (TakesStop(x) <==> StopDue(p, c, closeMode))
      && (TakesTarget(x) <==> TargetDue(p, c, closeMode))
      && (x.Partial? <==> TakesTarget(x) && p.levelIdx + 1 < |p.levels|)
  {
    ReachedAtTheEdge(p, c, closeMode);
    hide StopReached, TargetReached, AtOrWorse, AtOrBetter, WorstPrice, BestPrice;
  }

  /** Some traded price was at least as good as `price`. */
  ghost predicate Attainable(d: Direction, c: Candle, closeMode: bool, price: real) {
    exists y :: Traded(c, closeMode, y) && Beyond(d, y, price) >= 0.0
  }

  lemma {:induction false} AttainableByBest(d: Direction, c: Candle, closeMode: bool, price: real)
    requires closeMode || c.low <= c.high
    ensures Attainable(d, c, closeMode, price) <==> Beyond(d, BestPrice(d, c, closeMode), price) >= 0.0
  {
    assert Traded(c, closeMode, BestPrice(d, c, closeMode));
  }

  /** A target is always booked at an attainable price. A stop is booked at the stop less the spread, which is
      attainable exactly when the candle did not gap through the stop by more than the spread. */
  lemma {:induction false} FillsAreAttainable(p: Position, c: Candle, closeMode: bool, ratio: real, spread: real)
    requires closeMode || c.low <= c.high
    ensures var x := Decide(p, c, closeMode, ratio, spread);
      && (x.Partial? ==> Attainable(p.direction, c, closeMode, x.out.price))
      && (x.Close? && x.exit.reason == TargetHit ==> Attainable(p.direction, c, closeMode, x.exit.price))
      && (TakesStop(x) ==>
            (Attainable(p.direction, c, closeMode, x.exit.price) <==>
             Beyond(p.direction, BestPrice(p.direction, c, closeMode), p.stopLoss) >= -spread))
  {
    var stopFill := if p.direction == BUY then p.stopLoss - spread else p.stopLoss + spread;
    AttainableByBest(p.direction, c, closeMode, stopFill);
    AttainableByBest(p.direction, c, closeMode, ActiveTarget(p));
    ReachedAtTheEdge(p, c, closeMode);
    hide WorstPrice, BestPrice, Attainable, StopReached, TargetReached;
  }

  /** A buyer stopped at 100 by a candle that never traded above 91 is booked at 100 less the spread. */
  lemma {:induction false} GapThroughTheStop(closeMode: bool, ratio: real, spread: real)
    requires 0.0 <= spread < 9.0
    ensures var p := Position(BUY, 0, 105.0, 100.0, 110.0, 1.0, [], 0);
      var c := Candle(1, 90.0, 91.0, 89.0, 90.0, 0, 0);
      var x := Decide(p, c, closeMode, ratio, spread);
      TakesStop(x) && x.exit.price == 100.0 - spread && !Attainable(BUY, c, closeMode, x.exit.price)
  {
  }
}
