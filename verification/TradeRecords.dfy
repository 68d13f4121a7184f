/** What the exit check of a run writes down: which trade, with which fields, and what is left of the position. */
module TradeRecords {
  import opened Options
  import opened PyRound
  import opened Reals
  import opened BacktestModels
  import opened BacktestHelpers
  import opened BacktestEngine
  import opened ExitRule
  import opened Lifecycle
  import Ledger

  /** What closing `volume` of a position earns: the price difference in its favour on that size, less commission. */
  function Earned(cfg: Config, p: Position, price: real, volume: real): real {
    (if p.direction == BUY then (price - p.entryPrice) * (volume * cfg.contractSize)
     else -((price - p.entryPrice) * (volume * cfg.contractSize)))
    - cfg.commissionPerLot * volume
  }

  /** `t` names the position `p`, and closes `volume` of it at `price` and `time` for `reason`; profit and balance are
      shown with four digits. */
  ghost predicate Closes(cfg: Config, p: Position, t: Trade, volume: real, time: int, price: real, reason: Reason,
                         balance: real) {
    && t.direction == p.direction && t.entryTime == p.entryTime && t.entryPrice == p.entryPrice
    && t.stopLoss == p.stopLoss && t.takeProfit == p.takeProfit
    && t.volume == volume && t.exitTime == time && t.exitPrice == price && t.reason == reason
    && t.equityAfter == Round(balance, 10000.0)
  }

  /** One candle stops the position out: all of it, at the stop less the candle's spread for a buyer, and plus it for a
      seller. */
  ghost predicate StopsOut<S(!new)>(cfg: Config, s: Sim<S>, c: Candle, p: Position, after: Sim<S>) {
    var spread := if c.spread > 0 then c.spread as real * cfg.pointPrice else cfg.spreadPips * cfg.pipValue;
    Adds(cfg, s, p, after, p.volume, c.time, if p.direction == BUY then p.stopLoss - spread else p.stopLoss + spread,
         StopHit)
    && after.pos == None
  }

  /** One candle takes the last target: all of the position, at the target. */
  ghost predicate TakesProfit<S(!new)>(cfg: Config, s: Sim<S>, c: Candle, p: Position, after: Sim<S>) {
    var target := if p.levelIdx < |p.levels| then p.levels[p.levelIdx] else p.takeProfit;
    Adds(cfg, s, p, after, p.volume, c.time, target, TargetHit) && after.pos == None
  }

  /** The part of a position that a scale-out closes. */
  function Share(cfg: Config, p: Position): real {
    p.volume * cfg.tpRatio
  }

  /** One candle takes a target with more to come: `part` of the position, at the target. The rest, unless it is below
      0.001 lots, goes on with its stop at the entry. */
  ghost predicate ScalesOut<S(!new)>(cfg: Config, s: Sim<S>, c: Candle, p: Position, part: real, after: Sim<S>) {
    && p.levelIdx + 1 < |p.levels|
    && Adds(cfg, s, p, after, part, c.time, p.levels[p.levelIdx], LevelHit(p.levelIdx + 1))
    && after.pos == if p.volume - part < 0.001 then None
                    else Some(p.(volume := p.volume - part, stopLoss := p.entryPrice, levelIdx := p.levelIdx + 1))
  }

  /** `after` has one trade and one equity point more than `s`, and the balance with what the trade earned. */
  ghost predicate Adds<S(!new)>(cfg: Config, s: Sim<S>, p: Position, after: Sim<S>, volume: real, time: int,
                                price: real, reason: Reason) {
    var earned := Earned(cfg, p, price, volume);
    && after.balance == s.balance + earned
    && |after.trades| == |s.trades| + 1 && after.trades[..|s.trades|] == s.trades
    && Closes(cfg, p, after.trades[|s.trades|], volume, time, price, reason, s.balance + earned)
    && after.trades[|s.trades|].profit == Round(earned, 10000.0)
    && after.equity == s.equity + [EquityPoint(time, Round(s.balance + earned, 10000.0))]
  }

  lemma {:induction false} EarnedIsNet(cfg: Config, p: Position, price: real, volume: real)
    ensures Net(cfg, p, price, volume) == Earned(cfg, p, price, volume)
  {
    Ledger.GrossSplit(p.direction, p.entryPrice, price, volume, cfg.contractSize);
    hide Gross;
  }

  lemma {:induction false} BookAdds<S(!new)>(cfg: Config, s: Sim<S>, p: Position, volume: real, time: int, price: real,
                                             reason: Reason)
    ensures Adds(cfg, s, p, Book(cfg, s, p, volume, time, price, price, reason), volume, time, price, reason)
  {
    EarnedIsNet(cfg, p, price, volume);
    hide Net, Earned, Round;
  }

  /** `Adds` looks at the books only. */
  lemma {:induction false} AddsIgnoresPosition<S(!new)>(cfg: Config, s: Sim<S>, p: Position, after: Sim<S>,
                                                        volume: real, time: int, price: real, reason: Reason,
                                                        rest: Option<Position>)
    requires Adds(cfg, s, p, after, volume, time, price, reason)
    ensures Adds(cfg, s, p, after.(pos := rest), volume, time, price, reason)
  {
    hide Earned, Round, Closes;
  }

  lemma {:induction false} ExitIs<S(!new)>(cfg: Config, s: Sim<S>, c: Candle, p: Position)
    requires s.pos == Some(p)
    ensures var d, after := Decide(p, c, cfg.closePriceMode, cfg.tpRatio, SpreadPrice(cfg, c)), ExitPhase(cfg, s, c);
      && (d == Keep ==> after == s)
      && (TakesStop(d) ==> StopsOut(cfg, s, c, p, after))
      && (TakesTarget(d) ==>
            if d.Partial? then ScalesOut(cfg, s, c, p, Share(cfg, p), after)
            else TakesProfit(cfg, s, c, p, after))
  {
    var spread := SpreadPrice(cfg, c);
    var d := Decide(p, c, cfg.closePriceMode, cfg.tpRatio, spread);
    hide AtOrWorse, AtOrBetter, Adds, Book;
    if d.Close? {
      var e := d.exit;
      var booked := Book(cfg, s, p, p.volume, e.time, e.price, e.price, e.reason);
      BookAdds(cfg, s, p, p.volume, e.time, e.price, e.reason);
      AddsIgnoresPosition(cfg, s, p, booked, p.volume, e.time, e.price, e.reason, None);
    } else if d.Partial? {
      var o := d.out;
      assert o.time == c.time;
      DecisionShape(p, c, cfg.closePriceMode, cfg.tpRatio, spread);
      assert o.volumeClosed == Share(cfg, p);
      hide Decide, SpreadPrice, Share;
      var booked := Book(cfg, s, p, o.volumeClosed, o.time, o.price, o.price, o.reason);
      BookAdds(cfg, s, p, o.volumeClosed, o.time, o.price, o.reason);
      var left := p.volume - o.volumeClosed;
      var rest := if left < MIN_VOLUME then None
                  else Some(p.(volume := left, stopLoss := o.newStop, levelIdx := p.levelIdx + 1));
      AddsIgnoresPosition(cfg, s, p, booked, o.volumeClosed, o.time, o.price, o.reason, rest);
      assert ScalesOut(cfg, s, c, p, o.volumeClosed, ExitPhase(cfg, s, c));
      hide ScalesOut;
    }
  }

  /** What candle `i` of a run does to an open position: nothing when no traded price reached its stop or target; else
      the level that is due is taken, and the books gain exactly one trade, written out here field by field. */
  lemma {:induction false} CandleExits<S(!new)>(a: Setup<S>, i: nat)
    requires a.cfg.Valid() && i < |a.candles| && After(a, i).pos.Some?
    requires a.cfg.closePriceMode || a.candles[i].low <= a.candles[i].high
    ensures var s, x, c := Advanced(a, i, After(a, i)), Exited(a, i, After(a, i)), a.candles[i];
      var p, mode := s.pos.value, a.cfg.closePriceMode;
      && (!StopReached(p, c, mode) && !TargetReached(p, c, mode) ==> x == s)
      && (StopDue(p, c, mode) ==> StopsOut(a.cfg, s, c, p, x))
      && (TargetDue(p, c, mode) ==>
            if p.levelIdx + 1 < |p.levels| then ScalesOut(a.cfg, s, c, p, Share(a.cfg, p), x)
            else TakesProfit(a.cfg, s, c, p, x))
    ensures After(a, i + 1).trades == Exited(a, i, After(a, i)).trades
    ensures After(a, i + 1).balance == Exited(a, i, After(a, i)).balance
  {
    hide Share, ScalesOut, TakesProfit, StopsOut, After, StopReached;
    hide TargetReached, StopDue, TargetDue, Decide, ExitPhase, SignalPhase, AdvanceAll;
    var s, c := After(a, i), a.candles[i];
    AfterStep(a, i);
    SignalPhaseRecordsNothing(a, i, Exited(a, i, s));
    NearestReachedLevelIsTaken(s.pos.value, c, a.cfg.closePriceMode, a.cfg.tpRatio, SpreadPrice(a.cfg, c));
    ExitIs(a.cfg, Advanced(a, i, s), c, s.pos.value);
  }

  /** A position that is still open after the last candle is closed there: all of it, shown at the rounded close and
      booked at the close itself. */
  lemma {:induction false} EndOfDataRecord<S(!new)>(a: Setup<S>)
    requires a.cfg.Valid() && a.candles != [] && After(a, |a.candles|).pos.Some?
    ensures var s, last := After(a, |a.candles|), a.candles[|a.candles| - 1];
      var p := s.pos.value;
      var earned := Earned(a.cfg, p, last.close, p.volume);
      && |Final(a).trades| == |s.trades| + 1 && Final(a).trades[..|s.trades|] == s.trades
      && Closes(a.cfg, p, Final(a).trades[|s.trades|], p.volume, last.time, Round(last.close, 100000.0), EndOfData,
                s.balance + earned)
      && Final(a).trades[|s.trades|].profit == Round(earned, 10000.0)
      && Final(a).balance == s.balance + earned
  {
    hide After, Net, Earned, Round;
    var s, last := After(a, |a.candles|), a.candles[|a.candles| - 1];
    EarnedIsNet(a.cfg, s.pos.value, last.close, s.pos.value.volume);
  }
}
