/** Exit, fill and sizing rules of the backtest simulator. */
module BacktestHelpers {
  import opened Options
  import opened PyRound
  import opened Reals
  import opened BacktestModels

  datatype Exit = Exit(time: int, price: real, reason: Reason)
  datatype ScaleOut = ScaleOut(time: int, price: real, reason: Reason, volumeClosed: real, newStop: real)

  /** What one candle does to a position. */
  datatype Decision = Keep | Close(exit: Exit) | Partial(out: ScaleOut)

  function ActiveTarget(p: Position): real {
    if p.levelIdx < |p.levels| then p.levels[p.levelIdx] else p.takeProfit
  }

  /** More than one take-profit level is still ahead. */
  predicate HasNextLevel(p: Position) {
    p.levelIdx + 1 < |p.levels|
  }

  /** `x` is at or beyond `bound` in the losing direction of `d`. */
  predicate AtOrWorse(d: Direction, x: real, bound: real) {
    if d == BUY then x <= bound else x >= bound
  }

  predicate AtOrBetter(d: Direction, x: real, bound: real) {
    AtOrWorse(d, bound, x)
  }

  /** The least and most favourable prices the execution mode looks at. */
  function WorstPrice(d: Direction, c: Candle, closeMode: bool): real {
    if closeMode then c.close else if d == BUY then c.low else c.high
  }

  function BestPrice(d: Direction, c: Candle, closeMode: bool): real {
    if closeMode then c.close else if d == BUY then c.high else c.low
  }

  /** The exit rule stated once for both directions and both execution modes. */
  function Decide(p: Position, c: Candle, closeMode: bool, ratio: real, spread: real): Decision {
    var target := ActiveTarget(p);
    var stopHit := AtOrWorse(p.direction, WorstPrice(p.direction, c, closeMode), p.stopLoss);
    var targetHit := AtOrBetter(p.direction, BestPrice(p.direction, c, closeMode), target);
    var stopFirst := closeMode || Abs(c.open - p.stopLoss) <= Abs(c.open - target);
    if stopHit && (!targetHit || stopFirst) then
      Close(Exit(c.time, p.stopLoss - Sign(p.direction) * spread, StopHit))
    else if targetHit then
      if HasNextLevel(p) then
        Partial(ScaleOut(c.time, target, LevelHit(p.levelIdx + 1), p.volume * ratio, p.entryPrice))
      else
        Close(Exit(c.time, target, TargetHit))
    else Keep
  }

  /** The exit check as the engine performs it, branch by branch, advancing the level index in place. */
  method CheckExit(pos: OpenPosition, candle: Candle, closeMode: bool, ratio: real, spread: real)
    returns (closed: Option<Exit>, partial: Option<ScaleOut>)
    modifies pos`levelIdx
    ensures var d := Decide(old(pos.Value()), candle, closeMode, ratio, spread);
      && closed == (if d.Close? then Some(d.exit) else None)
      && partial == (if d.Partial? then Some(d.out) else None)
      && pos.levelIdx == old(pos.levelIdx) + (if d.Partial? then 1 else 0)
  {
    var sl, n, idx := pos.stopLoss, |pos.levels|, pos.levelIdx;
    var activeTp := pos.takeProfit;
    if n != 0 && idx < n {
      activeTp := pos.levels[idx];
    }
    var slFill := if pos.direction == BUY then sl - spread else sl + spread;
    var t := candle.time;
    var stop := Exit(t, slFill, StopHit);
    var target := Exit(t, activeTp, TargetHit);
    var scale := ScaleOut(t, activeTp, LevelHit(idx + 1), pos.volume * ratio, pos.entryPrice);
    ghost var d := Decide(pos.Value(), candle, closeMode, ratio, spread);
    assert d.Partial? ==> d.out == scale;
    closed, partial := None, None;
    if closeMode {
      var price := candle.close;
      if pos.direction == BUY {
        if price <= sl {
          closed := Some(stop);
        } else if price >= activeTp {
          if n != 0 && idx < n - 1 {
            partial := Some(scale);
            pos.levelIdx := idx + 1;
          } else {
            closed := Some(target);
          }
        }
      } else {
        if price >= sl {
          closed := Some(stop);
        } else if price <= activeTp {
          if n != 0 && idx < n - 1 {
            partial := Some(scale);
            pos.levelIdx := idx + 1;
          } else {
            closed := Some(target);
          }
        }
      }
    } else {
      var slHit := if pos.direction == BUY then candle.low <= sl else candle.high >= sl;
      var tpHit := if pos.direction == BUY then candle.high >= activeTp else candle.low <= activeTp;
      if slHit && tpHit {
        if Abs(candle.open - sl) <= Abs(candle.open - activeTp) {
          closed := Some(stop);
        } else if n != 0 && idx < n - 1 {
          partial := Some(scale);
          pos.levelIdx := idx + 1;
        } else {
          closed := Some(target);
        }
      } else if slHit {
        closed := Some(stop);
      } else if tpHit {
        if n != 0 && idx < n - 1 {
          partial := Some(scale);
          pos.levelIdx := idx + 1;
        } else {
          closed := Some(target);
        }
      }
    }
  }

  /** Pending orders fill at the signal's entry, market orders at the next open plus or minus the spread. */
  function FillPrice(sig: Signal, candles: seq<Candle>, i: nat, spread: real): Option<real> {
    if sig.action in {BuyLimit, SellLimit, BuyStop, SellStop} then sig.entry
    else if i + 1 < |candles| then
      Some(if sig.action == Buy then candles[i + 1].open + spread else candles[i + 1].open - spread)
    else None
  }

  function Gross(d: Direction, entry: real, exit: real, volume: real, contract: real): real {
    (exit - entry) * Sign(d) * volume * contract
  }

  const MIN_LOT := 0.01
  const MAX_LOT := 100.0

  /** Lots that risk `riskPct` of the balance at stop distance `d`. */
  function LotAt(balance: real, riskPct: real, d: real, contract: real): real
    requires contract > 0.0
  {
    if d < 0.00000001 then MIN_LOT
    else
      var lot := Round(balance * riskPct / (d * contract), 100.0);
      var capped := if lot < MAX_LOT then lot else MAX_LOT;
      if capped > MIN_LOT then capped else MIN_LOT
  }

  function LotSize(balance: real, riskPct: real, fill: real, stop: real, contract: real): real
    requires contract > 0.0
  {
    LotAt(balance, riskPct, Abs(fill - stop), contract)
  }

  /** Stop and target lie on the correct sides of the fill. */
  predicate Brackets(d: Direction, fill: real, stop: real, target: real) {
    if d == BUY then stop < fill < target else target < fill < stop
  }

  /** Both opening guards: the bracket, and a stop distance of at least 0.1 % of the fill. */
  predicate Accepts(d: Direction, fill: real, sig: Signal) {
    Brackets(d, fill, sig.stopLoss, sig.takeProfit) && !(Abs(fill - sig.stopLoss) < fill * 0.001)
  }

  /** The position opened at `fill`: rounded prices, risk-based or fixed volume. */
  function Opening(cfg: Config, d: Direction, time: int, fill: real, sig: Signal, balance: real): Position
    requires cfg.Valid()
  {
    var v :=
      if cfg.riskPct > 0.0 then LotSize(balance, cfg.riskPct, fill, sig.stopLoss, cfg.contractSize) else cfg.volume;
    Position(d, time, Round(fill, 100000.0), Round(sig.stopLoss, 100000.0), Round(sig.takeProfit, 100000.0), v,
             sig.levels, 0)
  }

  /** Act on one signal at candle `i`. */
  function TryOpen(cfg: Config, candles: seq<Candle>, i: nat, sig: Signal, balance: real): (r: Option<Position>)
    requires cfg.Valid() && i < |candles|
  {
    if sig.action == NoTrade then None
    else
      var d := Direct(sig.action);
      match FillPrice(sig, candles, i, SpreadPrice(cfg, candles[i]))
      case None => None
      case Some(fill) =>
        if Accepts(d, fill, sig) then Some(Opening(cfg, d, candles[i].time, fill, sig, balance)) else None
  }

  /** Sizing never leaves [0.01, 100] lots. */
  lemma {:induction false} LotWithinLimits(balance: real, riskPct: real, fill: real, stop: real, contract: real)
    requires contract > 0.0
    ensures MIN_LOT <= LotSize(balance, riskPct, fill, stop, contract) <= MAX_LOT
  {
  }
}
