/** Entities of the backtest simulator: candles, signals, the open position and recorded trades. */
module BacktestModels {
  import opened Options

  datatype Direction = BUY | SELL

  /** The six actions the engine trades on; everything else (HOLD included) is `NoTrade`. */
  datatype Action = Buy | Sell | BuyLimit | SellLimit | BuyStop | SellStop | NoTrade

  datatype Candle = Candle(time: int, open: real, high: real, low: real, close: real, spread: int, tickVolume: int)

  datatype Signal = Signal(action: Action, entry: Option<real>, stopLoss: real, takeProfit: real, levels: seq<real>)

  /** What one strategy call does: it returns a signal (or none), or it raises. */
  datatype Outcome = Returned(signal: Option<Signal>) | Raised

  /** Everything a strategy is shown at one candle. */
  datatype View = View(candle: Candle, window: seq<Candle>, contexts: map<string, seq<Candle>>)

  datatype Config = Config(
    primaryTf: string,
    initialBalance: real,
    spreadPips: real, pipValue: real, pointPrice: real, contractSize: real,
    closePriceMode: bool,
    volume: real, riskPct: real, commissionPerLot: real, tpRatio: real,
    isLlm: bool, maxLlmCalls: int,
    isMtf: bool, candleCounts: map<string, int>)
  {
    ghost predicate Valid() {
      contractSize > 0.0
    }
  }

  datatype Reason = StopHit | LevelHit(number: nat) | TargetHit | EndOfData

  /** The value of an `OpenPosition` object at one moment. */
  datatype Position = Position(
    direction: Direction, entryTime: int, entryPrice: real, stopLoss: real, takeProfit: real,
    volume: real, levels: seq<real>, levelIdx: nat)

  datatype Trade = Trade(
    direction: Direction, entryTime: int, entryPrice: real, stopLoss: real, takeProfit: real, volume: real,
    exitTime: int, exitPrice: real, reason: Reason, profit: real, equityAfter: real)

  datatype EquityPoint = EquityPoint(time: int, equity: real)

  /** The engine's open position: one object whose stop, volume and level index change in place. */
  class OpenPosition {
    const direction: Direction
    const entryTime: int
    const entryPrice: real
    const takeProfit: real
    const levels: seq<real>
    var stopLoss: real
    var volume: real
    var levelIdx: nat

    constructor (p: Position)
      ensures Value() == p
    {
      direction, entryTime, entryPrice, takeProfit, levels :=
        p.direction, p.entryTime, p.entryPrice, p.takeProfit, p.levels;
      stopLoss, volume, levelIdx := p.stopLoss, p.volume, p.levelIdx;
    }

    function Value(): Position
      reads this
    {
      Position(direction, entryTime, entryPrice, stopLoss, takeProfit, volume, levels, levelIdx)
    }
  }

  function Direct(a: Action): Direction
    requires a != NoTrade
  {
    if a in {Buy, BuyLimit, BuyStop} then BUY else SELL
  }

  function Sign(d: Direction): real {
    if d == BUY then 1.0 else -1.0
  }

  function SpreadPrice(cfg: Config, c: Candle): real {
    if c.spread > 0 then c.spread as real * cfg.pointPrice else cfg.spreadPips * cfg.pipValue
  }
}
